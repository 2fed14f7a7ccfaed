/** Handle tables and channel endpoints in place: framework/handle.c, the reference counts
    of framework/channel.c, and the system calls that move handles, refining HandleRefs. */
module HandleSpace {
  import opened Composition
  import opened Sequences
  import opened Sums
  import Handles
  import opened HandleRefs
  import opened HandleCalls

  type Item = Handles.Item
  type Entry = Handles.Entry
  type Handle = Handles.Handle
  const CAPACITY := Handles.CAPACITY

  /** One `struct nx_handle_table`. */
  class HandleTable {
    const entries: array<Entry>
    var count: nat

    ghost predicate Valid()
      reads this, entries
    {
      entries.Length == CAPACITY
    }

    ghost function Value(): Handles.Table
      reads this, entries
    {
      Handles.Table(entries[..], count)
    }

    /** A new process starts with the console at entries 0 to 2. */
    constructor ()
      ensures Valid() && Value() == NewTable() && fresh(entries)
    {
      entries := new Entry[CAPACITY](i => Handles.Entry(if i < 2 then Handles.Console(2) else if i == 2 then Handles.Console(1) else Handles.Empty, 0));
      count := 3;
      new;
      assert entries[..] == NewTable().entries;
    }

    method FindFree(from: nat) returns (k: Option<nat>)
      requires Valid() && from <= CAPACITY
      ensures k == Handles.FreeFrom(entries[..], from)
    {
      for i := from to CAPACITY
        invariant Handles.FreeFrom(entries[..], from) == Handles.FreeFrom(entries[..], i)
      {
        if entries[i].item.Empty? { return Some(i); }
      }
      return None;
    }

    /** Fill entry `i`, counting it if it was free. */
    method Put(i: nat, x: Entry)
      requires Valid() && i < CAPACITY
      modifies this`count, entries
      ensures Value() == Handles.Put(old(Value()), i, x)
    {
      if entries[i].item.Empty? { count := count + 1; }
      entries[i] := x;
    }

    method Alloc(item: Item) returns (k: Option<nat>)
      requires Valid() && !item.Empty?
      modifies this`count, entries
      ensures (Value(), k) == Handles.Alloc(old(Value()), item)
    {
      k := FindFree(0);
      if k.Some? { Put(k.value, Handles.Entry(item, entries[k.value].generation)); }
    }

    method Lookup(h: Handle) returns (rc: Status, i: nat)
      requires Valid()
      ensures (rc, i) == Handles.Lookup(Value(), h) && (rc == OK ==> i < CAPACITY)
    {
      var k := Handles.Index(h);
      if k.None? { return EINVAL, 0; }
      if entries[k.value].item.Empty? { return ENOENT, 0; }
      if entries[k.value].generation != Handles.Generation(h) { return ENOENT, 0; }
      return OK, k.value;
    }

    method Close(h: Handle) returns (rc: Status)
      requires Valid()
      modifies this`count, entries
      ensures (Value(), rc) == Handles.Close(old(Value()), h)
    {
      var i;
      rc, i := Lookup(h);
      if rc == OK {
        entries[i] := Handles.Entry(Handles.Empty, (entries[i].generation + 1) % Handles.WORD);
        count := if count == 0 then 0 else count - 1;
      }
    }
  }

  /** All processes' tables and all endpoints. */
  class Processes {
    var tables: seq<HandleTable>
    var made: nat
    var ends: map<Handles.Endpoint, End>
    ghost var frees: seq<nat>
    ghost var faults: nat
    ghost var st: State

    ghost predicate Apart()
      reads this, tables
    {
      && (forall i | 0 <= i < |tables| :: tables[i].entries.Length == CAPACITY)
      && (forall i, j | 0 <= i < j < |tables| :: tables[i] != tables[j] && tables[i].entries != tables[j].entries)
    }

    ghost predicate Shows(c: State)
      reads this, tables, set i | 0 <= i < |tables| :: tables[i].entries
    {
      |c.tables| == |tables| && forall i | 0 <= i < |tables| :: tables[i].Value() == c.tables[i]
    }

    ghost function HeapNow(): Heap
      reads this
    {
      Heap(made, ends, frees, faults)
    }

    ghost predicate Valid()
      reads this, tables, set i | 0 <= i < |tables| :: tables[i].entries
    {
      Apart() && Shows(st) && st.heap == HeapNow()
    }

    constructor ()
      ensures Valid() && st == Boot() && fresh(tables[0]) && fresh(tables[0].entries) && |tables| == 1
    {
      var t := new HandleTable();
      tables := [t];
      made, ends, frees, faults := 0, map[], [], 0;
      st := Boot();
    }

    method RefsOf(e: Handles.Endpoint) returns (end: End)
      ensures end == HeapNow().At(e)
    {
      end := if e in ends then ends[e] else End(0, true);
    }

    /** `nx_channel_endpoint_retain`. */
    method RetainEnd(e: Handles.Endpoint)
      modifies this`ends, this`faults
      ensures HeapNow() == Retain(old(HeapNow()), e)
    {
      var end := RefsOf(e);
      faults := if e.chan in frees then faults + 1 else faults;
      ends := ends[e := end.(refs := end.refs + 1)];
    }

    /** `nx_channel_endpoint_close`. */
    method ReleaseEnd(e: Handles.Endpoint)
      modifies this`ends, this`faults, this`frees
      ensures HeapNow() == Release(old(HeapNow()), e)
    {
      var end := RefsOf(e);
      faults := if e.chan in frees then faults + 1 else faults;
      ends := ends[e := end.(refs := end.refs - 1)];
      if end.refs != 1 { return; }
      ends := ends[e := End(0, true)];
      var peer := RefsOf(Peer(e));
      if peer.refs == 0 { frees := frees + [e.chan]; }
    }

    method ReleaseWhat(x: Item)
      modifies this`ends, this`faults, this`frees
      ensures HeapNow() == ReleaseItem(old(HeapNow()), x)
    {
      if x.Channel? { ReleaseEnd(x.end); }
    }

    method RetainWhat(x: Item)
      modifies this`ends, this`faults
      ensures HeapNow() == RetainItem(old(HeapNow()), x)
    {
      if x.Channel? { RetainEnd(x.end); }
    }

    /** Make a channel and give its ends to `t`; if one of them cannot be given, take
        everything back. */
    method CreateIn(t: HandleTable, r0: nat, r1: nat, copied: bool) returns (rc: Status, h0: Handle, h1: Handle)
      requires t.Valid()
      modifies this`made, this`ends, this`faults, this`frees, t`count, t.entries
      ensures (t.Value(), HeapNow(), rc) == HandleRefs.CreateIn(old(t.Value()), old(HeapNow()), r0, r1, copied)
      ensures rc == OK ==> Handles.Index(h0).Some? && Handles.Index(h1).Some?
                           && t.entries[Handles.Index(h0).value].item == Handles.Channel(Handles.Endpoint(old(made), false), r0)
                           && t.entries[Handles.Index(h1).value].item == Handles.Channel(Handles.Endpoint(old(made), true), r1)
    {
      hide Release, Handles.Alloc, Handles.Close, Handles.Encode, Handles.Index;
      var e0, e1 := Handles.Endpoint(made, false), Handles.Endpoint(made, true);
      made, ends := made + 1, ends[e0 := End(1, false)][e1 := End(1, false)];
      h0, h1 := 0, 0;
      var k0 := t.Alloc(Handles.Channel(e0, r0));
      if k0.None? {
        ReleaseEnd(e0);
        ReleaseEnd(e1);
        return ENOMEM, h0, h1;
      }
      AllocAt(old(t.Value()), Handles.Channel(e0, r0));
      ghost var t0 := t.Value();
      var k1 := t.Alloc(Handles.Channel(e1, r1));
      AllocAt(t0, Handles.Channel(e1, r1));
      h0 := Handles.Encode(t.entries[k0.value].generation, k0.value);
      if k1.None? {
        var _ := t.Close(h0);
        ReleaseEnd(e0);
        ReleaseEnd(e1);
        return ENOMEM, h0, h1;
      }
      h1 := Handles.Encode(t.entries[k1.value].generation, k1.value);
      Handles.DecodeEncoded(t.entries[k0.value].generation, k0.value);
      Handles.DecodeEncoded(t.entries[k1.value].generation, k1.value);
      if !copied {
        var _ := t.Close(h0);
        var _ := t.Close(h1);
        ReleaseEnd(e0);
        ReleaseEnd(e1);
        return EINVAL, h0, h1;
      }
      return OK, h0, h1;
    }

    /** `sys_channel_create` and `sys_pipe`. */
    method CreateChannel(p: nat, r0: nat, r1: nat, copied: bool) returns (rc: Status, h0: Handle, h1: Handle)
      requires Valid() && p < |tables|
      modifies this`made, this`ends, this`faults, this`frees, this`st, tables[p], tables[p].entries
      ensures Valid() && (st, rc) == HandleRefs.CreateChannel(old(st), p, r0, r1, copied)
      ensures rc == OK ==> Handles.Index(h0).Some? && Handles.Index(h1).Some?
                           && tables[p].entries[Handles.Index(h0).value].item == Handles.Channel(Handles.Endpoint(old(made), false), r0)
                           && tables[p].entries[Handles.Index(h1).value].item == Handles.Channel(Handles.Endpoint(old(made), true), r1)
    {
      hide HandleRefs.CreateIn, Handles.Index;
      rc, h0, h1 := CreateIn(tables[p], r0, r1, copied);
      st := HandleRefs.CreateChannel(st, p, r0, r1, copied).0;
    }

    /** `sys_handle_close`. */
    method CloseHandle(p: nat, handle: Handle) returns (rc: Status)
      requires Valid() && p < |tables|
      modifies this`ends, this`faults, this`frees, this`st, tables[p], tables[p].entries
      ensures Valid() && (st, rc) == HandleRefs.CloseHandle(old(st), p, handle)
    {
      hide ReleaseItem, Handles.Close, Handles.Encode, Handles.Lookup;
      var t := tables[p];
      var h := handle;
      if h == 0 {
        if t.entries[2].item.Empty? { return ENOENT; }
        h := Handles.Encode(t.entries[2].generation, 2);
      }
      st := HandleRefs.CloseHandle(st, p, handle).0;
      var found, i := t.Lookup(h);
      if found == OK { ReleaseWhat(t.entries[i].item); }
      rc := t.Close(h);
    }

    /** `sys_dup3`. */
    method Dup3(p: nat, oldfd: Handle, newfd: Handle) returns (answer: int)
      requires Valid() && p < |tables|
      modifies this`ends, this`faults, this`frees, this`st, tables[p], tables[p].entries
      ensures Valid() && |old(st).tables[p].entries| == CAPACITY && (st, answer) == HandleRefs.Dup3(old(st), p, oldfd, newfd)
    {
      hide ReleaseItem, RetainItem, Handles.Lookup, Handles.Put;
      if oldfd == newfd { return newfd; }
      var t := tables[p];
      var rc, k := t.Lookup(oldfd);
      if rc != OK { return rc; }
      var target := Dup3Target(newfd);
      if target.None? { return EINVAL; }
      st := HandleRefs.Dup3(st, p, oldfd, newfd).0;
      var (i, g) := target.value;
      var src := t.entries[k].item;
      ReleaseWhat(t.entries[i].item);
      RetainWhat(src);
      t.Put(i, Handles.Entry(src, g));
      return newfd;
    }

    /** The `F_DUPFD` body of `sys_fcntl`. */
    method DupAbove(p: nat, fd: Handle, arg: int) returns (answer: int)
      requires Valid() && p < |tables|
      modifies this`ends, this`faults, this`st, tables[p], tables[p].entries
      ensures Valid() && |old(st).tables[p].entries| == CAPACITY && (st, answer) == HandleRefs.DupAbove(old(st), p, fd, arg)
    {
      hide RetainItem, Handles.Lookup, Handles.Put, Handles.FreeFrom;
      var rc, k := tables[p].Lookup(fd);
      if rc != OK { return EBADF; }
      var least := if arg <= 0 || arg - 1 >= CAPACITY then 0 else arg - 1;
      var free := tables[p].FindFree(least);
      if free.None? { return EMFILE; }
      Install(tables[p], tables[p].entries[k].item, free.value);
      st := HandleRefs.DupAbove(st, p, fd, arg).0;
      return free.value + 1;
    }

    /** A copy of `src` in the free entry `i`, under its first generation. */
    method Install(t: HandleTable, src: Item, i: nat)
      requires t.Valid() && i < CAPACITY
      modifies this`ends, this`faults, t`count, t.entries
      ensures t.Value() == Handles.Put(old(t.Value()), i, Handles.Entry(src, 0)) && HeapNow() == RetainItem(old(HeapNow()), src)
    {
      hide RetainItem, Handles.Put;
      RetainWhat(src);
      t.Put(i, Handles.Entry(src, 0));
    }

    /** The inheritance loop of `sys_fork`. */
    method InheritFrom(parent: HandleTable) returns (child: HandleTable)
      requires parent.Valid()
      modifies this`ends, this`faults
      ensures child.Valid() && fresh(child) && fresh(child.entries)
      ensures (child.Value(), HeapNow()) == Inherit(old(parent.entries[..]), CAPACITY, old(HeapNow()))
    {
      hide RetainItem, NewTable, Handles.Put;
      child := new HandleTable();
      for i := 0 to CAPACITY
        invariant fresh(child) && fresh(child.entries) && child.Valid()
        invariant (child.Value(), HeapNow()) == Inherit(old(parent.entries[..]), i, old(HeapNow()))
      {
        var x := parent.entries[i];
        RetainWhat(x.item);
        if Inherited(x.item) { child.Put(i, x); }
      }
    }

    /** `sys_fork` from the inheritance loop on. */
    method Fork(p: nat, task: bool)
      requires Valid() && p < |tables|
      modifies this`ends, this`faults, this`tables, this`st
      ensures Valid() && |old(st).tables[p].entries| == CAPACITY && st == HandleRefs.Fork(old(st), p, task)
    {
      hide Inherit;
      var child := InheritFrom(tables[p]);
      st := HandleRefs.Fork(st, p, task);
      if task { tables := tables + [child]; }
    }

    /** The loop of `nx_process_exit`. */
    method Exit(p: nat)
      requires Valid() && p < |tables|
      modifies this`ends, this`faults, this`frees, this`st, tables[p], tables[p].entries
      ensures Valid() && st == HandleRefs.Exit(old(st), p)
    {
      hide ReleaseItem, Handles.Close, Handles.Encode;
      var t := tables[p];
      ghost var t0, h0 := t.Value(), HeapNow();
      for i := 0 to CAPACITY
        invariant t.Valid() && (t.Value(), HeapNow()) == ExitLoop(t0, h0, i)
        invariant st == old(st) && tables == old(tables)
        invariant forall j | 0 <= j < |tables| && j != p :: tables[j].Value() == st.tables[j]
      {
        var x := t.entries[i];
        ReleaseWhat(x.item);
        if !x.item.Empty? {
          var _ := t.Close(Handles.Encode(x.generation, i));
        }
      }
      st := HandleRefs.Exit(st, p);
    }
  }

  lemma AllocAt(t: Handles.Table, item: Item)
    requires |t.entries| == CAPACITY
    ensures var (t', k) := Handles.Alloc(t, item);
            && |t'.entries| == CAPACITY
            && (k.Some? ==> k.value < CAPACITY && t'.entries == t.entries[k.value := Handles.Entry(item, t.entries[k.value].generation)]
                            && t.entries[k.value].item.Empty?)
  {
  }
}
