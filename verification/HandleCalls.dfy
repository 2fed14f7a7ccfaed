/** Which system calls keep the reference counts right: all of them, except in a few
    situations that are spelled out and in which they provably do not. */
module HandleCalls {
  import opened Composition
  import opened Sequences
  import opened Sums
  import opened Handles
  import opened HandleRefs

  datatype Step =
    | MakeChannel(p: nat, r0: nat, r1: nat, copied: bool)
    | CloseFd(p: nat, h: Handle)
    | Dup3Fd(p: nat, oldfd: Handle, newfd: Handle)
    | DupFd(p: nat, fd: Handle, arg: int)
    | ForkFrom(p: nat, task: bool)
    | ExitOf(p: nat)

  predicate Enabled(st: State, s: Step) {
    s.p < |st.tables| && |st.tables[s.p].entries| == CAPACITY
  }

  function Next(st: State, s: Step): State
    requires Enabled(st, s)
  {
    match s
    case MakeChannel(p, r0, r1, copied) => CreateChannel(st, p, r0, r1, copied).0
    case CloseFd(p, h) => CloseHandle(st, p, h).0
    case Dup3Fd(p, oldfd, newfd) => Dup3(st, p, oldfd, newfd).0
    case DupFd(p, fd, arg) => DupAbove(st, p, fd, arg).0
    case ForkFrom(p, task) => Fork(st, p, task)
    case ExitOf(p) => Exit(st, p)
  }

  // ---------------------------------------------------------------- when a call fits

  /** The two lowest free entries, those of them that exist, still answer to their handles. */
  predicate UndoFits(t: Table) {
    var k0 := FreeFrom(t.entries, 0);
    k0.Some? ==>
      && Nameable(t.entries[k0.value].generation)
      && var k1 := FreeFrom(t.entries, k0.value + 1); k1.Some? ==> Nameable(t.entries[k1.value].generation)
  }

  /** Nothing was handed out, or both ends were, or what was can be taken back. */
  predicate CreateFits(t: Table, copied: bool) {
    var k0 := FreeFrom(t.entries, 0);
    k0.None? || (copied && FreeFrom(t.entries, k0.value + 1).Some?) || UndoFits(t)
  }

  /** Not replacing the last reference to a channel end by itself. */
  predicate Dup3Fits(st: State, p: nat, oldfd: Handle, newfd: Handle)
    requires p < |st.tables|
  {
    var r, target := Lookup(st.tables[p], oldfd), Dup3Target(newfd);
    oldfd == newfd || r.0 != OK || target.None? || target.value.0 != r.1 ||
    var x := st.tables[p].entries[r.1].item;
    !x.Channel? || Total(st.tables, x.end) > 1
  }

  predicate NoChannels(t: Table) {
    forall x | x in t.entries :: !x.item.Channel?
  }

  predicate ExitFits(t: Table) {
    forall x | x in t.entries :: x.item.Channel? ==> Nameable(x.generation)
  }

  predicate Fits(st: State, s: Step)
    requires Enabled(st, s)
  {
    match s
    case MakeChannel(p, r0, r1, copied) => CreateFits(st.tables[p], copied)
    case CloseFd(_, _) => true
    case Dup3Fd(p, oldfd, newfd) => Dup3Fits(st, p, oldfd, newfd)
    case DupFd(_, _, _) => true
    case ForkFrom(p, task) => task || NoChannels(st.tables[p])
    case ExitOf(p) => ExitFits(st.tables[p])
  }

  // ---------------------------------------------------------------- one entry at a time

  ghost predicate TablesOk(tables: seq<Table>) {
    forall t | t in tables :: TableOk(t)
  }

  lemma TablesWith(tables: seq<Table>, p: nat, t: Table)
    requires TablesOk(tables) && p < |tables| && TableOk(t)
    ensures TablesOk(tables[p := t])
  {
  }

  /** An entry stops naming what it names, and the reference goes with it. */
  lemma DropEntry(h: Heap, tables: seq<Table>, p: nat, t': Table, i: nat, x: Entry)
    requires HeapOk(h, tables) && p < |tables| && i < |tables[p].entries|
    requires t'.entries == tables[p].entries[i := x] && !x.item.Channel?
    ensures HeapOk(ReleaseItem(h, tables[p].entries[i].item), tables[p := t'])
  {
    hide HeapOk, Total;
    var was, b := tables[p].entries[i].item, tables[p := t'];
    forall e: Endpoint ensures Total(b, e) == Total(tables, e) - Share(was, e) {
      EntryTotals(tables, p, t', i, x, e);
    }
    if was.Channel? {
      NamedCounts(tables, p, i);
      ReleaseOk(h, tables, b, was.end);
    } else {
      SameHeap(h, tables, b);
    }
  }

  /** A free or uncounted entry comes to name something that is named elsewhere. */
  lemma CopyEntry(h: Heap, tables: seq<Table>, p: nat, t': Table, i: nat, x: Entry)
    requires HeapOk(h, tables) && p < |tables| && i < |tables[p].entries|
    requires t'.entries == tables[p].entries[i := x] && !tables[p].entries[i].item.Channel?
    requires x.item.Channel? ==> Total(tables, x.item.end) >= 1
    ensures HeapOk(RetainItem(h, x.item), tables[p := t'])
  {
    hide HeapOk, Total;
    var b := tables[p := t'];
    forall e: Endpoint ensures Total(b, e) == Total(tables, e) + Share(x.item, e) {
      EntryTotals(tables, p, t', i, x, e);
    }
    if x.item.Channel? {
      RetainOk(h, tables, b, x.item.end);
    } else {
      SameHeap(h, tables, b);
    }
  }

  // ---------------------------------------------------------------- close, dup

  lemma CloseKeeps(st: State, p: nat, h: Handle)
    requires Inv(st) && p < |st.tables|
    ensures Inv(CloseHandle(st, p, h).0)
  {
    hide HeapOk, TableOk, Index, Generation, ReleaseItem;
    var t := st.tables[p];
    var g := CloseTarget(t, h);
    var r := Lookup(t, g);
    CloseOk(t, g);
    TablesWith(st.tables, p, Close(t, g).0);
    if r.0 == OK {
      DropEntry(st.heap, st.tables, p, Close(t, g).0, r.1, Closed(t.entries[r.1]));
    } else {
      assert st.tables[p := t] == st.tables;
    }
  }

  lemma DupKeeps(st: State, p: nat, fd: Handle, arg: int)
    requires Inv(st) && p < |st.tables| && |st.tables[p].entries| == CAPACITY
    ensures Inv(DupAbove(st, p, fd, arg).0)
  {
    hide HeapOk, TableOk, RetainItem, Index, Generation, Total;
    var t := st.tables[p];
    var r := Lookup(t, fd);
    var least := if arg <= 0 || arg - 1 >= CAPACITY then 0 else arg - 1;
    var k := FreeFrom(t.entries, least);
    if r.0 == OK && k.Some? {
      var x := Entry(t.entries[r.1].item, 0);
      PutOk(t, k.value, x);
      TablesWith(st.tables, p, Put(t, k.value, x));
      if x.item.Channel? { NamedCounts(st.tables, p, r.1); }
      CopyEntry(st.heap, st.tables, p, Put(t, k.value, x), k.value, x);
    }
  }

  /** The table with entry `i` cleared, as between the release and the copy of a dup3. */
  function Cleared(t: Table, i: nat): Table
    requires i < |t.entries|
  {
    Table(t.entries[i := Entry(Empty, 0)], t.count)
  }

  lemma Dup3Heap(st: State, p: nat, i: nat, k: nat, g: nat)
    requires HeapOk(st.heap, st.tables) && p < |st.tables| && i < |st.tables[p].entries| && k < |st.tables[p].entries|
    requires var x := st.tables[p].entries[k].item; x.Channel? && i == k ==> Total(st.tables, x.end) > 1
    ensures var t := st.tables[p];
            var x := t.entries[k].item;
            HeapOk(RetainItem(ReleaseItem(st.heap, t.entries[i].item), x), st.tables[p := Put(t, i, Entry(x, g))])
  {
    hide HeapOk, Total, RetainItem, ReleaseItem;
    var t, x := st.tables[p], st.tables[p].entries[k].item;
    var mid := st.tables[p := Cleared(t, i)];
    DropEntry(st.heap, st.tables, p, Cleared(t, i), i, Entry(Empty, 0));
    if x.Channel? {
      if i == k {
        EntryTotals(st.tables, p, Cleared(t, i), i, Entry(Empty, 0), x.end);
      } else {
        NamedCounts(mid, p, k);
      }
    }
    CopyEntry(ReleaseItem(st.heap, t.entries[i].item), mid, p, Put(t, i, Entry(x, g)), i, Entry(x, g));
    assert mid[p := Put(t, i, Entry(x, g))] == st.tables[p := Put(t, i, Entry(x, g))];
  }

  lemma Dup3Keeps(st: State, p: nat, oldfd: Handle, newfd: Handle)
    requires Inv(st) && p < |st.tables| && |st.tables[p].entries| == CAPACITY && Dup3Fits(st, p, oldfd, newfd)
    ensures Inv(Dup3(st, p, oldfd, newfd).0)
  {
    hide HeapOk, TableOk, RetainItem, ReleaseItem, Generation, Total;
    var t := st.tables[p];
    var r, target := Lookup(t, oldfd), Dup3Target(newfd);
    if oldfd != newfd && r.0 == OK && target.Some? {
      var (i, g) := target.value;
      Dup3Heap(st, p, i, r.1, g);
      PutOk(t, i, Entry(t.entries[r.1].item, g));
      TablesWith(st.tables, p, Put(t, i, Entry(t.entries[r.1].item, g)));
    }
  }

  /** The last reference dies before it is copied: the end comes back to life marked closed. */
  lemma Dup3Breaks(st: State, p: nat, oldfd: Handle, newfd: Handle)
    requires Inv(st) && p < |st.tables| && |st.tables[p].entries| == CAPACITY && !Dup3Fits(st, p, oldfd, newfd)
    ensures !Inv(Dup3(st, p, oldfd, newfd).0)
  {
    hide TableOk, Generation, Total, Index;
    var t, i, g := st.tables[p], Dup3Target(newfd).value.0, Dup3Target(newfd).value.1;
    var x := t.entries[i].item;
    NamedCounts(st.tables, p, i);
    EntryTotals(st.tables, p, Put(t, i, Entry(x, g)), i, Entry(x, g), x.end);
    assert EndOk(st.heap, st.tables, x.end);
    var st' := Dup3(st, p, oldfd, newfd).0;
    assert st'.heap.At(x.end) == End(1, true);
    assert !EndOk(st'.heap, st'.tables, x.end);
  }

  /** The number the caller asked for names the copy, whatever the entry's counter was. */
  lemma Dup3Names(st: State, p: nat, oldfd: Handle, newfd: Handle)
    requires p < |st.tables| && |st.tables[p].entries| == CAPACITY
    requires Lookup(st.tables[p], oldfd).0 == OK && newfd != oldfd && (newfd == 0 || Index(newfd).Some?)
    ensures var t, t', i := st.tables[p], Dup3(st, p, oldfd, newfd).0.tables[p], if newfd == 0 then 2 else Index(newfd).value;
            && Dup3(st, p, oldfd, newfd).1 == newfd && Lookup(t', if newfd == 0 then 3 else newfd) == (OK, i)
            && t'.entries[i].item == t.entries[Lookup(t, oldfd).1].item
  {
    hide Retain, Release;
  }

  /** The answer of `F_DUPFD` names the copy.  It is the number the first handle of that
      entry had, however often the entry was closed since. */
  lemma DupNames(st: State, p: nat, fd: Handle, arg: int)
    requires p < |st.tables| && |st.tables[p].entries| == CAPACITY && DupAbove(st, p, fd, arg).1 > 0
    ensures var t, (st', h) := st.tables[p], DupAbove(st, p, fd, arg);
            && h == Encode(0, h - 1) && t.entries[h - 1].item.Empty?
            && Lookup(st'.tables[p], h) == (OK, h - 1) && st'.tables[p].entries[h - 1].item == t.entries[Lookup(t, fd).1].item
  {
    hide Retain;
  }

  // ---------------------------------------------------------------- create

  function Ends(h: Heap): (Endpoint, Endpoint) {
    (Endpoint(h.made, false), Endpoint(h.made, true))
  }

  function Dropped(h: Heap): Heap {
    Release(Release(Create(h), Ends(h).0), Ends(h).1)
  }

  lemma TwoEntries(a: Endpoint, b: Endpoint, e: Endpoint)
    ensures Holds(e)(Table([Entry(Channel(a, 0), 0)], 0)) == (if a == e then 1 else 0)
    ensures Holds(e)(Table([Entry(Channel(a, 0), 0), Entry(Channel(b, 0), 0)], 0)) == (if a == e then 1 else 0) + if b == e then 1 else 0
  {
    var x, y := Entry(Channel(a, 0), 0), Entry(Channel(b, 0), 0);
    assert [x][..0] == [] && [x, y] == [x] + [y];
    SumSnoc([x], y, Names(e));
  }

  /** Making a channel and dropping both ends at once leaves it freed and all else alone. */
  lemma DroppedOk(h: Heap, a: seq<Table>)
    requires HeapOk(h, a)
    ensures HeapOk(Dropped(h), a)
  {
    hide HeapOk, Total, Release, Create, Holds;
    var (e0, e1) := Ends(h);
    var both := a + [Table([Entry(Channel(e0, 0), 0), Entry(Channel(e1, 0), 0)], 0)];
    var one := a + [Table([Entry(Channel(e1, 0), 0)], 0)];
    forall x: Endpoint
      ensures Total(both, x) == Total(a, x) + (if x.chan == h.made then 1 else 0)
      ensures Total(one, x) == Total(a, x) + (if x == e1 then 1 else 0)
    {
      LastTotals(a, Table([Entry(Channel(e0, 0), 0), Entry(Channel(e1, 0), 0)], 0), x);
      LastTotals(a, Table([Entry(Channel(e1, 0), 0)], 0), x);
      TwoEntries(e0, e1, x);
      TwoEntries(e1, e1, x);
    }
    CreateOk(h, a, both);
    TotalNonNegative(a, e0);
    TotalNonNegative(a, e1);
    ReleaseOk(Create(h), both, one, e0);
    ReleaseOk(Release(Create(h), e0), one, a, e1);
  }

  lemma DroppedRefs(h: Heap)
    ensures Dropped(h).At(Ends(h).0).refs == 0 && Dropped(h).At(Ends(h).1).refs == 0
  {
    var (e0, e1) := Ends(h);
    RefsMove(Release(Create(h), e0), e1, e0);
    RefsMove(Release(Create(h), e0), e1, e1);
    RefsMove(Create(h), e0, e0);
    RefsMove(Create(h), e0, e1);
  }

  /** Handing the new ends out: entries `k0` and `k1` were free. */
  lemma HandOut(h: Heap, a: seq<Table>, p: nat, t1: Table, k0: nat, k1: nat, x0: Entry, x1: Entry)
    requires HeapOk(h, a) && p < |a| && k0 < |a[p].entries| && k1 < |a[p].entries| && k0 != k1
    requires a[p].entries[k0].item.Empty? && a[p].entries[k1].item.Empty?
    requires x0.item.Channel? && x0.item.end == Ends(h).0 && x1.item.Channel? && x1.item.end == Ends(h).1
    requires t1.entries == a[p].entries[k0 := x0][k1 := x1]
    ensures HeapOk(Create(h), a[p := t1])
  {
    hide HeapOk, Total, Create;
    var mid := Table(a[p].entries[k0 := x0], 0);
    forall x: Endpoint ensures Total(a[p := t1], x) == Total(a, x) + if x.chan == h.made then 1 else 0 {
      EntryTotals(a, p, mid, k0, x0, x);
      EntryTotals(a[p := mid], p, t1, k1, x1, x);
      assert a[p := mid][p := t1] == a[p := t1];
    }
    CreateOk(h, a, a[p := t1]);
  }

  /** Entries that were free and are free again leave the totals alone. */
  lemma HandBack(h: Heap, a: seq<Table>, p: nat, t1: Table, k0: nat, k1: nat, x0: Entry, x1: Entry)
    requires HeapOk(h, a) && p < |a| && k0 < |a[p].entries| && k1 < |a[p].entries|
    requires a[p].entries[k0].item.Empty? && a[p].entries[k1].item.Empty? && x0.item.Empty? && x1.item.Empty?
    requires t1.entries == a[p].entries[k0 := x0][k1 := x1]
    ensures HeapOk(h, a[p := t1])
  {
    hide HeapOk, Total;
    var mid := Table(a[p].entries[k0 := x0], 0);
    forall x: Endpoint ensures Total(a[p := t1], x) == Total(a, x) {
      EntryTotals(a, p, mid, k0, x0, x);
      EntryTotals(a[p := mid], p, t1, k1, x1, x);
      assert a[p := mid][p := t1] == a[p := t1];
    }
    SameHeap(h, a, a[p := t1]);
  }

  /** Closing an entry through the handle built from its own counter. */
  lemma CloseOwn(t: Table, i: nat)
    requires i < |t.entries| == CAPACITY && !t.entries[i].item.Empty?
    ensures var t' := Close(t, Encode(t.entries[i].generation, i)).0;
            t'.entries == if Nameable(t.entries[i].generation) then t.entries[i := Closed(t.entries[i])] else t.entries
  {
    hide Encode, Lookup;
    OwnHandle(t, i);
  }

  /** The table after a creation that had to be undone. */
  function Undone(t: Table, e0: Endpoint, e1: Endpoint, r0: nat, r1: nat): Table
    requires |t.entries| == CAPACITY && FreeFrom(t.entries, 0).Some?
  {
    var (t0, k0) := Alloc(t, Channel(e0, r0));
    var (t1, k1) := Alloc(t0, Channel(e1, r1));
    var back0 := Close(t1, Encode(t1.entries[k0.value].generation, k0.value)).0;
    if k1.None? then back0 else Close(back0, Encode(t1.entries[k1.value].generation, k1.value)).0
  }

  lemma SecondFree(t: Table, e: Endpoint, r: nat)
    requires FreeFrom(t.entries, 0).Some?
    ensures FreeFrom(Alloc(t, Channel(e, r)).0.entries, 0) == FreeFrom(t.entries, FreeFrom(t.entries, 0).value + 1)
  {
    var k, less := FreeFrom(t.entries, 0).value, Alloc(t, Channel(e, r)).0.entries;
    var a, b := FreeFrom(less, 0), FreeFrom(t.entries, k + 1);
    assert a.Some? ==> t.entries[a.value] == less[a.value];
    assert b.Some? ==> less[b.value] == t.entries[b.value];
  }

  lemma UndoneEntries(t: Table, e0: Endpoint, e1: Endpoint, r0: nat, r1: nat) returns (k0: nat, k1: nat, x0: Entry, x1: Entry)
    requires |t.entries| == CAPACITY && FreeFrom(t.entries, 0).Some?
    ensures k0 < CAPACITY && k1 < CAPACITY && t.entries[k0].item.Empty? && t.entries[k1].item.Empty?
    ensures Undone(t, e0, e1, r0, r1).entries == t.entries[k0 := x0][k1 := x1]
    ensures UndoFits(t) ==> x0.item.Empty? && x1.item.Empty?
    ensures !UndoFits(t) ==> x1.item == Channel(e1, r1) || x1.item == Channel(e0, r0) || (k0 != k1 && x0.item == Channel(e0, r0))
  {
    hide Encode, Lookup, Nameable, Handles.Close;
    SecondFree(t, e0, r0);
    var (t0, f0) := Alloc(t, Channel(e0, r0));
    k0 := f0.value;
    x0 := if Nameable(t.entries[k0].generation) then Closed(t0.entries[k0]) else t0.entries[k0];
    var (t1, f1) := Alloc(t0, Channel(e1, r1));
    CloseOwn(t1, k0);
    if f1.None? {
      k1, x1 := k0, x0;
    } else {
      k1 := f1.value;
      var back0 := Close(t1, Encode(t1.entries[k0].generation, k0)).0;
      CloseOwn(back0, k1);
      x1 := if Nameable(t0.entries[k1].generation) then Closed(t1.entries[k1]) else t1.entries[k1];
    }
  }

  lemma CreateIs(st: State, p: nat, r0: nat, r1: nat, copied: bool)
    requires p < |st.tables| && |st.tables[p].entries| == CAPACITY
    ensures var t, st' := st.tables[p], CreateChannel(st, p, r0, r1, copied).0;
            var (e0, e1) := Ends(st.heap);
            var k0 := FreeFrom(t.entries, 0);
            if k0.None? then st' == State(st.tables, Dropped(st.heap))
            else if copied && FreeFrom(t.entries, k0.value + 1).Some? then
              st' == State(st.tables[p := Alloc(Alloc(t, Channel(e0, r0)).0, Channel(e1, r1)).0], Create(st.heap))
            else st' == State(st.tables[p := Undone(t, e0, e1, r0, r1)], Dropped(st.heap))
  {
    hide Encode, Handles.Close, Release, Create;
    var t := st.tables[p];
    var (e0, e1) := Ends(st.heap);
    if FreeFrom(t.entries, 0).Some? { SecondFree(t, e0, r0); }
    assert st.tables[p := t] == st.tables;
  }

  lemma UndoneOk(t: Table, e0: Endpoint, e1: Endpoint, r0: nat, r1: nat)
    requires TableOk(t) && FreeFrom(t.entries, 0).Some?
    ensures TableOk(Undone(t, e0, e1, r0, r1))
  {
    hide Encode, Handles.Close, Lookup, Sum;
    var (t0, k0) := Alloc(t, Channel(e0, r0));
    var (t1, k1) := Alloc(t0, Channel(e1, r1));
    AllocOk(t, Channel(e0, r0));
    AllocOk(t0, Channel(e1, r1));
    var h0 := Encode(t1.entries[k0.value].generation, k0.value);
    CloseOk(t1, h0);
    if k1.Some? { CloseOk(Close(t1, h0).0, Encode(t1.entries[k1.value].generation, k1.value)); }
  }

  lemma CreateKeeps(st: State, p: nat, r0: nat, r1: nat, copied: bool)
    requires Inv(st) && p < |st.tables| && CreateFits(st.tables[p], copied)
    ensures Inv(CreateChannel(st, p, r0, r1, copied).0)
  {
    hide HeapOk, TableOk, Create, Dropped, CreateChannel, Undone, UndoFits;
    var t := st.tables[p];
    var (e0, e1) := Ends(st.heap);
    SizeIs(t);
    CreateIs(st, p, r0, r1, copied);
    DroppedOk(st.heap, st.tables);
    var f0 := FreeFrom(t.entries, 0);
    if f0.Some? {
      SecondFree(t, e0, r0);
      if copied && FreeFrom(t.entries, f0.value + 1).Some? {
        var (t0, k0) := Alloc(t, Channel(e0, r0));
        var (t1, k1) := Alloc(t0, Channel(e1, r1));
        AllocOk(t, Channel(e0, r0));
        AllocOk(t0, Channel(e1, r1));
        TablesWith(st.tables, p, t1);
        HandOut(st.heap, st.tables, p, t1, k0.value, k1.value, t0.entries[k0.value], t1.entries[k1.value]);
      } else {
        var k0, k1, x0, x1 := UndoneEntries(t, e0, e1, r0, r1);
        UndoneOk(t, e0, e1, r0, r1);
        TablesWith(st.tables, p, Undone(t, e0, e1, r0, r1));
        HandBack(Dropped(st.heap), st.tables, p, Undone(t, e0, e1, r0, r1), k0, k1, x0, x1);
      }
    }
  }

  lemma SizeIs(t: Table)
    requires TableOk(t)
    ensures |t.entries| == CAPACITY
  {
  }

  /** An entry left naming an end with no references. */
  lemma Dangling(st: State, p: nat, i: nat)
    requires p < |st.tables| && i < |st.tables[p].entries| && st.tables[p].entries[i].item.Channel?
    requires st.heap.At(st.tables[p].entries[i].item.end).refs == 0
    ensures !Inv(st)
  {
    NamedCounts(st.tables, p, i);
    assert !EndOk(st.heap, st.tables, st.tables[p].entries[i].item.end);
  }

  lemma CreateBreaks(st: State, p: nat, r0: nat, r1: nat, copied: bool)
    requires Inv(st) && p < |st.tables| && !CreateFits(st.tables[p], copied)
    ensures !Inv(CreateChannel(st, p, r0, r1, copied).0)
  {
    hide HeapOk, TableOk, Create, Dropped, CreateChannel, Undone, UndoFits, Inv;
    var t, st' := st.tables[p], CreateChannel(st, p, r0, r1, copied).0;
    var (e0, e1) := Ends(st.heap);
    InvSize(st, p);
    CreateIs(st, p, r0, r1, copied);
    DroppedRefs(st.heap);
    var k0, k1, x0, x1 := UndoneEntries(t, e0, e1, r0, r1);
    Dangling(st', p, if x1.item == Channel(e1, r1) || x1.item == Channel(e0, r0) then k1 else k0);
  }

  lemma InvSize(st: State, p: nat)
    requires Inv(st) && p < |st.tables|
    ensures |st.tables[p].entries| == CAPACITY
  {
    assert TableOk(st.tables[p]);
  }

  // ---------------------------------------------------------------- fork

  lemma NewTableOk()
    ensures TableOk(NewTable()) && NoChannels(NewTable())
  {
    var s := NewTable().entries;
    var rest := s[3..];
    assert s == [s[0], s[1], s[2]] + rest;
    SumConcat([s[0], s[1], s[2]], rest, Occupied());
    AllFree(rest);
    SumSnoc([s[0], s[1]], s[2], Occupied());
    SumSnoc([s[0]], s[1], Occupied());
    SumSnoc([], s[0], Occupied());
    assert [s[0], s[1]] + [s[2]] == [s[0], s[1], s[2]] && [s[0]] + [s[1]] == [s[0], s[1]] && [] + [s[0]] == [s[0]];
  }

  lemma {:induction false} AllFree(s: seq<Entry>)
    requires forall x | x in s :: x.item.Empty?
    ensures Sum(s, Occupied()) == 0
  {
    if s != [] { AllFree(s[..|s| - 1]); }
  }

  lemma {:induction false} NoneNamed(s: seq<Entry>, e: Endpoint)
    requires forall x | x in s :: !x.item.Channel?
    ensures Sum(s, Names(e)) == 0
  {
    if s != [] { NoneNamed(s[..|s| - 1], e); }
  }

  /** The child's table half way: inherited entries below `i`, still new from there on. */
  lemma {:induction false} InheritTable(parent: seq<Entry>, i: nat, h: Heap)
    requires i <= |parent| == CAPACITY
    ensures var t := Inherit(parent, i, h).0;
            && TableOk(t) && (forall j | i <= j < CAPACITY :: t.entries[j] == NewTable().entries[j])
            && (forall j | 0 <= j < i && Inherited(parent[j].item) :: t.entries[j] == parent[j])
  {
    hide RetainItem, TableOk, NewTable;
    if i == 0 {
      NewTableOk();
    } else {
      InheritTable(parent, i - 1, h);
      var t := Inherit(parent, i - 1, h).0;
      if Inherited(parent[i - 1].item) { PutOk(t, i - 1, parent[i - 1]); }
    }
  }

  lemma {:induction false} InheritHeap(st: State, p: nat, i: nat)
    requires HeapOk(st.heap, st.tables) && p < |st.tables| && i <= |st.tables[p].entries| == CAPACITY
    ensures var (t, h) := Inherit(st.tables[p].entries, i, st.heap);
            HeapOk(h, st.tables + [t])
  {
    hide HeapOk, RetainItem, TableOk, Total;
    var parent := st.tables[p].entries;
    if i == 0 {
      forall e: Endpoint ensures Total(st.tables + [NewTable()], e) == Total(st.tables, e) {
        LastTotals(st.tables, NewTable(), e);
        NewTableOk();
        NoneNamed(NewTable().entries, e);
      }
      SameHeap(st.heap, st.tables, st.tables + [NewTable()]);
    } else {
      InheritHeap(st, p, i - 1);
      var (t, h) := Inherit(parent, i - 1, st.heap);
      InheritTable(parent, i - 1, st.heap);
      assert t.entries[i - 1] == NewTable().entries[i - 1] && !NewTable().entries[i - 1].item.Channel?;
      InheritStep(st.tables, p, t, h, i - 1);
    }
  }

  lemma InheritStep(tables: seq<Table>, p: nat, t: Table, h: Heap, i: nat)
    requires p < |tables| && i < |tables[p].entries| && i < |t.entries| && HeapOk(h, tables + [t])
    requires !t.entries[i].item.Channel?
    ensures var x := tables[p].entries[i];
            HeapOk(RetainItem(h, x.item), tables + [InheritOne(t, i, x)])
  {
    hide HeapOk, Total;
    var x, all := tables[p].entries[i], tables + [t];
    if x.item.Channel? { NamedCounts(all, p, i); }
    if Inherited(x.item) {
      CopyEntry(h, all, |tables|, Put(t, i, x), i, x);
      assert all[|tables| := Put(t, i, x)] == tables + [Put(t, i, x)];
    }
  }

  lemma {:induction false} InheritRefs(parent: seq<Entry>, i: nat, h: Heap, e: Endpoint)
    requires i <= |parent| == CAPACITY
    ensures Inherit(parent, i, h).1.At(e).refs == h.At(e).refs + Sum(parent[..i], Names(e))
  {
    if i > 0 {
      InheritRefs(parent, i - 1, h, e);
      assert parent[..i][..i - 1] == parent[..i - 1];
      var h1 := Inherit(parent, i - 1, h).1;
      if parent[i - 1].item.Channel? { RefsMove(h1, parent[i - 1].item.end, e); }
    }
  }

  lemma {:induction false} InheritNothing(parent: seq<Entry>, i: nat, h: Heap)
    requires i <= |parent| == CAPACITY && forall x | x in parent :: !x.item.Channel?
    ensures Inherit(parent, i, h).1 == h
  {
    if i > 0 { InheritNothing(parent, i - 1, h); }
  }

  lemma ForkExactly(st: State, p: nat, task: bool)
    requires Inv(st) && p < |st.tables|
    ensures |st.tables[p].entries| == CAPACITY && (Inv(Fork(st, p, task)) <==> task || NoChannels(st.tables[p]))
  {
    hide HeapOk, TableOk, Inherit;
    InvSize(st, p);
    var parent := st.tables[p].entries;
    if task {
      InheritTable(parent, CAPACITY, st.heap);
      InheritHeap(st, p, CAPACITY);
    } else if NoChannels(st.tables[p]) {
      InheritNothing(parent, CAPACITY, st.heap);
    } else {
      ForkLeaks(st, p);
    }
  }

  /** A fork that fails late keeps the child's references for ever. */
  lemma ForkLeaks(st: State, p: nat)
    requires Inv(st) && p < |st.tables| && |st.tables[p].entries| == CAPACITY && !NoChannels(st.tables[p])
    ensures !Inv(Fork(st, p, false))
  {
    hide TableOk, Inherit;
    var parent := st.tables[p].entries;
    var x :| x in parent && x.item.Channel?;
    var i :| 0 <= i < |parent| && parent[i] == x;
    NamedCounts(st.tables, p, i);
    InheritRefs(parent, CAPACITY, st.heap, x.item.end);
    assert parent[..CAPACITY] == parent;
    assert EndOk(st.heap, st.tables, x.item.end);
    var st' := Fork(st, p, false);
    assert !EndOk(st'.heap, st'.tables, x.item.end);
  }

  /** Handle values survive a fork: what a number names in the parent and is inherited, it
      names in the child. */
  lemma ForkKeepsNames(st: State, p: nat, h: Handle)
    requires Inv(st) && p < |st.tables|
    requires Lookup(st.tables[p], h).0 == OK && Inherited(st.tables[p].entries[Lookup(st.tables[p], h).1].item)
    ensures |st.tables[p].entries| == CAPACITY
    ensures var child, i := Fork(st, p, true).tables[|st.tables|], Lookup(st.tables[p], h).1;
            Lookup(child, h) == (OK, i) && child.entries[i] == st.tables[p].entries[i]
  {
    hide Inherit, Index, Generation;
    InvSize(st, p);
    InheritTable(st.tables[p].entries, CAPACITY, st.heap);
  }

  // ---------------------------------------------------------------- exit

  /** Where the loop has been, every entry is free, or kept because its handle no longer
      names it; from `i` on the table is untouched. */
  lemma {:induction false} ExitTable(t: Table, h: Heap, i: nat)
    requires TableOk(t) && i <= CAPACITY
    ensures var t' := ExitLoop(t, h, i).0;
            && TableOk(t')
            && (forall j | i <= j < CAPACITY :: t'.entries[j] == t.entries[j])
            && (forall j | 0 <= j < i :: if t.entries[j].item.Empty? || !Nameable(t.entries[j].generation)
                                         then t'.entries[j] == t.entries[j] else t'.entries[j].item.Empty?)
  {
    hide TableOk, Nameable, Encode, Handles.Close, ReleaseItem;
    SizeIs(t);
    if i > 0 {
      ExitTable(t, h, i - 1);
      var t1 := ExitLoop(t, h, i - 1).0;
      if !t1.entries[i - 1].item.Empty? {
        CloseOwn(t1, i - 1);
        CloseOk(t1, Encode(t1.entries[i - 1].generation, i - 1));
      }
    }
  }

  lemma {:induction false} ExitRefs(t: Table, h: Heap, i: nat, e: Endpoint)
    requires TableOk(t) && i <= CAPACITY
    ensures ExitLoop(t, h, i).1.At(e).refs == h.At(e).refs - Sum(t.entries[..i], Names(e))
  {
    hide TableOk, WipeOne, Release;
    SizeIs(t);
    if i > 0 {
      ExitRefs(t, h, i - 1, e);
      ExitTable(t, h, i - 1);
      assert t.entries[..i][..i - 1] == t.entries[..i - 1];
      var h1 := ExitLoop(t, h, i - 1).1;
      if t.entries[i - 1].item.Channel? { RefsMove(h1, t.entries[i - 1].item.end, e); }
    }
  }

  lemma {:induction false} ExitHeap(st: State, p: nat, i: nat)
    requires Inv(st) && p < |st.tables| && i <= CAPACITY && ExitFits(st.tables[p])
    ensures |st.tables[p].entries| == CAPACITY
    ensures var (t, h) := ExitLoop(st.tables[p], st.heap, i);
            HeapOk(h, st.tables[p := t])
  {
    hide HeapOk, TableOk, Nameable, Encode, Handles.Close, ReleaseItem;
    InvSize(st, p);
    var t := st.tables[p];
    if i == 0 {
      assert st.tables[p := t] == st.tables;
    } else {
      ExitHeap(st, p, i - 1);
      assert TableOk(t);
      ExitTable(t, st.heap, i - 1);
      var (t1, h1) := ExitLoop(t, st.heap, i - 1);
      ExitStep(st.tables[p := t1], p, h1, i - 1);
      assert st.tables[p := t1][p := WipeOne(t1, i - 1)] == st.tables[p := WipeOne(t1, i - 1)];
    }
  }

  lemma ExitStep(tables: seq<Table>, p: nat, h: Heap, i: nat)
    requires p < |tables| && i < |tables[p].entries| == CAPACITY && HeapOk(h, tables)
    requires tables[p].entries[i].item.Channel? ==> Nameable(tables[p].entries[i].generation)
    ensures HeapOk(ReleaseItem(h, tables[p].entries[i].item), tables[p := WipeOne(tables[p], i)])
  {
    hide HeapOk, Nameable, Encode, Handles.Close, Total, Release;
    var t := tables[p];
    if t.entries[i].item.Empty? {
      assert tables[p := t] == tables;
    } else {
      CloseOwn(t, i);
      var t' := WipeOne(t, i);
      var x := if Nameable(t.entries[i].generation) then Closed(t.entries[i]) else t.entries[i];
      assert t'.entries == t.entries[i := x];
      DropEntry(h, tables, p, t', i, x);
    }
  }

  lemma ExitExactly(st: State, p: nat)
    requires Inv(st) && p < |st.tables|
    ensures Inv(Exit(st, p)) <==> ExitFits(st.tables[p])
  {
    hide HeapOk, TableOk, ExitLoop, Nameable;
    InvSize(st, p);
    var t := st.tables[p];
    assert TableOk(t);
    ExitTable(t, st.heap, CAPACITY);
    if ExitFits(t) {
      ExitHeap(st, p, CAPACITY);
      TablesWith(st.tables, p, ExitLoop(t, st.heap, CAPACITY).0);
    } else {
      var x :| x in t.entries && x.item.Channel? && !Nameable(x.generation);
      var j :| 0 <= j < |t.entries| && t.entries[j] == x;
      ExitLeaves(st, p, j);
    }
  }

  /** The reference is dropped, the entry stays. */
  lemma ExitLeaves(st: State, p: nat, j: nat)
    requires Inv(st) && p < |st.tables| && j < |st.tables[p].entries|
    requires st.tables[p].entries[j].item.Channel? && !Nameable(st.tables[p].entries[j].generation)
    ensures !Inv(Exit(st, p))
  {
    hide TableOk, ExitLoop, Nameable, Sum;
    InvSize(st, p);
    var t, st', e := st.tables[p], Exit(st, p), st.tables[p].entries[j].item.end;
    assert TableOk(t);
    ExitTable(t, st.heap, CAPACITY);
    ExitRefs(t, st.heap, CAPACITY, e);
    assert t.entries[..CAPACITY] == t.entries;
    NamedCounts(st'.tables, p, j);
    SumUpdate(st.tables, p, st'.tables[p], Holds(e));
    assert EndOk(st.heap, st.tables, e);
    assert !EndOk(st'.heap, st'.tables, e);
  }

  // ---------------------------------------------------------------- all calls

  /** The counts survive a call exactly when it fits. */
  lemma StepExactly(st: State, s: Step)
    requires Inv(st) && Enabled(st, s)
    ensures Inv(Next(st, s)) <==> Fits(st, s)
  {
    hide Inv, CreateFits, CreateChannel, CloseHandle, Dup3, Dup3Fits, DupAbove, Fork, Exit, ExitFits, NoChannels;
    match s {
      case MakeChannel(p, r0, r1, copied) =>
        if CreateFits(st.tables[p], copied) { CreateKeeps(st, p, r0, r1, copied); } else { CreateBreaks(st, p, r0, r1, copied); }
      case CloseFd(p, h) => CloseKeeps(st, p, h);
      case Dup3Fd(p, oldfd, newfd) =>
        if Dup3Fits(st, p, oldfd, newfd) { Dup3Keeps(st, p, oldfd, newfd); } else { Dup3Breaks(st, p, oldfd, newfd); }
      case DupFd(p, fd, arg) => DupKeeps(st, p, fd, arg);
      case ForkFrom(p, task) => ForkExactly(st, p, task);
      case ExitOf(p) => ExitExactly(st, p);
    }
  }

  /** One process with the console and no channel. */
  function Boot(): State {
    State([NewTable()], Heap(0, map[], [], 0))
  }

  /** The run, if every call in it is made by a process there is and fits. */
  function Run(steps: seq<Step>): Option<State> {
    if steps == [] then Some(Boot())
    else
      var before, s := Run(steps[..|steps| - 1]), steps[|steps| - 1];
      if before.Some? && Enabled(before.value, s) && Fits(before.value, s) then Some(Next(before.value, s)) else None
  }

  lemma BootInv()
    ensures Inv(Boot())
  {
    hide TableOk, NewTable;
    NewTableOk();
    var st := Boot();
    forall e: Endpoint ensures Total(st.tables, e) == 0 {
      NoneNamed(NewTable().entries, e);
      LastTotals([], NewTable(), e);
      assert [] + [NewTable()] == st.tables;
    }
    forall e: Endpoint ensures EndOk(st.heap, st.tables, e) {
    }
  }

  lemma {:induction false} RunInv(steps: seq<Step>)
    ensures Run(steps).Some? ==> Inv(Run(steps).value)
  {
    hide Inv, Next, Fits, Enabled, Boot;
    if steps == [] {
      BootInv();
    } else {
      RunInv(steps[..|steps| - 1]);
      var before, s := Run(steps[..|steps| - 1]), steps[|steps| - 1];
      if before.Some? && Enabled(before.value, s) { StepExactly(before.value, s); }
    }
  }

  /** Along every run: an endpoint's count is the number of entries naming it, it is closed
      exactly when nobody names it, a channel is given back exactly when neither end is
      named, at most once, and nothing ever touched one that was. */
  lemma CountsAreEntries(steps: seq<Step>, e: Endpoint)
    requires Run(steps).Some?
    ensures var st := Run(steps).value;
            && st.heap.At(e).refs == Total(st.tables, e) && (st.heap.At(e).closed <==> Total(st.tables, e) == 0)
            && (e.chan in st.heap.frees <==> e.chan < st.heap.made && Total(st.tables, e) == 0 && Total(st.tables, Peer(e)) == 0)
            && Distinct(st.heap.frees) && st.heap.faults == 0
            && forall t | t in st.tables :: t.count == Sum(t.entries, Occupied())
  {
    hide Run, Total;
    RunInv(steps);
    var st := Run(steps).value;
    assert EndOk(st.heap, st.tables, e);
    FreedIsDead(st.heap, st.tables, e.chan);
    TotalNonNegative(st.tables, e);
    TotalNonNegative(st.tables, Peer(e));
  }
}
