/** Channel endpoints and the handles that name them, over all processes: channel and pipe
    creation, close, dup3, fcntl dup, fork and exit.  An endpoint's count of references
    has to be the number of table entries that name it. */
module HandleRefs {
  import opened Composition
  import opened Sequences
  import opened Sums
  import opened Handles

  /** The mutable part of an endpoint. */
  datatype End = End(refs: int, closed: bool)

  /** All channels ever made.  `frees` lists the allocations given back, in order; `faults`
      counts accesses to an endpoint whose channel was already given back. */
  datatype Heap = Heap(made: nat, ends: map<Endpoint, End>, frees: seq<nat>, faults: nat) {
    function At(e: Endpoint): End {
      if e in ends then ends[e] else End(0, true)
    }
  }

  datatype State = State(tables: seq<Table>, heap: Heap)

  function Peer(e: Endpoint): Endpoint {
    Endpoint(e.chan, !e.side)
  }

  // ---------------------------------------------------------------- endpoints

  function Touch(h: Heap, e: Endpoint): Heap {
    if e.chan in h.frees then h.(faults := h.faults + 1) else h
  }

  function Retain(h: Heap, e: Endpoint): Heap {
    Touch(h, e).(ends := h.ends[e := h.At(e).(refs := h.At(e).refs + 1)])
  }

  function Release(h: Heap, e: Endpoint): Heap {
    var was := h.At(e).refs;
    var h1 := Touch(h, e);
    if was != 1 then h1.(ends := h.ends[e := h.At(e).(refs := was - 1)])
    else
      var h2 := h1.(ends := h.ends[e := End(0, true)]);
      if h2.At(Peer(e)).refs == 0 then h2.(frees := h2.frees + [e.chan]) else h2
  }

  function Create(h: Heap): Heap {
    var a, b := Endpoint(h.made, false), Endpoint(h.made, true);
    h.(made := h.made + 1, ends := h.ends[a := End(1, false)][b := End(1, false)])
  }

  /** Dropping what an entry refers to; only channels keep count here. */
  function ReleaseItem(h: Heap, x: Item): Heap {
    if x.Channel? then Release(h, x.end) else h
  }

  function RetainItem(h: Heap, x: Item): Heap {
    if x.Channel? then Retain(h, x.end) else h
  }

  // ---------------------------------------------------------------- system calls

  function WithTable(st: State, p: nat, t: Table, h: Heap): State
    requires p < |st.tables|
  {
    State(st.tables[p := t], h)
  }

  /** `sys_channel_create` and `sys_pipe`, which differ in the rights they hand out.
      `copied` says whether the two handles could be written to user memory. */
  function CreateChannel(st: State, p: nat, r0: nat, r1: nat, copied: bool): (State, Status)
    requires p < |st.tables|
  {
    var (t, h, rc) := CreateIn(st.tables[p], st.heap, r0, r1, copied);
    (WithTable(st, p, t, h), rc)
  }

  function CreateIn(t: Table, heap: Heap, r0: nat, r1: nat, copied: bool): (Table, Heap, Status) {
    var e0, e1 := Endpoint(heap.made, false), Endpoint(heap.made, true);
    var h := Create(heap);
    var dropped := Release(Release(h, e0), e1);
    var (t0, k0) := Alloc(t, Channel(e0, r0));
    if k0.None? then (t0, dropped, ENOMEM)
    else
      var (t1, k1) := Alloc(t0, Channel(e1, r1));
      var back0 := Close(t1, Encode(t1.entries[k0.value].generation, k0.value)).0;
      if k1.None? then (back0, dropped, ENOMEM)
      else if copied then (t1, h, OK)
      else (Close(back0, Encode(t1.entries[k1.value].generation, k1.value)).0, dropped, EINVAL)
  }

  /** Handle 0 stands for entry 2. */
  function CloseTarget(t: Table, h: Handle): Handle {
    if h == 0 && 2 < |t.entries| then Encode(t.entries[2].generation, 2) else h
  }

  /** `sys_handle_close`. */
  function CloseHandle(st: State, p: nat, h: Handle): (State, Status)
    requires p < |st.tables|
  {
    var t := st.tables[p];
    if h == 0 && 2 < |t.entries| && t.entries[2].item.Empty? then (st, ENOENT)
    else
      var g := CloseTarget(t, h);
      var r := Lookup(t, g);
      var heap := if r.0 == OK then ReleaseItem(st.heap, t.entries[r.1].item) else st.heap;
      (WithTable(st, p, Close(t, g).0, heap), Close(t, g).1)
  }

  /** Which entry `dup3` writes, and with which generation. */
  function Dup3Target(newfd: Handle): Option<(nat, nat)> {
    if newfd == 0 then Some((2, 0))
    else if Index(newfd).None? then None
    else Some((Index(newfd).value, Generation(newfd)))
  }

  /** `sys_dup3`; it answers `newfd` or an error. */
  function Dup3(st: State, p: nat, oldfd: Handle, newfd: Handle): (State, int)
    requires p < |st.tables| && |st.tables[p].entries| == CAPACITY
  {
    var t := st.tables[p];
    var r := Lookup(t, oldfd);
    var target := Dup3Target(newfd);
    if oldfd == newfd then (st, newfd)
    else if r.0 != OK then (st, r.0)
    else if target.None? then (st, EINVAL)
    else
      var (i, g) := target.value;
      var src := t.entries[r.1].item;
      var heap := RetainItem(ReleaseItem(st.heap, t.entries[i].item), src);
      (WithTable(st, p, Put(t, i, Entry(src, g)), heap), newfd)
  }

  const EBADF: int := -9
  const EMFILE: int := -24

  /** The `F_DUPFD` body of `sys_fcntl`; it answers the new handle or an error. */
  function DupAbove(st: State, p: nat, fd: Handle, arg: int): (State, int)
    requires p < |st.tables| && |st.tables[p].entries| == CAPACITY
  {
    var t := st.tables[p];
    var r := Lookup(t, fd);
    var least := if arg <= 0 || arg - 1 >= CAPACITY then 0 else arg - 1;
    var k := FreeFrom(t.entries, least);
    if r.0 != OK then (st, EBADF)
    else if k.None? then (st, EMFILE)
    else
      var src := t.entries[r.1].item;
      (WithTable(st, p, Put(t, k.value, Entry(src, 0)), RetainItem(st.heap, src)), k.value + 1)
  }

  predicate Inherited(x: Item) {
    x.Channel? || (x.File? && x.id > 0)
  }

  /** The table a new process starts with: the console three times, the rest free. */
  function NewTable(): Table {
    Table(seq(CAPACITY, i => Entry(if i < 2 then Console(2) else if i == 2 then Console(1) else Empty, 0)), 3)
  }

  /** One turn of the inheritance loop. */
  function InheritOne(child: Table, i: nat, x: Entry): Table
    requires i < |child.entries|
  {
    if Inherited(x.item) then Put(child, i, x) else child
  }

  function Inherit(parent: seq<Entry>, i: nat, h: Heap): (r: (Table, Heap))
    requires i <= |parent| == CAPACITY
    ensures |r.0.entries| == CAPACITY
  {
    if i == 0 then (NewTable(), h)
    else
      var (t, h1) := Inherit(parent, i - 1, h);
      (InheritOne(t, i - 1, parent[i - 1]), RetainItem(h1, parent[i - 1].item))
  }

  /** Closing entry `i`, if it is live, through the handle built from its own counter. */
  function WipeOne(t: Table, i: nat): (r: Table)
    requires i < |t.entries|
    ensures |r.entries| == |t.entries|
  {
    if t.entries[i].item.Empty? then t else Close(t, Encode(t.entries[i].generation, i)).0
  }

  /** `sys_fork` once the child process exists; `task` says whether its task could be made. */
  function Fork(st: State, p: nat, task: bool): State
    requires p < |st.tables| && |st.tables[p].entries| == CAPACITY
  {
    var (child, h) := Inherit(st.tables[p].entries, CAPACITY, st.heap);
    if task then State(st.tables + [child], h) else State(st.tables, h)
  }

  /** The loop of `nx_process_exit`. */
  function ExitLoop(t: Table, h: Heap, i: nat): (r: (Table, Heap))
    requires i <= |t.entries|
    ensures |r.0.entries| == |t.entries|
  {
    if i == 0 then (t, h)
    else
      var (t1, h1) := ExitLoop(t, h, i - 1);
      (WipeOne(t1, i - 1), ReleaseItem(h1, t1.entries[i - 1].item))
  }

  function Exit(st: State, p: nat): State
    requires p < |st.tables|
  {
    var (t, h) := ExitLoop(st.tables[p], st.heap, |st.tables[p].entries|);
    WithTable(st, p, t, h)
  }

  // ---------------------------------------------------------------- the invariant

  function Names(e: Endpoint): Entry -> int {
    (x: Entry) => if x.item.Channel? && x.item.end == e then 1 else 0
  }

  function Holds(e: Endpoint): Table -> int {
    (t: Table) => Sum(t.entries, Names(e))
  }

  /** Entries of all processes that name `e`. */
  function Total(tables: seq<Table>, e: Endpoint): int {
    Sum(tables, Holds(e))
  }

  predicate Live(tables: seq<Table>, c: nat) {
    Total(tables, Endpoint(c, false)) > 0 || Total(tables, Endpoint(c, true)) > 0
  }

  /** What the counts of one endpoint must be. */
  predicate EndOk(h: Heap, tables: seq<Table>, e: Endpoint) {
    h.At(e).refs == Total(tables, e) && (h.At(e).closed <==> Total(tables, e) == 0)
  }

  ghost predicate HeapOk(h: Heap, tables: seq<Table>) {
    && (forall e: Endpoint {:trigger EndOk(h, tables, e)} :: EndOk(h, tables, e))
    && (forall e | e in h.ends :: e.chan < h.made)
    && Distinct(h.frees) && (forall c: nat {:trigger Live(tables, c)} :: c in h.frees <==> c < h.made && !Live(tables, c))
    && h.faults == 0
  }

  ghost predicate Inv(st: State) {
    (forall t | t in st.tables :: TableOk(t)) && HeapOk(st.heap, st.tables)
  }

  // ---------------------------------------------------------------- counting entries

  lemma NamesNonNegative(t: Table, e: Endpoint)
    ensures Holds(e)(t) >= 0
  {
    SumNonNegative(t.entries, Names(e));
  }

  lemma TotalNonNegative(tables: seq<Table>, e: Endpoint)
    ensures Total(tables, e) >= 0
  {
    forall t | t in tables ensures Holds(e)(t) >= 0 { NamesNonNegative(t, e); }
    SumNonNegative(tables, Holds(e));
  }

  /** An entry that names `e` is counted. */
  lemma NamedCounts(tables: seq<Table>, p: nat, i: nat)
    requires p < |tables| && i < |tables[p].entries| && tables[p].entries[i].item.Channel?
    ensures var e := tables[p].entries[i].item.end;
            Holds(e)(tables[p]) >= 1 && Total(tables, e) >= Holds(e)(tables[p])
  {
    var t, e := tables[p], tables[p].entries[i].item.end;
    SumRemove(t.entries, i, Names(e));
    SumNonNegative(t.entries[..i] + t.entries[i + 1..], Names(e));
    SumRemove(tables, p, Holds(e));
    forall u | u in tables[..p] + tables[p + 1..] ensures Holds(e)(u) >= 0 { NamesNonNegative(u, e); }
    SumNonNegative(tables[..p] + tables[p + 1..], Holds(e));
  }

  function Share(x: Item, e: Endpoint): int {
    if x.Channel? && x.end == e then 1 else 0
  }

  /** Overwriting one entry moves the totals by what it named before and names now. */
  lemma EntryTotals(tables: seq<Table>, p: nat, t': Table, i: nat, x: Entry, e: Endpoint)
    requires p < |tables| && i < |tables[p].entries| && t'.entries == tables[p].entries[i := x]
    ensures Total(tables[p := t'], e) == Total(tables, e) - Share(tables[p].entries[i].item, e) + Share(x.item, e)
  {
    SumUpdate(tables, p, t', Holds(e));
    SumUpdate(tables[p].entries, i, x, Names(e));
  }

  lemma LastTotals(tables: seq<Table>, t: Table, e: Endpoint)
    ensures Total(tables + [t], e) == Total(tables, e) + Holds(e)(t)
  {
    SumSnoc(tables, t, Holds(e));
  }

  // ---------------------------------------------------------------- endpoints and counts

  /** From `a` to `b` the entries naming `e` change by `d` and all others stay. */
  ghost predicate Shift(a: seq<Table>, b: seq<Table>, e: Endpoint, d: int) {
    forall x: Endpoint {:trigger Total(b, x)} :: Total(b, x) == Total(a, x) + if x == e then d else 0
  }

  ghost predicate SameTotals(a: seq<Table>, b: seq<Table>) {
    forall x: Endpoint {:trigger Total(b, x)} :: Total(b, x) == Total(a, x)
  }

  lemma SameHeap(h: Heap, a: seq<Table>, b: seq<Table>)
    requires HeapOk(h, a) && SameTotals(a, b)
    ensures HeapOk(h, b)
  {
    hide Total, Distinct;
    forall e: Endpoint ensures EndOk(h, b, e) { assert EndOk(h, a, e); }
    forall c: nat ensures c in h.frees <==> c < h.made && !Live(b, c) { assert Live(b, c) == Live(a, c); }
  }

  lemma NamedIsMade(h: Heap, a: seq<Table>, e: Endpoint)
    requires HeapOk(h, a) && Total(a, e) >= 1
    ensures e in h.ends && e.chan < h.made && e.chan !in h.frees
  {
    hide Total, Distinct;
    assert EndOk(h, a, e) && Live(a, e.chan);
  }

  lemma RetainOk(h: Heap, a: seq<Table>, b: seq<Table>, e: Endpoint)
    requires HeapOk(h, a) && Total(a, e) >= 1 && Shift(a, b, e, 1)
    ensures HeapOk(Retain(h, e), b)
  {
    hide Total, Distinct;
    NamedIsMade(h, a, e);
    var h' := Retain(h, e);
    forall x: Endpoint ensures EndOk(h', b, x) {
      assert EndOk(h, a, x);
      TotalNonNegative(a, x);
    }
    forall c: nat ensures c in h'.frees <==> c < h'.made && !Live(b, c) {
      assert Live(b, c) == Live(a, c);
    }
  }

  lemma ReleaseOk(h: Heap, a: seq<Table>, b: seq<Table>, e: Endpoint)
    requires HeapOk(h, a) && Total(a, e) >= 1 && Shift(a, b, e, -1)
    ensures HeapOk(Release(h, e), b)
  {
    hide Total, Distinct;
    NamedIsMade(h, a, e);
    var h' := Release(h, e);
    forall x: Endpoint ensures EndOk(h', b, x) {
      assert EndOk(h, a, x);
    }
    TotalNonNegative(b, e);
    TotalNonNegative(b, Peer(e));
    assert EndOk(h', b, Peer(e)) && EndOk(h', b, e);
    forall c: nat ensures c in h'.frees <==> c < h'.made && !Live(b, c) {
      assert c != e.chan ==> Live(b, c) == Live(a, c);
      assert c == e.chan ==> (Live(b, c) <==> Total(b, e) > 0 || Total(b, Peer(e)) > 0);
      assert Live(a, e.chan);
    }
    ReleaseDistinct(h, e);
  }

  lemma ReleaseDistinct(h: Heap, e: Endpoint)
    requires Distinct(h.frees) && e.chan !in h.frees
    ensures Distinct(Release(h, e).frees)
  {
  }

  lemma FreedIsDead(h: Heap, a: seq<Table>, c: nat)
    requires HeapOk(h, a)
    ensures c in h.frees <==> c < h.made && !Live(a, c)
  {
    hide Total;
  }

  lemma CreateOk(h: Heap, a: seq<Table>, b: seq<Table>)
    requires HeapOk(h, a)
    requires forall x: Endpoint {:trigger Total(b, x)} :: Total(b, x) == Total(a, x) + if x.chan == h.made then 1 else 0
    ensures HeapOk(Create(h), b)
  {
    hide Total, Distinct;
    var h' := Create(h);
    forall x: Endpoint ensures EndOk(h', b, x) {
      assert EndOk(h, a, x);
    }
    assert EndOk(h, a, Endpoint(h.made, false)) && EndOk(h, a, Endpoint(h.made, true));
    forall c: nat ensures c in h'.frees <==> c < h'.made && !Live(b, c) {
      FreedIsDead(h, a, c);
      assert c == h.made ==> Live(b, c);
      assert c != h.made ==> Live(b, c) == Live(a, c);
    }
  }

  /** What `Retain` and `Release` do to the counts alone. */
  lemma RefsMove(h: Heap, e: Endpoint, x: Endpoint)
    ensures Release(h, e).At(x).refs == h.At(x).refs - if x == e then 1 else 0
    ensures Retain(h, e).At(x).refs == h.At(x).refs + if x == e then 1 else 0
  {
  }
}
