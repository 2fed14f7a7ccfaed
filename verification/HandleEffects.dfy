/** What the handle calls do to the tables, entry by entry, told in the bits of a handle: the
    low eight are the entry's number plus one, the others its generation. */
module HandleEffects {
  import opened Composition
  import opened Sequences
  import opened Sums
  import opened Handles
  import opened HandleRefs
  import opened HandleCalls

  /** The handle's bits name entry `i`, which is live and in that generation. */
  predicate Resolves(t: Table, h: Handle, i: nat) {
    i < |t.entries| && i < 64 && h % 256 == i + 1 && !t.entries[i].item.Empty? && t.entries[i].generation == h / 256
  }

  /** A lookup finds the entry the handle resolves to; a handle with no entry in its bits is
      invalid, any other is stale. */
  lemma LookupExactly(t: Table, h: Handle, i: nat)
    requires |t.entries| == CAPACITY
    ensures Lookup(t, h) == (OK, i) <==> Resolves(t, h, i)
    ensures Lookup(t, h).0 == EINVAL <==> h % 256 == 0 || h % 256 > 64
    ensures Lookup(t, h).0 in {OK, EINVAL, ENOENT}
  {
  }

  /** All entries but `i` of the table of `p` are as they were, and so are all other tables. */
  ghost predicate OnlyEntry(st: State, st': State, p: nat, i: nat) {
    && p < |st.tables| == |st'.tables| && |st'.tables[p].entries| == |st.tables[p].entries|
    && (forall q | 0 <= q < |st.tables| && q != p :: st'.tables[q] == st.tables[q])
    && forall k | 0 <= k < |st.tables[p].entries| && k != i :: st'.tables[p].entries[k] == st.tables[p].entries[k]
  }

  // ---------------------------------------------------------------- dup3

  /** Where a number asks the copy to go: 0 is standard input, entry 2 in its first
      generation; any other number spells its entry and generation. */
  ghost predicate Spells(fd: Handle, i: nat, g: nat) {
    if fd == 0 then i == 2 && g == 0 else fd % 256 == i + 1 && i < 64 && g == fd / 256
  }

  /** `dup3` for every pair of numbers: what it answers, which entry it writes, and that it
      writes no other. */
  lemma Dup3Exactly(st: State, p: nat, oldfd: Handle, newfd: Handle)
    requires p < |st.tables| && |st.tables[p].entries| == CAPACITY
    ensures var t, (st', answer) := st.tables[p], Dup3(st, p, oldfd, newfd);
            && (oldfd == newfd ==> answer == newfd && st' == st)
            && (oldfd != newfd && (forall s: nat :: !Resolves(t, oldfd, s)) ==> answer == Lookup(t, oldfd).0 && answer < 0 && st' == st)
            && (oldfd != newfd && (exists s: nat :: Resolves(t, oldfd, s)) && (forall i: nat, g: nat :: !Spells(newfd, i, g)) ==>
                  answer == EINVAL && st' == st)
            && (forall s: nat, i: nat, g: nat | oldfd != newfd && Resolves(t, oldfd, s) && Spells(newfd, i, g) ::
                  && answer == newfd && OnlyEntry(st, st', p, i) && st'.tables[p].entries[i] == Entry(t.entries[s].item, g)
                  && Resolves(st'.tables[p], if newfd == 0 then 3 else newfd, i))
  {
    hide Retain, Release;
    var t := st.tables[p];
    var r, target := Lookup(t, oldfd), Dup3Target(newfd);
    LookupExactly(t, oldfd, r.1);
    if r.0 == OK { assert Resolves(t, oldfd, r.1); }
    if target.Some? { assert Spells(newfd, target.value.0, target.value.1); }
    forall i: nat, g: nat | Spells(newfd, i, g) ensures target == Some((i, g)) { }
    forall s: nat | Resolves(t, oldfd, s) ensures r == (OK, s) { LookupExactly(t, oldfd, s); }
  }

  // ---------------------------------------------------------------- close

  /** Closing a number: 0 closes entry 2 whatever its generation, as long as that still fits a
      handle; any other number closes the entry it resolves to.  Nothing else changes, and
      nothing at all if there is no such entry. */
  lemma CloseExactly(st: State, p: nat, h: Handle)
    requires p < |st.tables| && |st.tables[p].entries| == CAPACITY
    ensures var t, (st', rc) := st.tables[p], CloseHandle(st, p, h);
            && (forall i: nat | i < CAPACITY && CloseNames(t, h, i) ::
                  && rc == OK && OnlyEntry(st, st', p, i)
                  && st'.tables[p].entries[i] == Entry(Empty, (t.entries[i].generation + 1) % 0x1_0000_0000))
            && ((forall i: nat :: i < CAPACITY ==> !CloseNames(t, h, i)) ==> rc != OK && st' == st)
            && ((forall i: nat :: i < CAPACITY ==> !CloseNames(t, h, i)) ==>
                  rc == if h != 0 && (h % 256 == 0 || h % 256 > 64) then EINVAL else ENOENT)
  {
    hide Release, Retain;
    var t := st.tables[p];
    assert st.tables[p := t] == st.tables;
    if h == 0 {
      if !t.entries[2].item.Empty? { OwnHandle(t, 2); }
    } else {
      LookupExactly(t, h, Lookup(t, h).1);
      forall i: nat | Resolves(t, h, i) ensures Lookup(t, h) == (OK, i) { LookupExactly(t, h, i); }
      if Lookup(t, h).0 == OK { assert CloseNames(t, h, Lookup(t, h).1); }
    }
    if h == 0 && CloseNames(t, h, 2) { assert 2 < CAPACITY; }
  }

  /** The entry a number given to close names. */
  ghost predicate CloseNames(t: Table, h: Handle, i: nat) {
    if h == 0 then i == 2 && 2 < |t.entries| && !t.entries[2].item.Empty? && t.entries[2].generation < 0x100_0000
    else Resolves(t, h, i)
  }

  // ---------------------------------------------------------------- F_DUPFD

  /** Where the search for a free entry starts: at the entry whose first handle is `arg`, or,
      if there is none, at the first. */
  function Least(arg: int): nat {
    if 1 <= arg <= 64 then arg - 1 else 0
  }

  /** The answer is the lowest free handle not below what was asked for, in its first
      generation; EBADF without a source, EMFILE without a free entry from there on. */
  lemma DupAboveExactly(st: State, p: nat, fd: Handle, arg: int)
    requires p < |st.tables| && |st.tables[p].entries| == CAPACITY
    ensures var t, (st', answer) := st.tables[p], DupAbove(st, p, fd, arg);
            && ((forall s: nat :: !Resolves(t, fd, s)) ==> answer == -9 && st' == st)
            && (forall s: nat | Resolves(t, fd, s) ::
                  if forall k | Least(arg) <= k < CAPACITY :: !t.entries[k].item.Empty? then answer == -24 && st' == st
                  else
                    && Least(arg) < answer <= CAPACITY && t.entries[answer - 1].item.Empty?
                    && (forall k | Least(arg) <= k < answer - 1 :: !t.entries[k].item.Empty?)
                    && OnlyEntry(st, st', p, answer - 1) && st'.tables[p].entries[answer - 1] == Entry(t.entries[s].item, 0))
  {
    hide Retain;
    var t := st.tables[p];
    LookupExactly(t, fd, Lookup(t, fd).1);
    if Lookup(t, fd).0 == OK { assert Resolves(t, fd, Lookup(t, fd).1); }
    forall s: nat | Resolves(t, fd, s) ensures Lookup(t, fd) == (OK, s) { LookupExactly(t, fd, s); }
  }

  // ---------------------------------------------------------------- creation

  /** Entry `k` is free and `n` entries before it are. */
  ghost predicate FreeAt(t: Table, k: nat, before: set<nat>) {
    && k < |t.entries| && t.entries[k].item.Empty? && k !in before
    && forall j: nat | j < k && j !in before :: !t.entries[j].item.Empty?
  }

  /** Creation hands the two ends out at the two lowest free entries, with their rights and
      the generations those entries have, or fails: ENOMEM with fewer than two free, EINVAL
      if the handles cannot be written back. */
  lemma CreateExactly(st: State, p: nat, r0: nat, r1: nat, copied: bool)
    requires p < |st.tables| && |st.tables[p].entries| == CAPACITY
    ensures var t, (st', rc) := st.tables[p], CreateChannel(st, p, r0, r1, copied);
            && (rc == OK || rc == ENOMEM || rc == EINVAL)
            && (rc == ENOMEM <==> !exists a: nat, b: nat :: FreeAt(t, a, {}) && FreeAt(t, b, {a}))
            && (rc == EINVAL ==> !copied) && (rc == OK ==> copied)
            && (forall a: nat, b: nat | rc == OK && FreeAt(t, a, {}) && FreeAt(t, b, {a}) ::
                  st'.tables == st.tables[p := st'.tables[p]] && |st'.tables[p].entries| == CAPACITY
                  && st'.tables[p].entries == t.entries[a := Entry(Channel(Endpoint(st.heap.made, false), r0), t.entries[a].generation)]
                                                       [b := Entry(Channel(Endpoint(st.heap.made, true), r1), t.entries[b].generation)])
  {
    hide Encode, Handles.Close, Release, Create;
    var t := st.tables[p];
    var e0 := Endpoint(st.heap.made, false);
    var k0 := FreeFrom(t.entries, 0);
    if k0.Some? {
      SecondFree(t, e0, r0);
      var k1 := FreeFrom(t.entries, k0.value + 1);
      assert FreeAt(t, k0.value, {});
      if k1.Some? { assert FreeAt(t, k1.value, {k0.value}); }
      forall a: nat, b: nat | FreeAt(t, a, {}) && FreeAt(t, b, {a}) ensures k0 == Some(a) && k1 == Some(b) { TwoFree(t, a, b); }
    } else {
      forall a: nat ensures !FreeAt(t, a, {}) { }
    }
  }

  lemma TwoFree(t: Table, a: nat, b: nat)
    requires FreeAt(t, a, {}) && FreeAt(t, b, {a})
    ensures FreeFrom(t.entries, 0) == Some(a) && FreeFrom(t.entries, a + 1) == Some(b)
  {
    var k := FreeFrom(t.entries, 0);
    assert k.Some? && k.value == a;
    assert b > a;
    var l := FreeFrom(t.entries, a + 1);
    assert l.Some?;
  }

  // ---------------------------------------------------------------- fork and exit

  /** The child's table, entry by entry: channels and open files at the parent's place and
      under the parent's handle, the console at the first three otherwise, the rest free. */
  lemma ChildExactly(st: State, p: nat)
    requires Inv(st) && p < |st.tables|
    ensures |st.tables[p].entries| == CAPACITY
    ensures var st', parent := Fork(st, p, true), st.tables[p].entries;
            && st'.tables[..|st.tables|] == st.tables && |st'.tables| == |st.tables| + 1
            && var child := st'.tables[|st.tables|].entries;
               && |child| == CAPACITY
               && forall i | 0 <= i < CAPACITY ::
                    var x := parent[i].item;
                    child[i] == if x.Channel? || (x.File? && x.id > 0) then parent[i]
                                else Entry(if i < 2 then Console(2) else if i == 2 then Console(1) else Empty, 0)
  {
    hide RetainItem, TableOk, HeapOk;
    InvSize(st, p);
    InheritAll(st.tables[p].entries, CAPACITY, st.heap);
  }

  lemma {:induction false} InheritAll(parent: seq<Entry>, n: nat, h: Heap)
    requires n <= |parent| == CAPACITY
    ensures forall i | 0 <= i < CAPACITY ::
              Inherit(parent, n, h).0.entries[i] == if i < n && Inherited(parent[i].item) then parent[i] else NewTable().entries[i]
  {
    hide RetainItem;
    if n > 0 { InheritAll(parent, n - 1, h); }
  }

  /** Exit empties every entry whose generation still fits a handle, and leaves the tables of
      all others alone. */
  lemma ExitEmpties(st: State, p: nat)
    requires Inv(st) && p < |st.tables|
    ensures var st', t := Exit(st, p), st.tables[p];
            && |st'.tables| == |st.tables| && |st'.tables[p].entries| == |t.entries| == CAPACITY
            && (forall q | 0 <= q < |st.tables| && q != p :: st'.tables[q] == st.tables[q])
            && forall i | 0 <= i < CAPACITY :: st'.tables[p].entries[i].item.Empty? <==> t.entries[i].item.Empty? || t.entries[i].generation < 0x100_0000
  {
    hide HeapOk, ReleaseItem, WipeOne, TableOk;
    InvSize(st, p);
    InvTable(st, p);
    ExitTable(st.tables[p], st.heap, CAPACITY);
  }

  lemma InvTable(st: State, p: nat)
    requires Inv(st) && p < |st.tables|
    ensures TableOk(st.tables[p])
  {
  }

  // ---------------------------------------------------------------- the count of an endpoint

  /** Nothing but the endpoint `e` and the two logs differs. */
  ghost predicate OnlyEnd(h: Heap, e: Endpoint, h': Heap) {
    h'.made == h.made && h'.ends.Keys == h.ends.Keys + {e} && forall d | d in h.ends && d != e :: h'.ends[d] == h.ends[d]
  }

  /** Counting up: one more, and a fault exactly if the channel had been given back. */
  lemma RetainCounts(h: Heap, e: Endpoint)
    ensures var h' := Retain(h, e);
            && OnlyEnd(h, e, h') && h'.frees == h.frees
            && h'.ends[e].refs == h.At(e).refs + 1 && h'.ends[e].closed == h.At(e).closed
            && h'.faults - h.faults == if e.chan in h.frees then 1 else 0
  {
  }

  /** Counting down: one less; the last reference closes the end, and gives the channel back
      exactly if the other end has none either.  A fault exactly if it had been given back. */
  lemma ReleaseCounts(h: Heap, e: Endpoint)
    ensures var h' := Release(h, e);
            && OnlyEnd(h, e, h') && h'.ends[e].refs == h.At(e).refs - 1
            && h'.ends[e].closed == (h.At(e).refs == 1 || h.At(e).closed)
            && h'.frees == h.frees + (if h.At(e).refs == 1 && h.At(Endpoint(e.chan, !e.side)).refs == 0 then [e.chan] else [])
            && h'.faults - h.faults == if e.chan in h.frees then 1 else 0
  {
  }
}
