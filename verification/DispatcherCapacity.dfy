/** When the reply pool suffices: the exact bound on outstanding requests under which the
    dispatcher, taking the lowest free entry each time, never meets an exhausted pool. */
module DispatcherCapacity {
  import opened Composition
  import opened Sequences
  import opened Sums
  import opened Dispatcher

  // ---------------------------------------------------------------- the lowest free entry

  function FreeFrom(used: set<nat>, size: nat, i: nat): (r: nat)
    ensures i <= r && (r < size ==> r !in used) && forall k: nat | i <= k < r :: k in used
    decreases size - i
  {
    if i >= size || i !in used then i else FreeFrom(used, size, i + 1)
  }

  /** There is a free entry exactly if fewer are in use than there are. */
  lemma FreeIff(used: set<nat>, size: nat)
    requires forall i | i in used :: i < size
    ensures FreeFrom(used, size, 0) < size <==> |used| < size
  {
    var r := FreeFrom(used, size, 0);
    assert used <= Below(size);
    SubsetCard(used, Below(size));
    if r >= size {
      assert Below(size) <= used;
      SubsetCard(Below(size), used);
    } else {
      assert used <= Below(size) - {r};
      SubsetCard(used, Below(size) - {r});
    }
  }

  // ---------------------------------------------------------------- the level of the pool

  /** What dealing with `m` does to the number of entries in use. */
  function Net(): Msg -> int {
    (m: Msg) => (if Asks(m) then 1 else 0) - (if m.isReply && m.pool.Some? then 1 else 0)
  }

  /** Each request in the queue finds a free entry, counting those taken and given back by
      the messages in front of it. */
  ghost predicate Capacity(st: State) {
    forall k | 0 <= k < |st.queue| && Asks(st.queue[k]) :: LevelAt(st, k) < st.poolSize
  }

  /** Entries in use when the dispatcher comes to position `k` of the queue. */
  ghost function LevelAt(st: State, k: nat): int
    requires k <= |st.queue|
  {
    |st.used| + Sum(st.queue[..k], Net())
  }

  lemma HeadInUse(st: State)
    requires Inv(st) && AtRest(st) && st.queue != [] && st.queue[0].pool.Some?
    ensures st.queue[0].pool.value in st.used
  {
    hide Inv;
    var i := st.queue[0].pool.value;
    RestIsExact(st);
    SumHead(st.queue, EntryMsg(i));
    SumNonNegative(st.queue[1..], EntryMsg(i));
  }

  /** A pump moves the level by what its message does to it. */
  lemma PumpLevel(st: State, rc: Status, idx: nat)
    requires Inv(st) && AtRest(st) && st.queue != [] && (Asks(st.queue[0]) ==> idx < st.poolSize && idx !in st.used)
    ensures |Pumped(st, rc, idx).used| == |st.used| + Net()(st.queue[0]) && Pumped(st, rc, idx).poolSize == st.poolSize
  {
    hide Inv;
    var m := st.queue[0];
    if m.pool.Some? { HeadInUse(st); }
    var more := if Asks(m) then st.used + {idx} else st.used;
    assert |more| == |st.used| + if Asks(m) then 1 else 0;
    if m.isReply && m.pool.Some? { assert |more - {m.pool.value}| == |more| - 1; }
  }

  /** The queue behind the pump: the rest, and a reply that asks for nothing. */
  lemma PumpQueue(st: State, rc: Status, idx: nat)
    requires st.queue != []
    ensures var q, q' := st.queue, Pumped(st, rc, idx).queue;
            && |q| - 1 <= |q'| <= |q| && q'[..|q| - 1] == q[1..] && (|q'| == |q| ==> !Asks(q'[|q| - 1]))
  {
  }

  lemma PumpCapacity(st: State, rc: Status, idx: nat)
    requires Inv(st) && AtRest(st) && st.queue != [] && (Asks(st.queue[0]) ==> idx < st.poolSize && idx !in st.used)
    ensures Capacity(Pumped(st, rc, idx)) <== Capacity(st)
    ensures Capacity(st) <== Capacity(Pumped(st, rc, idx)) && (Asks(st.queue[0]) ==> |st.used| < st.poolSize)
  {
    hide Inv, Pumped, Sum;
    var st', q := Pumped(st, rc, idx), st.queue;
    PumpLevel(st, rc, idx);
    PumpQueue(st, rc, idx);
    forall k | 0 <= k < |q| - 1 ensures LevelAt(st', k) == LevelAt(st, k + 1) && st'.queue[k] == q[k + 1] { LevelMoves(st, rc, idx, k); }
    if Capacity(st) {
      forall k | 0 <= k < |st'.queue| && Asks(st'.queue[k]) ensures LevelAt(st', k) < st'.poolSize {
        assert k < |q| - 1 && Asks(q[k + 1]);
      }
    }
    if Capacity(st') && (Asks(q[0]) ==> |st.used| < st.poolSize) {
      LevelStart(st);
      forall k | 0 <= k < |q| && Asks(q[k]) ensures LevelAt(st, k) < st.poolSize {
        if k > 0 { assert Asks(st'.queue[k - 1]); }
      }
    }
  }

  lemma LevelStart(st: State)
    ensures LevelAt(st, 0) == |st.used|
  {
  }

  lemma LevelMoves(st: State, rc: Status, idx: nat, k: nat)
    requires Inv(st) && AtRest(st) && st.queue != [] && (Asks(st.queue[0]) ==> idx < st.poolSize && idx !in st.used)
    requires k < |st.queue| - 1
    ensures var st' := Pumped(st, rc, idx);
            k < |st'.queue| && st'.queue[k] == st.queue[k + 1] && LevelAt(st', k) == LevelAt(st, k + 1)
  {
    hide Inv, Pumped, Sum;
    var st', q := Pumped(st, rc, idx), st.queue;
    PumpLevel(st, rc, idx);
    PumpQueue(st, rc, idx);
    assert st'.queue[k] == st'.queue[..|q| - 1][k];
    assert st'.queue[..k] == st'.queue[..|q| - 1][..k] == q[1..][..k] == q[1..k + 1];
    assert q[..k + 1][0] == q[0] && q[..k + 1][1..] == q[1..k + 1];
    SumHead(q[..k + 1], Net());
  }

  // ---------------------------------------------------------------- pumping with the lowest entry

  /** `st` after `n` pumps, each reply in the lowest free entry. */
  function PumpingLow(st: State, rcs: nat -> Status, n: nat): State {
    if n == 0 then st
    else
      var st1 := PumpingLow(st, rcs, n - 1);
      if st1.queue == [] then st1 else Pumped(st1, rcs(n - 1), FreeFrom(st1.used, st1.poolSize, 0))
  }

  function Lowest(st: State, rcs: nat -> Status): nat -> nat {
    (n: nat) => var st1 := PumpingLow(st, rcs, n); FreeFrom(st1.used, st1.poolSize, 0)
  }

  lemma {:induction false} PumpingIsLow(st: State, rcs: nat -> Status, n: nat)
    ensures Pumping(st, rcs, Lowest(st, rcs), n) == PumpingLow(st, rcs, n)
  {
    hide Pumped, Lowest, FreeFrom;
    if n > 0 {
      PumpingIsLow(st, rcs, n - 1);
      LowestIs(st, rcs, n - 1);
    }
  }

  lemma LowestIs(st: State, rcs: nat -> Status, n: nat)
    ensures var st1 := PumpingLow(st, rcs, n); Lowest(st, rcs)(n) == FreeFrom(st1.used, st1.poolSize, 0)
  {
    hide PumpingLow, FreeFrom;
  }

  /** The dispatcher meets a request with the pool full. */
  ghost predicate RunsOut(st: State) {
    st.queue != [] && Asks(st.queue[0]) && |st.used| >= st.poolSize
  }

  lemma UsedBelow(st: State)
    requires Inv(st)
    ensures forall i | i in st.used :: i < st.poolSize
  {
  }

  /** As long as it has not run out, the state is as it should be and the capacity is what it
      was at the start. */
  lemma {:induction false} LowInv(st: State, rcs: nat -> Status, n: nat)
    requires Inv(st) && AtRest(st) && forall k: nat | k < n :: !RunsOut(PumpingLow(st, rcs, k))
    ensures var st' := PumpingLow(st, rcs, n);
            Inv(st') && AtRest(st') && (Capacity(st') <==> Capacity(st))
  {
    hide Inv, AtRest, Pumped, Capacity;
    if n > 0 {
      LowInv(st, rcs, n - 1);
      var st1 := PumpingLow(st, rcs, n - 1);
      assert !RunsOut(st1);
      if st1.queue != [] {
        UsedBelow(st1);
        FreeIff(st1.used, st1.poolSize);
        PumpInv(st1, rcs(n - 1), FreeFrom(st1.used, st1.poolSize, 0));
        PumpCapacity(st1, rcs(n - 1), FreeFrom(st1.used, st1.poolSize, 0));
      }
    }
  }

  lemma CapacityHere(st: State)
    requires Capacity(st)
    ensures !RunsOut(st)
  {
    LevelStart(st);
    if st.queue != [] && Asks(st.queue[0]) { assert LevelAt(st, 0) < st.poolSize; }
  }

  lemma {:induction false} NeverRunsOut(st: State, rcs: nat -> Status, n: nat)
    requires Inv(st) && AtRest(st) && Capacity(st)
    ensures forall k: nat | k < n :: !RunsOut(PumpingLow(st, rcs, k))
  {
    hide Inv, AtRest, Capacity, PumpingLow, RunsOut;
    if n > 0 {
      NeverRunsOut(st, rcs, n - 1);
      LowInv(st, rcs, n - 1);
      CapacityHere(PumpingLow(st, rcs, n - 1));
    }
  }

  /** On the way no request meets a full pool. */
  ghost predicate Suffices(st: State, rcs: nat -> Status) {
    forall n: nat :: !RunsOut(PumpingLow(st, rcs, n))
  }

  lemma CapacitySuffices(st: State, rcs: nat -> Status)
    requires Inv(st) && AtRest(st) && Capacity(st)
    ensures Suffices(st, rcs)
  {
    hide Inv, AtRest, Capacity, RunsOut;
    forall n: nat ensures !RunsOut(PumpingLow(st, rcs, n)) { NeverRunsOut(st, rcs, n + 1); }
  }

  lemma SufficesCapacity(st: State, rcs: nat -> Status)
    requires Inv(st) && AtRest(st) && Suffices(st, rcs)
    ensures Capacity(st)
  {
    hide Inv, AtRest, Capacity, RunsOut, Lowest, Pumped;
    var n := Work(st);
    LowInv(st, rcs, n);
    SuppliedLow(st, rcs);
    PumpingInv(st, rcs, Lowest(st, rcs), n);
    PumpingIsLow(st, rcs, n);
    NoQueue(PumpingLow(st, rcs, n));
  }

  /** Exactly when the pool suffices for everything outstanding, whatever handlers answer:
      each request in the queue finds fewer entries in use than there are. */
  lemma SufficesExactly(st: State, rcs: nat -> Status)
    requires Inv(st) && AtRest(st)
    ensures Suffices(st, rcs) <==> Capacity(st)
  {
    hide Inv, AtRest, Capacity, Suffices;
    if Capacity(st) { CapacitySuffices(st, rcs); }
    if Suffices(st, rcs) { SufficesCapacity(st, rcs); }
  }

  lemma NoQueue(st: State)
    requires Work(st) == 0
    ensures st.queue == [] && Capacity(st)
  {
  }

  lemma SuppliedLow(st: State, rcs: nat -> Status)
    requires Inv(st) && AtRest(st) && Suffices(st, rcs)
    ensures Supplied(st, rcs, Lowest(st, rcs))
  {
    hide Inv, AtRest, PumpingLow, Pumping, Lowest, FreeFrom;
    forall n: nat ensures SuppliedAt(Pumping(st, rcs, Lowest(st, rcs), n), Lowest(st, rcs)(n)) {
      PumpingIsLow(st, rcs, n);
      LowestIs(st, rcs, n);
      LowInv(st, rcs, n);
      var st1 := PumpingLow(st, rcs, n);
      UsedBelow(st1);
      FreeIff(st1.used, st1.poolSize);
      assert !RunsOut(st1);
    }
  }

  /** With the pool large enough for what is outstanding, pumping as often as there is work
      empties the queue, frees the pool and has answered every request exactly. */
  lemma CapacityDrains(st: State, rcs: nat -> Status, x: Slip)
    requires Inv(st) && AtRest(st) && Capacity(st)
    ensures var last := PumpingLow(st, rcs, Work(st));
            && last.queue == [] && last.used == {} && last.pending == 0
            && (forall s :: last.InFlight(s) == 0)
            && Sum(Dealt(last.finished), SlipMsg(x)) == Sum(last.finished, SlipOwed(x))
  {
    hide Inv, AtRest, Capacity, PumpingLow, Pumping, Supplied, Suffices, Dealt;
    SufficesExactly(st, rcs);
    SuppliedLow(st, rcs);
    PumpingIsLow(st, rcs, Work(st));
    DrainsAndAnswers(st, rcs, Lowest(st, rcs), x);
  }

  /** What a caller can count: requests queued and replies outstanding together fit the pool. */
  lemma CountSuffices(st: State)
    requires |st.used| + AskCount(st.queue) <= st.poolSize
    ensures Capacity(st)
  {
    forall k | 0 <= k < |st.queue| && Asks(st.queue[k]) ensures LevelAt(st, k) < st.poolSize {
      NetAtMost(st.queue[..k]);
      assert st.queue == st.queue[..k] + [st.queue[k]] + st.queue[k + 1..];
      AskCountConcat(st.queue[..k] + [st.queue[k]], st.queue[k + 1..]);
      AskCountConcat(st.queue[..k], [st.queue[k]]);
      assert [st.queue[k]][..0] == [];
    }
  }

  lemma {:induction false} NetAtMost(q: seq<Msg>)
    ensures Sum(q, Net()) <= AskCount(q)
  {
    if q != [] { NetAtMost(q[..|q| - 1]); }
  }
}
