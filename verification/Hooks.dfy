/** framework/hook.c as steps: registering, unregistering and dispatching, where the
    callbacks of a running dispatch may do all three again.  A dispatch in progress is a
    frame that remembers the one pointer the C loop keeps across a callback. */
module Hooks {
  import opened Composition
  import opened Sequences

  type HookId = nat
  type Point = nat

  /** What a caller fills in before registering; fixed while registered. */
  datatype Hook = Hook(point: Point, priority: int)

  datatype Action = Continue | Abort

  /** One active `nx_hook_dispatch`.  `next` is the snapshot of `_next`; `running` the
      callback being called.  `ran` and `steady` are ledgers: hooks called so far, and
      hooks live from the start of the dispatch until now. */
  datatype Frame = Frame(point: Point, next: Option<HookId>, running: Option<HookId>, ran: seq<HookId>, steady: set<HookId>)

  datatype State = State(
    hooks: map<HookId, Hook>,
    chains: map<Point, seq<HookId>>,
    dead: set<HookId>,
    frames: seq<Frame>,
    stamp: map<HookId, nat>,
    clock: nat)
  {
    function Chain(p: Point): seq<HookId> {
      if p in chains then chains[p] else []
    }

    function Top(): Frame
      requires frames != []
    {
      frames[|frames| - 1]
    }

    /** In its chain and not marked dead: the next dispatch would call it. */
    predicate Live(h: HookId) {
      h in hooks && h in Chain(hooks[h].point) && h !in dead
    }

    function Priority(h: HookId): int {
      if h in hooks then hooks[h].priority else 0
    }

    function Stamp(h: HookId): nat {
      if h in stamp then stamp[h] else 0
    }

    /** Code outside the framework is running: no dispatch, or one inside a callback. */
    predicate UserRuns() {
      frames == [] || Top().running.Some?
    }
  }

  // ---------------------------------------------------------------- operations

  /** Number of leading hooks with priority at most `prio`: where the insertion walk stops. */
  function Slot(st: State, chain: seq<HookId>, prio: int): (i: nat)
    ensures i <= |chain|
  {
    if chain == [] || st.Priority(chain[0]) > prio then 0 else 1 + Slot(st, chain[1..], prio)
  }

  function Insert(chain: seq<HookId>, i: nat, h: HookId): seq<HookId>
    requires i <= |chain|
  {
    chain[..i] + [h] + chain[i..]
  }

  function Register(st: State, h: HookId): (State, Status) {
    if h !in st.hooks then (st, EINVAL)
    else
      var p := st.hooks[h].point;
      var chain := st.Chain(p);
      if h in chain then (st, EEXIST)
      else
        (st.(chains := st.chains[p := Insert(chain, Slot(st, chain, st.hooks[h].priority), h)], dead := st.dead - {h},
             stamp := st.stamp[h := st.clock], clock := st.clock + 1), OK)
  }

  /** Nobody counts as live throughout once unregistered. */
  function Unsteady(frames: seq<Frame>, h: HookId): seq<Frame> {
    seq(|frames|, i requires 0 <= i < |frames| => frames[i].(steady := frames[i].steady - {h}))
  }

  function Unregister(st: State, h: HookId): State {
    if h !in st.hooks || h !in st.Chain(st.hooks[h].point) then st
    else if st.frames != [] then st.(dead := st.dead + {h}, frames := Unsteady(st.frames, h))
    else
      var p := st.hooks[h].point;
      st.(chains := st.chains[p := Without(st.Chain(p), h)], dead := st.dead - {h})
  }

  function Alive(chain: seq<HookId>, dead: set<HookId>): seq<HookId> {
    if chain == [] then []
    else
      var front, last := Alive(chain[..|chain| - 1], dead), chain[|chain| - 1];
      if last in dead then front else front + [last]
  }

  function Sweep(st: State): State {
    st.(chains := map p | p in st.chains :: Alive(st.chains[p], st.dead), dead := {})
  }

  function Head(chain: seq<HookId>): Option<HookId> {
    if chain == [] then None else Some(chain[0])
  }

  /** `_next` of `h` in its chain. */
  function After(chain: seq<HookId>, h: HookId): Option<HookId> {
    if chain == [] then None
    else if chain[0] == h then Head(chain[1..])
    else After(chain[1..], h)
  }

  function Leave(st: State): State
    requires st.frames != []
  {
    var st1 := st.(frames := st.frames[..|st.frames| - 1]);
    if st1.frames == [] then Sweep(st1) else st1
  }

  function Retop(st: State, f: Frame): State
    requires st.frames != []
  {
    st.(frames := st.frames[|st.frames| - 1 := f])
  }

  // ---------------------------------------------------------------- steps

  datatype Step =
    | Reg(h: HookId) | Unreg(h: HookId) | Begin(p: Point)
    | Call | Skip | Return(action: Action) | End

  predicate Enabled(st: State, step: Step) {
    match step
    case Reg(_) => st.UserRuns()
    case Unreg(_) => st.UserRuns()
    case Begin(_) => st.UserRuns()
    case Call => st.frames != [] && st.Top().running.None? && st.Top().next.Some? && st.Top().next.value !in st.dead
    case Skip => st.frames != [] && st.Top().running.None? && st.Top().next.Some? && st.Top().next.value in st.dead
    case Return(_) => st.frames != [] && st.Top().running.Some?
    case End => st.frames != [] && st.Top().running.None? && st.Top().next.None?
  }

  function Begun(st: State, p: Point): Frame {
    Frame(p, Head(st.Chain(p)), None, [], set h | h in st.Chain(p) && h !in st.dead)
  }

  function Next(st: State, step: Step): State
    requires Enabled(st, step)
  {
    match step
    case Reg(h) => Register(st, h).0
    case Unreg(h) => Unregister(st, h)
    case Begin(p) => st.(frames := st.frames + [Begun(st, p)])
    case Call =>
      var f := st.Top();
      Retop(st, f.(next := After(st.Chain(f.point), f.next.value), running := f.next, ran := f.ran + [f.next.value]))
    case Skip =>
      var f := st.Top();
      Retop(st, f.(next := After(st.Chain(f.point), f.next.value)))
    case Return(a) =>
      if a == Abort then Leave(st) else Retop(st, st.Top().(running := None))
    case End => Leave(st)
  }

  // ---------------------------------------------------------------- invariants

  /** Lower priority first; among equals, the earlier registered first. */
  predicate Before(st: State, a: HookId, b: HookId) {
    st.Priority(a) < st.Priority(b) || (st.Priority(a) == st.Priority(b) && st.Stamp(a) < st.Stamp(b))
  }

  ghost predicate Sorted(st: State, chain: seq<HookId>) {
    forall i, j {:trigger Before(st, chain[i], chain[j])} | 0 <= i < j < |chain| :: Before(st, chain[i], chain[j])
  }

  ghost predicate ChainOk(st: State, p: Point) {
    && Sorted(st, st.Chain(p))
    && forall h | h in st.Chain(p) :: h in st.hooks && st.hooks[h].point == p && h in st.stamp && st.stamp[h] < st.clock
  }

  ghost predicate ChainsOk(st: State) {
    && (forall p: Point :: ChainOk(st, p))
    && (forall h | h in st.dead :: h in st.hooks && h in st.Chain(st.hooks[h].point))
    && (st.frames == [] ==> st.dead == {})
  }

  /** Where the walk stands in its chain; past the end if it has no next. */
  function Position(chain: seq<HookId>, next: Option<HookId>): nat {
    if next.Some? && next.value in chain then FirstIndex(chain, next.value) else |chain|
  }

  /** Nothing a walk holds is off its chain; it has called each hook at most once, all of
      them behind it; and whoever was live throughout has been called or is still ahead. */
  ghost predicate Walking(st: State, f: Frame) {
    var chain := st.Chain(f.point);
    && (f.next.Some? ==> f.next.value in chain)
    && (f.running.Some? ==> f.running.value in chain)
    && Distinct(f.ran)
    && (forall h | h in f.ran :: h in chain[..Position(chain, f.next)])
    && (forall h | h in f.steady :: st.Live(h) && (h in f.ran || h in chain[Position(chain, f.next)..]))
    && (forall h | h in f.steady :: h in chain)
  }

  ghost predicate FramesOk(st: State) {
    && (forall i | 0 <= i < |st.frames| :: Walking(st, st.frames[i]))
    && forall i | 0 <= i < |st.frames| - 1 :: st.frames[i].running.Some?
  }

  ghost predicate Inv(st: State) {
    ChainsOk(st) && FramesOk(st)
  }

  // ---------------------------------------------------------------- chains

  lemma SortedDistinct(st: State, chain: seq<HookId>)
    requires Sorted(st, chain)
    ensures Distinct(chain)
  {
    forall i, j | 0 <= i < j < |chain| ensures chain[i] != chain[j] {
      assert Before(st, chain[i], chain[j]);
    }
  }

  lemma {:induction false} SlotIs(st: State, chain: seq<HookId>, prio: int)
    ensures var i := Slot(st, chain, prio);
            && (forall k | 0 <= k < i :: st.Priority(chain[k]) <= prio)
            && (i < |chain| ==> st.Priority(chain[i]) > prio)
  {
    if chain != [] && st.Priority(chain[0]) <= prio {
      SlotIs(st, chain[1..], prio);
      var i := Slot(st, chain[1..], prio);
      forall k | 0 <= k < i + 1 ensures st.Priority(chain[k]) <= prio {
        if k > 0 { assert chain[1..][k - 1] == chain[k]; }
      }
    }
  }

  /** The walk stops exactly between the hooks that go before and those that go after. */
  lemma InsertSorted(st: State, st': State, chain: seq<HookId>, h: HookId)
    requires Sorted(st, chain) && h !in chain && st'.hooks == st.hooks
    requires st'.stamp == st.stamp[h := st.clock] && forall x | x in chain :: x in st.stamp && st.stamp[x] < st.clock
    ensures Sorted(st', Insert(chain, Slot(st, chain, st.Priority(h)), h))
  {
    hide Slot;
    var i := Slot(st, chain, st.Priority(h));
    SlotIs(st, chain, st.Priority(h));
    var longer := Insert(chain, i, h);
    forall a, b | 0 <= a < b < |longer| ensures Before(st', longer[a], longer[b]) {
      var a0, b0 := if a < i then a else a - 1, if b < i then b else b - 1;
      if a != i && b != i {
        assert Before(st, chain[a0], chain[b0]);
      } else if b == i {
        assert chain[a] in chain;
      } else {
        assert chain[b0] in chain;
        if b0 > i { assert Before(st, chain[i], chain[b0]); }
      }
    }
  }

  lemma RemoveAt(chain: seq<HookId>, h: HookId) returns (k: nat)
    requires h in chain
    ensures k < |chain| && chain[k] == h && Without(chain, h) == chain[..k] + chain[k + 1..]
  {
    k := FirstIndex(chain, h);
    WithoutAt(chain, h, k);
  }

  lemma RemoveSorted(st: State, chain: seq<HookId>, h: HookId)
    requires Sorted(st, chain) && h in chain
    ensures Sorted(st, Without(chain, h)) && forall x :: x in Without(chain, h) <==> x in chain && x != h
  {
    SortedDistinct(st, chain);
    var k := RemoveAt(chain, h);
    hide Without;
    var less := chain[..k] + chain[k + 1..];
    forall i, j | 0 <= i < j < |less| ensures Before(st, less[i], less[j]) {
      var i0, j0 := if i < k then i else i + 1, if j < k then j else j + 1;
      assert Before(st, chain[i0], chain[j0]);
    }
    forall x ensures x in less <==> x in chain && x != h {
      if x in chain && x != h {
        var i :| 0 <= i < |chain| && chain[i] == x;
        assert less[if i < k then i else i - 1] == x;
      }
    }
  }

  lemma {:induction false} AliveIs(st: State, chain: seq<HookId>, dead: set<HookId>)
    requires Sorted(st, chain)
    ensures Sorted(st, Alive(chain, dead)) && forall x :: x in Alive(chain, dead) <==> x in chain && x !in dead
  {
    if chain != [] {
      var front, last := chain[..|chain| - 1], chain[|chain| - 1];
      assert chain == front + [last];
      assert forall i, j | 0 <= i < j < |front| :: Before(st, front[i], front[j]) == Before(st, chain[i], chain[j]);
      AliveIs(st, front, dead);
      var kept := Alive(front, dead);
      forall i | 0 <= i < |kept| ensures Before(st, kept[i], last) {
        assert kept[i] in front;
        var k :| 0 <= k < |front| && front[k] == kept[i];
        assert Before(st, chain[k], chain[|chain| - 1]);
      }
    }
  }

  lemma {:induction false} AfterAt(chain: seq<HookId>, k: nat)
    requires Distinct(chain) && k < |chain|
    ensures After(chain, chain[k]) == Head(chain[k + 1..])
  {
    if k > 0 {
      assert chain[0] != chain[k];
      assert chain[1..][k - 1] == chain[k] && chain[1..][k..] == chain[k + 1..];
      AfterAt(chain[1..], k - 1);
    } else {
      assert chain[1..] == chain[0 + 1..];
    }
  }

  lemma PositionAt(chain: seq<HookId>, k: nat)
    requires Distinct(chain) && k <= |chain|
    ensures Position(chain, Head(chain[k..])) == k
  {
    if k < |chain| {
      assert chain[k] in chain && chain[k] !in chain[..k];
      FirstIndexIsFirst(chain, k);
    }
  }

  // ---------------------------------------------------------------- keeping the chains

  lemma RegisterChains(st: State, h: HookId)
    requires ChainsOk(st)
    ensures ChainsOk(Register(st, h).0)
  {
    hide Slot, Sorted;
    if h in st.hooks && h !in st.Chain(st.hooks[h].point) {
      var p := st.hooks[h].point;
      var st' := Register(st, h).0;
      assert ChainOk(st, p);
      InsertSorted(st, st', st.Chain(p), h);
      forall q: Point ensures ChainOk(st', q) {
        assert ChainOk(st, q);
        if q != p { SortedSame(st, st', st.Chain(q), h); }
      }
    }
  }

  /** Stamping a hook that is not on a chain does not disturb it. */
  lemma SortedSame(st: State, st': State, chain: seq<HookId>, h: HookId)
    requires Sorted(st, chain) && h !in chain && st'.hooks == st.hooks && st'.stamp == st.stamp[h := st.clock]
    ensures Sorted(st', chain)
  {
    forall i, j | 0 <= i < j < |chain| ensures Before(st', chain[i], chain[j]) {
      assert Before(st, chain[i], chain[j]) && chain[i] in chain && chain[j] in chain;
    }
  }

  /** Sortedness looks at priorities and stamps only. */
  lemma SortedKeys(st: State, st': State, chain: seq<HookId>)
    requires Sorted(st, chain) && st'.hooks == st.hooks && st'.stamp == st.stamp
    ensures Sorted(st', chain)
  {
    forall i, j | 0 <= i < j < |chain| ensures Before(st', chain[i], chain[j]) {
      assert Before(st, chain[i], chain[j]);
    }
  }

  lemma UnregisterChains(st: State, h: HookId)
    requires ChainsOk(st)
    ensures ChainsOk(Unregister(st, h))
  {
    hide Sorted, Without;
    if h in st.hooks && h in st.Chain(st.hooks[h].point) {
      var p := st.hooks[h].point;
      var st' := Unregister(st, h);
      assert ChainOk(st, p);
      RemoveSorted(st, st.Chain(p), h);
      forall q: Point ensures ChainOk(st', q) {
        assert ChainOk(st, q);
        SortedKeys(st, st', st'.Chain(q));
      }
    }
  }

  lemma SweepChains(st: State)
    requires ChainsOk(st)
    ensures ChainsOk(Sweep(st)) && forall h :: Sweep(st).Live(h) <==> st.Live(h)
  {
    hide Sorted, Alive;
    var st' := Sweep(st);
    forall q: Point ensures ChainOk(st', q) && forall x :: x in st'.Chain(q) <==> x in st.Chain(q) && x !in st.dead {
      assert ChainOk(st, q);
      AliveIs(st, st.Chain(q), st.dead);
      SortedKeys(st, st', st'.Chain(q));
    }
  }

  /** Changing frames only. */
  lemma FramesChains(st: State, frames: seq<Frame>)
    requires ChainsOk(st) && (frames != [] || st.dead == {})
    ensures ChainsOk(st.(frames := frames))
  {
    hide Sorted;
    forall q: Point ensures ChainOk(st.(frames := frames), q) {
      assert ChainOk(st, q);
      SortedKeys(st, st.(frames := frames), st.Chain(q));
    }
  }

  // ---------------------------------------------------------------- keeping the walks

  lemma InsertDistinct(chain: seq<HookId>, i: nat, h: HookId)
    requires Distinct(chain) && h !in chain && i <= |chain|
    ensures Distinct(Insert(chain, i, h))
  {
    var longer := Insert(chain, i, h);
    forall a, b | 0 <= a < b < |longer| ensures longer[a] != longer[b] {
      var a0, b0 := if a < i then a else a - 1, if b < i then b else b - 1;
      assert a != i ==> longer[a] == chain[a0] && chain[a0] in chain;
      assert b != i ==> longer[b] == chain[b0] && chain[b0] in chain;
    }
  }

  /** Cut a chain in two at `k`; after the insertion the cut lies at `k` or one further. */
  lemma InsertSplit(chain: seq<HookId>, i: nat, h: HookId, k: nat)
    requires i <= |chain| && k <= |chain|
    ensures var longer := Insert(chain, i, h);
            var k' := if i <= k then k + 1 else k;
            (forall x | x in chain[..k] :: x in longer[..k']) && (forall x | x in chain[k..] :: x in longer[k'..])
  {
    var longer := Insert(chain, i, h);
    if i <= k {
      assert longer[..k + 1] == chain[..i] + [h] + chain[i..k] && chain[..k] == chain[..i] + chain[i..k];
      assert longer[k + 1..] == chain[k..];
    } else {
      assert longer[..k] == chain[..k];
      assert longer[k..] == chain[k..i] + [h] + chain[i..] && chain[k..] == chain[k..i] + chain[i..];
    }
  }

  /** Insertion shifts a walk's position with the hook it points at. */
  lemma InsertPosition(chain: seq<HookId>, i: nat, h: HookId, next: Option<HookId>)
    requires Distinct(chain) && h !in chain && i <= |chain| && (next.Some? ==> next.value in chain)
    ensures var longer := Insert(chain, i, h);
            && (forall x | x in chain[..Position(chain, next)] :: x in longer[..Position(longer, next)])
            && (forall x | x in chain[Position(chain, next)..] :: x in longer[Position(longer, next)..])
            && (next.Some? ==> next.value in longer)
  {
    var longer, k := Insert(chain, i, h), Position(chain, next);
    var k' := if i <= k then k + 1 else k;
    InsertSplit(chain, i, h, k);
    if next.Some? {
      InsertDistinct(chain, i, h);
      InsertedAt(chain, i, h, k);
      hide Insert;
      DistinctFirst(longer, k');
    }
  }

  lemma InsertedAt(chain: seq<HookId>, i: nat, h: HookId, k: nat)
    requires i <= |chain| && k < |chain|
    ensures Insert(chain, i, h)[if i <= k then k + 1 else k] == chain[k]
  {
  }

  lemma DistinctFirst(s: seq<HookId>, k: nat)
    requires Distinct(s) && k < |s|
    ensures Position(s, Some(s[k])) == k
  {
    assert s[k] !in s[..k];
    FirstIndexIsFirst(s, k);
  }

  lemma RegisterWalk(st: State, h: HookId, f: Frame)
    requires ChainsOk(st) && Walking(st, f)
    ensures Walking(Register(st, h).0, f)
  {
    hide Slot, Sorted, Insert, Position;
    if h in st.hooks && h !in st.Chain(st.hooks[h].point) {
      var p := st.hooks[h].point;
      var chain := st.Chain(p);
      assert ChainOk(st, p);
      SortedDistinct(st, chain);
      var i := Slot(st, chain, st.hooks[h].priority);
      if p == f.point { InsertPosition(chain, i, h, f.next); }
      InsertMembers(chain, i, h);
    }
  }

  lemma InsertMembers(chain: seq<HookId>, i: nat, h: HookId)
    requires i <= |chain|
    ensures forall x :: x in Insert(chain, i, h) <==> x in chain || x == h
  {
    assert chain == chain[..i] + chain[i..];
  }

  lemma UnregisterWalk(st: State, h: HookId, f: Frame)
    requires Walking(st, f) && st.frames != []
    ensures Walking(Unregister(st, h), f.(steady := f.steady - {h}))
  {
    hide Position;
  }

  /** A step past the hook pointed at. */
  lemma WalkOn(st: State, f: Frame)
    requires ChainsOk(st) && Walking(st, f) && f.next.Some?
    ensures var chain := st.Chain(f.point);
            var k := Position(chain, f.next);
            var next := After(chain, f.next.value);
            && k < |chain| && chain[k] == f.next.value && Position(chain, next) == k + 1
            && (next.Some? ==> next.value in chain) && f.next.value !in chain[..k] && Distinct(chain)
  {
    hide Sorted, After;
    var chain := st.Chain(f.point);
    assert ChainOk(st, f.point);
    SortedDistinct(st, chain);
    var k := Position(chain, f.next);
    AfterAt(chain, k);
    PositionAt(chain, k + 1);
  }

  function Called(st: State, f: Frame): Frame
    requires f.next.Some?
  {
    f.(next := After(st.Chain(f.point), f.next.value), running := f.next, ran := f.ran + [f.next.value])
  }

  lemma CallWalk(st: State, f: Frame)
    requires ChainsOk(st) && Walking(st, f) && f.next.Some?
    ensures Walking(st, Called(st, f))
  {
    hide Position, After, ChainsOk;
    WalkOn(st, f);
    var chain, k := st.Chain(f.point), Position(st.Chain(f.point), f.next);
    assert chain[..k + 1] == chain[..k] + [chain[k]];
    assert chain[k..] == [chain[k]] + chain[k + 1..];
  }

  lemma SkipWalk(st: State, f: Frame)
    requires ChainsOk(st) && Walking(st, f) && f.next.Some? && f.next.value in st.dead
    ensures Walking(st, f.(next := After(st.Chain(f.point), f.next.value)))
  {
    hide Position, After, ChainsOk;
    WalkOn(st, f);
    var chain, k := st.Chain(f.point), Position(st.Chain(f.point), f.next);
    assert chain[..k + 1] == chain[..k] + [chain[k]];
    assert chain[k..] == [chain[k]] + chain[k + 1..];
  }

  lemma BeginWalk(st: State, p: Point)
    requires ChainsOk(st)
    ensures Walking(st, Begun(st, p))
  {
    hide Sorted;
    var chain := st.Chain(p);
    assert ChainOk(st, p);
    SortedDistinct(st, chain);
    assert chain[0..] == chain;
    PositionAt(chain, 0);
    hide Position;
  }

  /** A walk reads chains, hooks and death marks only. */
  lemma SameWalk(st: State, st': State, f: Frame)
    requires Walking(st, f) && st'.chains == st.chains && st'.hooks == st.hooks && st'.dead == st.dead
    ensures Walking(st', f)
  {
    hide Position;
  }

  // ---------------------------------------------------------------- keeping the invariant

  lemma RegisterInv(st: State, h: HookId)
    requires Inv(st)
    ensures Inv(Register(st, h).0)
  {
    hide ChainsOk, Walking, Insert, Slot;
    RegisterChains(st, h);
    var st' := Register(st, h).0;
    forall i | 0 <= i < |st'.frames| ensures Walking(st', st'.frames[i]) {
      RegisterWalk(st, h, st.frames[i]);
    }
  }

  lemma UnregisterInv(st: State, h: HookId)
    requires Inv(st)
    ensures Inv(Unregister(st, h))
  {
    hide ChainsOk, Walking, Without;
    UnregisterChains(st, h);
    var st' := Unregister(st, h);
    if st'.frames != st.frames {
      forall i | 0 <= i < |st'.frames| ensures Walking(st', st'.frames[i]) {
        UnregisterWalk(st, h, st.frames[i]);
      }
    } else if st'.frames != [] {
      forall i | 0 <= i < |st'.frames| ensures Walking(st', st'.frames[i]) {
        if st' != st {
          UnregisterWalk(st, h, st.frames[i]);
          assert Unsteady(st.frames, h)[i] == st.frames[i];
        }
      }
    }
  }

  lemma RetopInv(st: State, f: Frame)
    requires Inv(st) && st.frames != [] && Walking(st, f)
    ensures Inv(Retop(st, f))
  {
    hide ChainsOk, Walking;
    var st' := Retop(st, f);
    FramesChains(st, st'.frames);
    forall i | 0 <= i < |st'.frames| ensures Walking(st', st'.frames[i]) {
      SameWalk(st, st', st'.frames[i]);
    }
  }

  lemma BeginInv(st: State, p: Point)
    requires Inv(st) && st.UserRuns()
    ensures Inv(st.(frames := st.frames + [Begun(st, p)]))
  {
    hide ChainsOk, Walking, Begun;
    var st' := st.(frames := st.frames + [Begun(st, p)]);
    FramesChains(st, st'.frames);
    BeginWalk(st, p);
    forall i | 0 <= i < |st'.frames| ensures Walking(st', st'.frames[i]) {
      SameWalk(st, st', st'.frames[i]);
    }
  }

  lemma LeaveInv(st: State)
    requires Inv(st) && st.frames != []
    ensures Inv(Leave(st))
  {
    hide ChainsOk, Walking, Alive;
    var less := st.frames[..|st.frames| - 1];
    if less == [] {
      SweepChains(st);
      FramesChains(Sweep(st), []);
      assert Leave(st) == Sweep(st).(frames := []);
    } else {
      FramesChains(st, less);
      forall i | 0 <= i < |less| ensures Walking(Leave(st), less[i]) {
        SameWalk(st, Leave(st), st.frames[i]);
      }
    }
  }

  lemma InvKept(st: State, step: Step)
    requires Inv(st) && Enabled(st, step)
    ensures Inv(Next(st, step))
  {
    hide Inv, Register, Unregister, Leave;
    match step {
      case Reg(h) => RegisterInv(st, h);
      case Unreg(h) => UnregisterInv(st, h);
      case Begin(p) => BeginInv(st, p);
      case Call =>
        TopWalks(st);
        CallWalk(st, st.Top());
        RetopInv(st, Called(st, st.Top()));
      case Skip =>
        TopWalks(st);
        SkipWalk(st, st.Top());
        RetopInv(st, st.Top().(next := After(st.Chain(st.Top().point), st.Top().next.value)));
      case Return(a) =>
        if a == Abort {
          LeaveInv(st);
        } else {
          TopWalks(st);
          ReturnWalk(st, st.Top());
          RetopInv(st, st.Top().(running := None));
        }
      case End => LeaveInv(st);
    }
  }

  lemma TopWalks(st: State)
    requires Inv(st) && st.frames != []
    ensures ChainsOk(st) && Walking(st, st.Top())
  {
    hide ChainsOk, Walking;
  }

  lemma ReturnWalk(st: State, f: Frame)
    requires Walking(st, f)
    ensures Walking(st, f.(running := None))
  {
    hide Position;
  }

  // ---------------------------------------------------------------- runs

  function Run(st: State, steps: seq<Step>): Option<State> {
    if steps == [] then Some(st)
    else
      var before, step := Run(st, steps[..|steps| - 1]), steps[|steps| - 1];
      if before.Some? && Enabled(before.value, step) then Some(Next(before.value, step)) else None
  }

  lemma {:induction false} RunInv(st: State, steps: seq<Step>)
    requires Inv(st)
    ensures Run(st, steps).Some? ==> Inv(Run(st, steps).value)
  {
    hide Inv, Next, Enabled;
    if steps != [] {
      RunInv(st, steps[..|steps| - 1]);
      var before, step := Run(st, steps[..|steps| - 1]), steps[|steps| - 1];
      if before.Some? && Enabled(before.value, step) { InvKept(before.value, step); }
    }
  }

  lemma StartInv(hooks: map<HookId, Hook>)
    ensures Inv(State(hooks, map[], {}, [], map[], 0))
  {
  }

  // ---------------------------------------------------------------- what callers may rely on

  /** A hook that is not live stays so until somebody registers it. */
  lemma NotLiveStays(st: State, step: Step, h: HookId)
    requires Inv(st) && Enabled(st, step) && !st.Live(h) && step != Reg(h)
    ensures !Next(st, step).Live(h)
  {
    hide Walking, Slot, Sorted, Alive, Without;
    match step {
      case Reg(g) =>
        if g in st.hooks && g !in st.Chain(st.hooks[g].point) {
          var chain := st.Chain(st.hooks[g].point);
          InsertMembers(chain, Slot(st, chain, st.hooks[g].priority), g);
        }
      case Unreg(g) =>
        if g in st.hooks && g in st.Chain(st.hooks[g].point) {
          assert ChainOk(st, st.hooks[g].point);
          RemoveSorted(st, st.Chain(st.hooks[g].point), g);
        }
      case Return(a) => if a == Abort { LeaveLive(st, h); }
      case End => LeaveLive(st, h);
      case _ =>
    }
  }

  lemma LeaveLive(st: State, h: HookId)
    requires Inv(st) && st.frames != []
    ensures Leave(st).Live(h) <==> st.Live(h)
  {
    hide Walking, Alive, Sorted;
    SweepChains(st);
  }

  lemma CalledIsLive(st: State)
    requires Inv(st) && Enabled(st, Call)
    ensures st.Live(st.Top().next.value)
  {
    hide Position, Sorted;
    TopWalks(st);
    assert ChainOk(st, st.Top().point);
  }

  /** No hook is called after its unregister returned, whatever callbacks and nested
      dispatches follow, until it is registered again. */
  lemma {:induction false} NeverCalledOnceGone(st: State, steps: seq<Step>, h: HookId)
    requires Inv(st) && !st.Live(h) && Reg(h) !in steps && Run(st, steps).Some?
    ensures !Run(st, steps).value.Live(h)
    ensures Enabled(Run(st, steps).value, Call) ==> Run(st, steps).value.Top().next != Some(h)
  {
    hide Inv, Next, Enabled;
    RunInv(st, steps);
    if steps != [] {
      var front, step := steps[..|steps| - 1], steps[|steps| - 1];
      assert steps == front + [step];
      NeverCalledOnceGone(st, front, h);
      RunInv(st, front);
      NotLiveStays(Run(st, front).value, step, h);
    }
    GoneIsNotNext(Run(st, steps).value, h);
  }

  lemma GoneIsNotNext(st: State, h: HookId)
    requires Inv(st) && !st.Live(h)
    ensures Enabled(st, Call) ==> st.Top().next != Some(h)
  {
    hide Inv;
    if Enabled(st, Call) { CalledIsLive(st); }
  }

  /** A dispatch that runs to its end without abort has called everyone live throughout,
      exactly once. */
  lemma EndCallsAll(st: State, h: HookId)
    requires Inv(st) && Enabled(st, End) && h in st.Top().steady
    ensures h in st.Top().ran && Distinct(st.Top().ran)
  {
    TopWalks(st);
    var chain := st.Chain(st.Top().point);
    assert chain[|chain|..] == [];
  }

  /** Live throughout means what it says: unless unregistered, a hook stays counted in the
      frame it was live for at the start. */
  lemma SteadyStays(st: State, step: Step, d: nat, h: HookId)
    requires Enabled(st, step) && step != Unreg(h) && d < |st.frames| && d < |Next(st, step).frames|
    requires h in st.frames[d].steady
    ensures h in Next(st, step).frames[d].steady
  {
    hide Slot, Alive, Without, After;
  }

  /** The frame at depth `d` is still there, and nobody unregistered `h`, all along. */
  ghost predicate Undisturbed(st: State, steps: seq<Step>, d: nat, h: HookId) {
    && Run(st, steps).Some? && |Run(st, steps).value.frames| > d
    && (steps != [] ==> steps[|steps| - 1] != Unreg(h) && Undisturbed(st, steps[..|steps| - 1], d, h))
  }

  lemma {:induction false} SteadyThroughout(st: State, steps: seq<Step>, d: nat, h: HookId)
    requires Undisturbed(st, steps, d, h) && d < |st.frames| && h in st.frames[d].steady
    ensures h in Run(st, steps).value.frames[d].steady
  {
    hide Next, Enabled;
    if steps != [] {
      var front, step := steps[..|steps| - 1], steps[|steps| - 1];
      SteadyThroughout(st, front, d, h);
      SteadyStays(Run(st, front).value, step, d, h);
    }
  }

  /** From the start of a dispatch to its regular end: every hook of the point that was
      live at the start and never unregistered in between was called exactly once. */
  lemma DispatchCallsEachOnce(st: State, p: Point, steps: seq<Step>, h: HookId)
    requires Inv(st) && st.UserRuns() && h in st.Chain(p) && h !in st.dead
    requires var begun := Next(st, Begin(p));
             && Undisturbed(begun, steps, |st.frames|, h)
             && |Run(begun, steps).value.frames| == |st.frames| + 1
             && Enabled(Run(begun, steps).value, End)
    ensures var last := Run(Next(st, Begin(p)), steps).value;
            h in last.Top().ran && Distinct(last.Top().ran)
  {
    hide Inv, Next, Undisturbed, Run, State.Chain;
    var begun := Next(st, Begin(p));
    BegunSteady(st, p, h);
    InvKept(st, Begin(p));
    SteadyThroughout(begun, steps, |st.frames|, h);
    UndisturbedRuns(begun, steps, |st.frames|, h);
    RunInv(begun, steps);
    EndCallsAll(Run(begun, steps).value, h);
  }

  lemma BegunSteady(st: State, p: Point, h: HookId)
    requires st.UserRuns() && h in st.Chain(p) && h !in st.dead
    ensures var begun := Next(st, Begin(p));
            |begun.frames| == |st.frames| + 1 && h in begun.frames[|st.frames|].steady
  {
  }

  lemma UndisturbedRuns(st: State, steps: seq<Step>, d: nat, h: HookId)
    requires Undisturbed(st, steps, d, h)
    ensures Run(st, steps).Some?
  {
  }

  /** No dead hook outlives the outermost dispatch. */
  lemma NoDeadAtRest(st: State, steps: seq<Step>)
    requires Inv(st) && Run(st, steps).Some? && Run(st, steps).value.frames == []
    ensures Run(st, steps).value.dead == {}
  {
    hide Run, FramesOk;
    RunInv(st, steps);
  }
}
