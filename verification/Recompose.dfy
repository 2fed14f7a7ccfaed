/** `nx_recompose` of framework/recompose.c as phases over a composition, and what a whole
    call does: a failed pause restores everything, a success installs exactly the plan. */
module Recompose {
  import opened Composition
  import opened Sequences
  import opened Lifecycle

  datatype Plan = Plan(changes: seq<SlotChange>, connections: seq<ConnChange>)

  // ---------------------------------------------------------------- validation

  function Verdict(w: World, sc: SlotChange): Status {
    if sc.slot.None? then EINVAL
    else if sc.slot.value in w.frozen then EPERM
    else if !sc.replace then OK
    else if sc.newComp.None? then EINVAL
    else if !w.Is(sc.newComp.value, Ready) then ESTATE
    else OK
  }

  function Validate(w: World, changes: seq<SlotChange>): Status {
    if changes == [] then OK
    else
      var front := Validate(w, changes[..|changes| - 1]);
      if front != OK then front else Verdict(w, changes[|changes| - 1])
  }

  lemma {:induction false} ValidateAll(w: World, changes: seq<SlotChange>)
    ensures Validate(w, changes) == OK <==> forall sc | sc in changes :: Verdict(w, sc) == OK
  {
    if changes != [] {
      assert changes == changes[..|changes| - 1] + [changes[|changes| - 1]];
      ValidateAll(w, changes[..|changes| - 1]);
    }
  }

  function SlotsOf(changes: seq<SlotChange>): seq<SlotId>
    requires forall sc | sc in changes :: sc.slot.Some?
  {
    seq(|changes|, i requires 0 <= i < |changes| => changes[i].slot.value)
  }

  // ---------------------------------------------------------------- the phases

  datatype PauseRun = PauseRun(world: World, rc: Status, reached: nat)

  /** Pause in order; `reached` counts the slots passed before a failure. */
  function PausePhase(w: World, env: Env, order: seq<SlotId>): PauseRun {
    if order == [] then PauseRun(w, OK, 0)
    else
      var r, s := PausePhase(w, env, order[..|order| - 1]), order[|order| - 1];
      if r.rc != OK then r
      else if !r.world.Holds(s, Stage.Active) then r.(reached := |order|)
      else
        var (w', rc) := PauseVerb(r.world, env, r.world.Active(s).value);
        PauseRun(w', rc, if rc == OK then |order| else |order| - 1)
  }

  function UnwindOne(w: World, env: Env, s: SlotId): World {
    if w.Holds(s, Paused) then ResumeVerb(w, env, w.Active(s).value).0 else w
  }

  function Unwind(w: World, env: Env, order: seq<SlotId>): World
    decreases |order|
  {
    if order == [] then w
    else Unwind(UnwindOne(w, env, order[|order| - 1]), env, order[..|order| - 1])
  }

  predicate Matches(c: Connection, from: Option<SlotId>, to: Option<SlotId>) {
    c.from == from && Some(c.to) == to
  }

  function FindEdge(conns: seq<Connection>, from: Option<SlotId>, to: Option<SlotId>): (i: Option<nat>)
    ensures i.Some? ==> i.value < |conns| && Matches(conns[i.value], from, to)
                        && forall k | 0 <= k < i.value :: !Matches(conns[k], from, to)
    ensures i.None? ==> forall c | c in conns :: !Matches(c, from, to)
  {
    if conns == [] then None
    else if Matches(conns[0], from, to) then Some(0)
    else
      var rest := FindEdge(conns[1..], from, to);
      if rest.Some? then Some(rest.value + 1) else None
  }

  function RemoveOne(conns: seq<Connection>, cc: ConnChange): seq<Connection> {
    if cc.action != Remove then conns
    else
      match FindEdge(conns, cc.from, cc.to)
      case None => conns
      case Some(i) => conns[..i] + conns[i + 1..]
  }

  function RemoveEdges(conns: seq<Connection>, changes: seq<ConnChange>): seq<Connection> {
    if changes == [] then conns
    else RemoveOne(RemoveEdges(conns, changes[..|changes| - 1]), changes[|changes| - 1])
  }

  /** `registered` is the slot list: an edge to or from a stranger is refused. */
  function AddOne(conns: seq<Connection>, registered: seq<SlotId>, cc: ConnChange): seq<Connection> {
    match cc.action
    case Remove => conns
    case Add =>
      if cc.to.Some? && cc.to.value in registered && (cc.from.Some? ==> cc.from.value in registered)
      then [Connection(cc.from, cc.to.value, cc.mode, cc.stateful, cc.policy)] + conns
      else conns
    case Rewire =>
      match FindEdge(conns, cc.from, cc.to)
      case None => conns
      case Some(i) => conns[i := conns[i].(mode := cc.mode)]
  }

  function AddEdges(conns: seq<Connection>, registered: seq<SlotId>, changes: seq<ConnChange>): seq<Connection> {
    if changes == [] then conns
    else AddOne(AddEdges(conns, registered, changes[..|changes| - 1]), registered, changes[|changes| - 1])
  }

  function Retire(w: World, env: Env, prior: Option<CompId>): World {
    if prior.Some? && (w.Is(prior.value, Paused) || w.Is(prior.value, Stage.Active))
    then DisableVerb(w, env, prior.value).0 else w
  }

  /** `nx_slot_swap`, with its notification hook. */
  function Bind(w: World, env: Env, s: SlotId, c: CompId): World {
    if s in w.active && c in w.stage then Ask(w.(active := w.active[s := Some(c)]), env) else w
  }

  function Discard(w: World, env: Env, prior: Option<CompId>): World {
    if prior.Some? && w.Is(prior.value, Ready) && w.Bound(prior.value) == []
    then DestroyVerb(w, env, prior.value).0 else w
  }

  function SwapOne(w: World, env: Env, sc: SlotChange, prior: Option<CompId>): World {
    if sc.replace && sc.slot.Some? && sc.newComp.Some?
    then Discard(Bind(Retire(w, env, prior), env, sc.slot.value, sc.newComp.value), env, prior)
    else w
  }

  function SwapAll(w: World, env: Env, changes: seq<SlotChange>, olds: seq<Option<CompId>>): World
    requires |olds| == |changes|
  {
    if changes == [] then w
    else
      var n := |changes| - 1;
      SwapOne(SwapAll(w, env, changes[..n], olds[..n]), env, changes[n], olds[n])
  }

  function ReviveOne(w: World, env: Env, s: SlotId): World {
    if w.Holds(s, Ready) then Reopen(EnableVerb(w, env, w.Active(s).value).0, env, s)
    else if w.Holds(s, Paused) then ResumeVerb(w, env, w.Active(s).value).0
    else w
  }

  function ReviveAll(w: World, env: Env, order: seq<SlotId>): World
    decreases |order|
  {
    if order == [] then w
    else ReviveAll(ReviveOne(w, env, order[|order| - 1]), env, order[..|order| - 1])
  }

  /** `on_dep_swapped` calls: one per edge into the slot from a bound dependent. */
  function NotifyOne(w: World, env: Env, conns: seq<Connection>, s: SlotId): World {
    if conns == [] then w
    else
      var front, c := NotifyOne(w, env, conns[..|conns| - 1], s), conns[|conns| - 1];
      if c.to == s && c.from.Some? && front.Active(c.from.value).Some? then Ask(front, env) else front
  }

  function NotifyAll(w: World, env: Env, changes: seq<SlotChange>): World {
    if changes == [] then w
    else
      var front, sc := NotifyAll(w, env, changes[..|changes| - 1]), changes[|changes| - 1];
      if sc.replace && sc.slot.Some? then NotifyOne(front, env, front.conns, sc.slot.value) else front
  }

  function OldComps(w: World, changes: seq<SlotChange>): seq<Option<CompId>> {
    seq(|changes|, i requires 0 <= i < |changes| =>
      if changes[i].slot.Some? then w.Active(changes[i].slot.value) else None)
  }

  /** Everything after the pause: remove edges, swap, add edges, resume, notify. */
  function Commit(w: World, env: Env, plan: Plan, olds: seq<Option<CompId>>, order: seq<SlotId>): World
    requires |olds| == |plan.changes|
  {
    var w1 := w.(conns := RemoveEdges(w.conns, plan.connections));
    var w2 := SwapAll(w1, env, plan.changes, olds);
    var w3 := w2.(conns := AddEdges(w2.conns, w2.roster, plan.connections));
    NotifyAll(ReviveAll(w3, env, order), env, plan.changes)
  }

  function Run(w: World, env: Env, plan: Plan, order: seq<SlotId>): (World, Status) {
    var r := PausePhase(w, env, order);
    if r.rc != OK then
      (if r.reached <= |order| then Unwind(r.world, env, order[..r.reached]) else r.world, r.rc)
    else
      (Commit(r.world, env, plan, OldComps(w, plan.changes), order), OK)
  }

  // ---------------------------------------------------------------- pausing

  /** Slots of running components are open: what the verbs keep between calls. */
  ghost predicate Settled(w: World) {
    w.Valid() && forall s | s in w.pause && w.Holds(s, Stage.Active) :: w.pause[s] == Running
  }

  /** The components that pausing the slots of `order` brings to a halt. */
  ghost function Halting(w: World, order: seq<SlotId>): set<CompId> {
    set s | s in order && w.Holds(s, Stage.Active) :: w.Active(s).value
  }

  ghost predicate BoundTo(w: World, s: SlotId, cs: set<CompId>) {
    w.Active(s).Some? && w.Active(s).value in cs
  }

  /** `w` is `w0` with exactly the components `hs` paused, slots and all. */
  ghost predicate Halted(w0: World, w: World, hs: set<CompId>) {
    && SameShape(w0, w)
    && w.stage == (map c | c in w0.stage :: if c in hs then Paused else w0.stage[c])
    && w.pause == (map s | s in w0.pause :: if BoundTo(w0, s, hs) then Done else w0.pause[s])
  }

  /** What a pause of `c` may have done. */
  ghost predicate PauseOutcome(w: World, c: CompId, w': World, rc: Status) {
    && SameShape(w, w')
    && (rc == OK ==> w'.stage == w.stage[c := Paused] && w'.pause == Marked(w.pause, w.Bound(c), Done))
    && (rc != OK ==> w'.stage == w.stage
                     && (w'.pause == w.pause || w'.pause == Marked(w.pause, w.Bound(c), Running)))
  }

  /** The slots bound to `c` are the same before and after others were paused. */
  lemma BoundSame(w0: World, w: World, hs: set<CompId>, c: CompId)
    requires Settled(w0) && Halted(w0, w, hs)
    ensures forall s :: s in w.Bound(c) <==> s in w0.pause && w0.Active(s) == Some(c)
  {
  }

  lemma HaltedPause(w0: World, w: World, hs: set<CompId>, hs': set<CompId>, bs: seq<SlotId>, c: CompId, p: SlotPause)
    requires Settled(w0) && Halted(w0, w, hs) && (forall s :: s in bs <==> s in w0.pause && w0.Active(s) == Some(c))
    requires (p == Done && hs' == hs + {c}) || (p == Running && hs' == hs - {c} && w0.Is(c, Stage.Active))
    ensures Marked(w.pause, bs, p) == map s | s in w0.pause :: if BoundTo(w0, s, hs') then Done else w0.pause[s]
  {
  }

  /** One more slot of the order: paused, or left as it was by a failure. */
  lemma PauseNext(w0: World, w: World, hs: set<CompId>, c: CompId, w': World, rc: Status)
    requires Settled(w0) && Halted(w0, w, hs)
    requires w.Is(c, Stage.Active) && PauseOutcome(w, c, w', rc)
    ensures c !in hs && w0.Is(c, Stage.Active)
    ensures Halted(w0, w', if rc == OK then hs + {c} else hs)
  {
    hide Marked, Settled, BoundTo, World.Bound;
    BoundSame(w0, w, hs, c);
    HaltedIs(w0, w, hs, c);
    if rc == OK {
      HaltedPause(w0, w, hs, hs + {c}, w.Bound(c), c, Done);
      assert w'.stage == map d | d in w0.stage :: if d in hs + {c} then Paused else w0.stage[d];
    } else {
      HaltedPause(w0, w, hs, hs - {c}, w.Bound(c), c, Running);
      assert hs - {c} == hs;
    }
  }

  lemma HaltedIs(w0: World, w: World, hs: set<CompId>, c: CompId)
    requires Halted(w0, w, hs) && w.Is(c, Stage.Active)
    ensures c !in hs && w0.Is(c, Stage.Active)
  {
  }

  lemma {:induction false} PausePhaseHalts(w: World, env: Env, order: seq<SlotId>)
    requires Settled(w)
    ensures var r := PausePhase(w, env, order);
            r.reached <= |order| && (r.rc == OK ==> r.reached == |order|)
            && Halted(w, r.world, Halting(w, order[..r.reached]))
  {
    if order == [] {
      assert Halting(w, order) == {};
    } else {
      var front, s := order[..|order| - 1], order[|order| - 1];
      PausePhaseHalts(w, env, front);
      var r := PausePhase(w, env, front);
      assert front[..r.reached] == order[..r.reached];
      if r.rc == OK {
        assert order[..|order|] == front + [s] && front[..|front|] == front == order[..|front|];
        if r.world.Holds(s, Stage.Active) {
          var c := r.world.Active(s).value;
          PauseEffect(r.world, env, c);
          var (w', rc) := PauseVerb(r.world, env, c);
          PauseNext(w, r.world, Halting(w, front), c, w', rc);
          HaltingGrows(w, front, s);
        } else {
          assert Halting(w, front + [s]) == Halting(w, front);
        }
      }
    }
  }

  lemma HaltingGrows(w: World, front: seq<SlotId>, s: SlotId)
    requires w.Holds(s, Stage.Active)
    ensures Halting(w, front + [s]) == Halting(w, front) + {w.Active(s).value}
  {
    var c := w.Active(s).value;
    assert c in Halting(w, front + [s]) by { assert s in front + [s]; }
    forall d | d in Halting(w, front) ensures d in Halting(w, front + [s]) {
      var t :| t in front && w.Holds(t, Stage.Active) && w.Active(t).value == d;
      assert t in front + [s];
    }
  }

  /** What a resume of `c` that succeeds does. */
  ghost predicate ResumeOutcome(w: World, c: CompId, w': World) {
    && SameShape(w, w') && w'.now >= w.now
    && w'.stage == w.stage[c := Stage.Active]
    && w'.pause == Marked(w.pause, w.Bound(c), Running)
  }

  lemma ResumeBack(w0: World, w: World, hs: set<CompId>, c: CompId, w': World)
    requires Settled(w0) && Halted(w0, w, hs)
    requires c in hs && w0.Is(c, Stage.Active) && ResumeOutcome(w, c, w')
    ensures Halted(w0, w', hs - {c})
  {
    hide Marked, Settled, BoundTo, World.Bound;
    BoundSame(w0, w, hs, c);
    HaltedPause(w0, w, hs, hs - {c}, w.Bound(c), c, Running);
    assert w'.stage == map d | d in w0.stage :: if d in hs - {c} then Paused else w0.stage[d];
  }

  lemma HaltingShrinks(w: World, front: seq<SlotId>, s: SlotId)
    ensures forall c | c in Halting(w, front + [s]) :: c in Halting(w, front) || w.Active(s) == Some(c)
  {
  }

  lemma UnwindStep(w0: World, w: World, env: Env, front: seq<SlotId>, s: SlotId, hs: set<CompId>) returns (hs': set<CompId>)
    requires Settled(w0) && Halted(w0, w, hs)
    requires hs <= Halting(w0, front + [s]) && !w0.Holds(s, Paused)
    requires AllWell(env, w.now)
    ensures hs' <= Halting(w0, front)
    ensures UnwindOne(w, env, s).now >= w.now && Halted(w0, UnwindOne(w, env, s), hs')
  {
    HaltingShrinks(w0, front, s);
    hs' := hs;
    if w.Holds(s, Paused) {
      var c := w.Active(s).value;
      ResumeEffect(w, env, c);
      ResumeBack(w0, w, hs, c, UnwindOne(w, env, s));
      hs' := hs - {c};
    }
  }

  lemma {:induction false} UnwindRestores(w0: World, w: World, env: Env, order: seq<SlotId>, hs: set<CompId>)
    requires Settled(w0) && Halted(w0, w, hs)
    requires hs <= Halting(w0, order)
    requires forall s | s in order :: !w0.Holds(s, Paused)
    requires AllWell(env, w.now)
    ensures Halted(w0, Unwind(w, env, order), {})
    decreases |order|
  {
    if order == [] {
      assert hs == {};
    } else {
      var front, s := order[..|order| - 1], order[|order| - 1];
      assert order == front + [s];
      var hs' := UnwindStep(w0, w, env, front, s, hs);
      UnwindRestores(w0, UnwindOne(w, env, s), env, front, hs');
    }
  }

  /** All that a caller can see of a composition, hold queues aside. */
  ghost predicate SameComposition(w: World, w': World) {
    SameShape(w, w') && w'.stage == w.stage && w'.pause == w.pause
  }

  /** A pause that fails anywhere in the order leaves the composition as it was. */
  lemma RollbackRestores(w: World, env: Env, plan: Plan, order: seq<SlotId>)
    requires Settled(w)
    requires forall s | s in order :: !w.Holds(s, Paused)
    requires PausePhase(w, env, order).rc != OK
    requires AllWell(env, PausePhase(w, env, order).world.now)
    ensures var (w', rc) := Run(w, env, plan, order);
            rc == PausePhase(w, env, order).rc && SameComposition(w, w')
  {
    var r := PausePhase(w, env, order);
    PausePhaseHalts(w, env, order);
    Unwound(w, r.world, env, order[..r.reached]);
  }

  lemma Unwound(w0: World, w: World, env: Env, passed: seq<SlotId>)
    requires Settled(w0) && Halted(w0, w, Halting(w0, passed))
    requires forall s | s in passed :: !w0.Holds(s, Paused)
    requires AllWell(env, w.now)
    ensures SameComposition(w0, Unwind(w, env, passed))
  {
    UnwindRestores(w0, w, env, passed, Halting(w0, passed));
    var w' := Unwind(w, env, passed);
    assert w'.stage == w0.stage && w'.pause == w0.pause;
  }

  lemma UnwindOneWakes(w: World, env: Env, s: SlotId)
    requires AllWell(env, w.now)
    ensures var w' := UnwindOne(w, env, s);
            && w'.active == w.active && w'.now >= w.now
            && w'.stage == if w.Holds(s, Paused) then w.stage[w.Active(s).value := Stage.Active] else w.stage
  {
    if w.Holds(s, Paused) {
      ResumeEffect(w, env, w.Active(s).value);
    }
  }

  lemma {:induction false} UnwindWakes(w: World, env: Env, order: seq<SlotId>, c: CompId)
    requires AllWell(env, w.now)
    ensures w.Is(c, Stage.Active) ==> Unwind(w, env, order).Is(c, Stage.Active)
    ensures w.Is(c, Paused) && (exists s :: s in order && w.Active(s) == Some(c)) ==>
              Unwind(w, env, order).Is(c, Stage.Active)
    decreases |order|
  {
    if order != [] {
      var front, s := order[..|order| - 1], order[|order| - 1];
      assert order == front + [s];
      UnwindOneWakes(w, env, s);
      UnwindWakes(UnwindOne(w, env, s), env, front, c);
    }
  }

  /** Exactly when a failed call restores the composition: nothing passed before the
      failure was already paused.  Rollback resumes whatever it finds paused. */
  lemma RollbackExactly(w: World, env: Env, plan: Plan, order: seq<SlotId>)
    requires Settled(w)
    requires PausePhase(w, env, order).rc != OK
    requires AllWell(env, PausePhase(w, env, order).world.now)
    ensures PausePhase(w, env, order).reached <= |order|
    ensures SameComposition(w, Run(w, env, plan, order).0) <==>
            forall s | s in order[..PausePhase(w, env, order).reached] :: !w.Holds(s, Paused)
  {
    var r := PausePhase(w, env, order);
    PausePhaseHalts(w, env, order);
    var passed := order[..r.reached];
    if forall s | s in passed :: !w.Holds(s, Paused) {
      Unwound(w, r.world, env, passed);
    } else {
      var s :| s in passed && w.Holds(s, Paused);
      UnwindWakes(r.world, env, passed, w.Active(s).value);
    }
  }

  // ---------------------------------------------------------------- a rollback that resumes too much

  /** Two slots, each with a component of its own; that of the first is paused on entry. */
  function HalfPaused(): World {
    World([0, 1], map[0 := Some(0), 1 := Some(1)], map[0 := Done, 1 := Running], map[0 := [], 1 := []],
          map[0 := Paused, 1 := Stage.Active], [], {}, 0, [])
  }

  /** The first hook asked says no; everything else goes well. */
  function VetoFirst(): Env {
    (t: nat) => if t == 0 then Answer(EABORT, false, []) else Answer(OK, false, [])
  }

  /** Pausing the second component is vetoed; rolling back, the call resumes the first, which
      it had not paused. */
  lemma RollbackFails(plan: Plan)
    ensures var w, env, order := HalfPaused(), VetoFirst(), [0, 1];
            && Settled(w) && PausePhase(w, env, order).rc == EABORT && Run(w, env, plan, order).1 == EABORT
            && !SameComposition(w, Run(w, env, plan, order).0)
  {
    var w, env, order := HalfPaused(), VetoFirst(), [0, 1];
    assert Elements([0, 1]) == {0, 1};
    assert order[..1] == [0] && order[..1][..0] == [];
    var r0 := PausePhase(w, env, []);
    var r1 := PausePhase(w, env, [0]);
    assert r1 == PauseRun(w, OK, 1) by { assert [0][..0] == []; }
    assert PauseVerb(w, env, 1).1 == EABORT;
    var r := PausePhase(w, env, order);
    assert r.rc == EABORT && r.reached == 1 && r.world.now == 1;
    RollbackExactly(w, env, plan, order);
    assert order[..1][0] == 0 && w.Holds(0, Paused);
  }
}
