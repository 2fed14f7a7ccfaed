/** What a recomposition that gets past its pause phase leaves behind, slot by slot and
    component by component. */
module RecomposeEffect {
  import opened Composition
  import opened Sequences
  import opened Lifecycle
  import opened Recompose

  /** The component the plan puts into `s`, if it replaces what is there. */
  function Incoming(changes: seq<SlotChange>, s: SlotId): Option<CompId> {
    if changes == [] then None
    else
      var last := changes[|changes| - 1];
      if last.replace && last.slot == Some(s) && last.newComp.Some? then last.newComp
      else Incoming(changes[..|changes| - 1], s)
  }

  lemma {:induction false} IncomingIs(changes: seq<SlotChange>, s: SlotId)
    ensures Incoming(changes, s).Some? <==>
            exists sc :: sc in changes && sc.replace && sc.slot == Some(s) && sc.newComp.Some?
    ensures Incoming(changes, s).Some? ==>
            exists sc :: sc in changes && sc.replace && sc.slot == Some(s) && sc.newComp == Incoming(changes, s)
  {
    if changes != [] {
      assert changes == changes[..|changes| - 1] + [changes[|changes| - 1]];
      IncomingIs(changes[..|changes| - 1], s);
    }
  }

  /** `c` gives up a slot to another component. */
  ghost predicate Leaving(w: World, changes: seq<SlotChange>, c: CompId) {
    exists s :: s in w.active && w.active[s] == Some(c) && Incoming(changes, s).Some? && Incoming(changes, s) != Some(c)
  }

  predicate CanRetire(g: Stage) {
    g == Stage.Active || g == Paused || g == Ready
  }

  // ---------------------------------------------------------------- side conditions

  /** A change whose pieces exist, whose new component is bound nowhere else, and whose
      old component serves no other slot. */
  ghost predicate Clean(w: World, sc: SlotChange) {
    && sc.slot.Some? && sc.slot.value in w.active
    && (sc.replace ==>
          && sc.newComp.Some? && w.Is(sc.newComp.value, Ready)
          && (forall t | t in w.active && w.active[t] == sc.newComp :: t == sc.slot.value)
          && (forall t | t in w.active && w.active[t].Some? && w.active[t] == w.active[sc.slot.value] :: t == sc.slot.value))
  }

  ghost predicate CleanPlan(w: World, changes: seq<SlotChange>) {
    && (forall sc | sc in changes :: Clean(w, sc))
    && (forall i, j | 0 <= i < j < |changes| :: changes[i].slot != changes[j].slot)
    && (forall i, j | 0 <= i < j < |changes| && changes[i].replace && changes[j].replace ::
          changes[i].newComp != changes[j].newComp)
  }

  function Replacing(s: SlotId, c: CompId): SlotChange {
    SlotChange(Some(s), true, Some(c))
  }

  /** Putting `c` into `s` after the changes `front`: nothing done so far involves either. */
  ghost predicate Newest(w: World, front: seq<SlotChange>, s: SlotId, c: CompId) {
    && s in w.active && w.Is(c, Ready)
    && (forall t | t in w.active && w.active[t] == Some(c) :: t == s)
    && (forall t | t in w.active && w.active[t].Some? && w.active[t] == w.active[s] :: t == s)
    && Incoming(front, s).None?
    && (forall t: SlotId | Incoming(front, t).Some? :: Incoming(front, t) != Some(c) && Incoming(front, t) != w.active[s])
  }

  lemma CleanNewest(w: World, front: seq<SlotChange>, s: SlotId, c: CompId)
    requires CleanPlan(w, front + [Replacing(s, c)])
    ensures Newest(w, front, s, c)
  {
    var changes := front + [Replacing(s, c)];
    assert changes[|front|] == Replacing(s, c) && Clean(w, changes[|front|]);
    IncomingIs(front, s);
    forall t: SlotId | Incoming(front, t).Some?
      ensures t != s && Incoming(front, t) != Some(c) && Incoming(front, t) != w.active[s]
    {
      IncomingIs(front, t);
      var other :| other in front && other.replace && other.slot == Some(t) && other.newComp == Incoming(front, t);
      var i :| 0 <= i < |front| && front[i] == other;
      assert changes[i] == other && Clean(w, changes[i]);
    }
  }

  lemma CleanFront(w: World, changes: seq<SlotChange>)
    requires CleanPlan(w, changes) && changes != []
    ensures CleanPlan(w, changes[..|changes| - 1])
  {
    var front := changes[..|changes| - 1];
    assert forall sc | sc in front :: sc in changes;
  }

  // ---------------------------------------------------------------- swapping

  /** Neither slots, edges nor pause states move, and no step is taken. */
  ghost predicate Quietly(w: World, w': World) {
    && w'.roster == w.roster && w'.pause == w.pause && w'.conns == w.conns && w'.frozen == w.frozen
    && w'.held.Keys == w.held.Keys && w'.trace == w.trace && w'.now >= w.now
  }

  /** `w'` is `w` with the changes made: bindings moved, those replaced destroyed. */
  ghost predicate Swapped(w: World, changes: seq<SlotChange>, w': World) {
    && Quietly(w, w')
    && w'.active == (map s | s in w.active :: if Incoming(changes, s).Some? then Incoming(changes, s) else w.active[s])
    && w'.stage == map c | c in w.stage :: StageAfter(w, changes, c)
  }

  ghost predicate RetireOutcome(w: World, prior: Option<CompId>, w1: World) {
    && Quietly(w, w1) && w1.active == w.active
    && w1.stage == if prior.Some? && prior.value in w.stage
                      && (w.stage[prior.value] == Paused || w.stage[prior.value] == Stage.Active)
                   then w.stage[prior.value := Ready] else w.stage
  }

  ghost predicate BindOutcome(w: World, s: SlotId, c: CompId, w1: World) {
    Quietly(w, w1) && w1.active == w.active[s := Some(c)] && w1.stage == w.stage
  }

  ghost predicate DiscardOutcome(w: World, prior: Option<CompId>, w1: World) {
    && Quietly(w, w1) && w1.active == w.active
    && w1.stage == if prior.Some? && w.Is(prior.value, Ready) && w.Bound(prior.value) == []
                   then w.stage[prior.value := Destroyed] else w.stage
  }

  /** `c` took over `s`; whoever was there is destroyed if it was in service. */
  ghost predicate SwapOutcome(w: World, s: SlotId, c: CompId, w': World) {
    && s in w.active && (w.active[s].Some? ==> w.active[s].value in w.stage)
    && Quietly(w, w') && w'.active == w.active[s := Some(c)]
    && w'.stage == if w.active[s].Some? && w.active[s] != Some(c) && CanRetire(w.stage[w.active[s].value])
                   then w.stage[w.active[s].value := Destroyed] else w.stage
  }

  lemma RetireEffect(w: World, env: Env, prior: Option<CompId>)
    requires AllWell(env, w.now)
    ensures RetireOutcome(w, prior, Retire(w, env, prior))
  {
    if prior.Some? {
      ShiftEffect(w, env, prior.value, Ready);
    }
  }

  lemma RetireKeeps(w: World, prior: Option<CompId>, w1: World)
    requires RetireOutcome(w, prior, w1)
    ensures w1.active == w.active && w1.stage.Keys == w.stage.Keys && w1.now >= w.now
  {
  }

  lemma BindEffect(w: World, env: Env, s: SlotId, c: CompId)
    requires s in w.active && c in w.stage
    ensures BindOutcome(w, s, c, Bind(w, env, s, c))
  {
    AskHolds(w.(active := w.active[s := Some(c)]), env);
  }

  lemma DiscardEffect(w: World, env: Env, prior: Option<CompId>)
    ensures DiscardOutcome(w, prior, Discard(w, env, prior))
  {
    AskHolds(w, env);
  }

  lemma SwapOutcomes(w: World, s: SlotId, c: CompId, w1: World, w2: World, w3: World)
    requires w.Valid() && s in w.active && c in w.stage
    requires forall t | t in w.active && w.active[t].Some? && w.active[t] == w.active[s] :: t == s
    requires w.active[s] == Some(c) ==> w.Is(c, Ready)
    requires RetireOutcome(w, w.active[s], w1) && BindOutcome(w1, s, c, w2) && DiscardOutcome(w2, w.active[s], w3)
    ensures SwapOutcome(w, s, c, w3)
  {
    var prior := w.active[s];
    if prior.Some? {
      NonEmptyHas(w2.Bound(prior.value));
      if prior == Some(c) {
        assert s in w.roster by { assert s in Elements(w.roster); }
        assert s in w2.Bound(c);
      }
    }
  }

  lemma SwapOneEffect(w: World, env: Env, s: SlotId, c: CompId)
    requires AllWell(env, w.now) && w.Valid() && s in w.active && c in w.stage
    requires forall t | t in w.active && w.active[t].Some? && w.active[t] == w.active[s] :: t == s
    requires w.active[s] == Some(c) ==> w.Is(c, Ready)
    ensures SwapOutcome(w, s, c, SwapOne(w, env, Replacing(s, c), w.active[s]))
  {
    hide Retire, Bind, Discard, Quietly, SwapOutcome, DiscardOutcome, BindOutcome, World.Bound;
    var prior := w.active[s];
    var w1 := Retire(w, env, prior);
    RetireEffect(w, env, prior);
    var w2 := Bind(w1, env, s, c);
    assert s in w1.active && c in w1.stage && w1.now >= w.now by { RetireKeeps(w, prior, w1); }
    BindEffect(w1, env, s, c);
    DiscardEffect(w2, env, prior);
    SwapOutcomes(w, s, c, w1, w2, Discard(w2, env, prior));
  }

  lemma SwappedValid(w: World, changes: seq<SlotChange>, w1: World)
    requires w.Valid() && CleanPlan(w, changes) && Swapped(w, changes, w1)
    ensures w1.Valid()
  {
    forall s | s in w1.active && w1.active[s].Some? ensures w1.active[s].value in w1.stage {
      IncomingIs(changes, s);
    }
  }

  lemma IncomingNext(front: seq<SlotChange>, s: SlotId, c: CompId, t: SlotId)
    ensures Incoming(front + [Replacing(s, c)], t) == if t == s then Some(c) else Incoming(front, t)
  {
    assert (front + [Replacing(s, c)])[..|front|] == front;
  }

  lemma LeavingNext(w: World, front: seq<SlotChange>, s: SlotId, c: CompId, d: CompId)
    requires Newest(w, front, s, c)
    ensures Leaving(w, front + [Replacing(s, c)], d) <==> Leaving(w, front, d) || (w.active[s] == Some(d) && c != d)
  {
    var changes := front + [Replacing(s, c)];
    IncomingNext(front, s, c, s);
    if Leaving(w, changes, d) {
      var t :| t in w.active && w.active[t] == Some(d) && Incoming(changes, t).Some? && Incoming(changes, t) != Some(d);
      IncomingNext(front, s, c, t);
    }
    if Leaving(w, front, d) {
      var t :| t in w.active && w.active[t] == Some(d) && Incoming(front, t).Some? && Incoming(front, t) != Some(d);
      IncomingNext(front, s, c, t);
    }
  }

  /** The change of `s` meets the state the earlier changes leave. */
  lemma NewestMeets(w: World, front: seq<SlotChange>, s: SlotId, c: CompId, w1: World)
    requires Newest(w, front, s, c) && Swapped(w, front, w1) && w.Valid()
    ensures s in w1.active && w1.active[s] == w.active[s]
    ensures forall t | t in w1.active && w1.active[t].Some? && w1.active[t] == w1.active[s] :: t == s
    ensures w1.Is(c, Ready)
    ensures w.active[s].Some? ==> w.active[s].value in w.stage && w1.stage[w.active[s].value] == w.stage[w.active[s].value]
  {
    assert !Leaving(w, front, c);
    if w.active[s].Some? {
      assert !Leaving(w, front, w.active[s].value);
    }
  }

  lemma SwappedNextActive(w: World, front: seq<SlotChange>, s: SlotId, c: CompId, w1: World, w': World)
    requires Swapped(w, front, w1) && s in w.active && w'.active == w1.active[s := Some(c)]
    ensures var changes := front + [Replacing(s, c)];
            w'.active == map t | t in w.active :: if Incoming(changes, t).Some? then Incoming(changes, t) else w.active[t]
  {
    forall t: SlotId ensures Incoming(front + [Replacing(s, c)], t) == if t == s then Some(c) else Incoming(front, t) {
      IncomingNext(front, s, c, t);
    }
  }

  ghost function StageAfter(w: World, changes: seq<SlotChange>, d: CompId): Stage
    requires d in w.stage
  {
    if Leaving(w, changes, d) && CanRetire(w.stage[d]) then Destroyed else w.stage[d]
  }

  lemma SwappedNextStage(w: World, front: seq<SlotChange>, s: SlotId, c: CompId, w1: World, w': World, d: CompId)
    requires Newest(w, front, s, c) && Swapped(w, front, w1) && w.Valid()
    requires SwapOutcome(w1, s, c, w')
    requires d in w.stage
    ensures d in w'.stage && w'.stage[d] == StageAfter(w, front + [Replacing(s, c)], d)
  {
    NewestMeets(w, front, s, c, w1);
    LeavingNext(w, front, s, c, d);
  }

  lemma SwappedNext(w: World, front: seq<SlotChange>, s: SlotId, c: CompId, w1: World, w': World)
    requires Newest(w, front, s, c) && Swapped(w, front, w1) && w.Valid()
    requires SwapOutcome(w1, s, c, w')
    ensures Swapped(w, front + [Replacing(s, c)], w')
  {
    hide Newest, Incoming, Leaving, StageAfter;
    NewestSlot(w, front, s, c);
    SwappedNextActive(w, front, s, c, w1, w');
    NewestMeets(w, front, s, c, w1);
    forall d | d in w.stage
      ensures d in w'.stage && w'.stage[d] == StageAfter(w, front + [Replacing(s, c)], d)
    {
      SwappedNextStage(w, front, s, c, w1, w', d);
    }
    assert w'.stage.Keys == w.stage.Keys;
  }

  lemma NewestSlot(w: World, front: seq<SlotChange>, s: SlotId, c: CompId)
    requires Newest(w, front, s, c)
    ensures s in w.active
  {
  }

  /** A change that replaces nothing. */
  lemma SwapNothing(w: World, front: seq<SlotChange>, sc: SlotChange, w1: World)
    requires Swapped(w, front, w1) && !sc.replace
    ensures Swapped(w, front + [sc], w1)
  {
    var changes := front + [sc];
    assert changes[..|front|] == front;
    assert forall s :: Incoming(changes, s) == Incoming(front, s);
    assert forall c :: Leaving(w, changes, c) == Leaving(w, front, c);
  }

  lemma SwapLast(w: World, env: Env, front: seq<SlotChange>, sc: SlotChange, w1: World, prior: Option<CompId>)
    requires AllWell(env, w.now) && w.Valid() && CleanPlan(w, front) && CleanPlan(w, front + [sc])
    requires sc.slot.Some? && prior == w.Active(sc.slot.value)
    requires Swapped(w, front, w1)
    ensures Swapped(w, front + [sc], SwapOne(w1, env, sc, prior))
  {
    hide Swapped, SwapOutcome, Newest, SwapOne, CleanPlan, World.Valid;
    LastIsClean(w, front, sc);
    SwapIdle(w1, env, sc, prior);
    if sc.replace {
      var s, c := sc.slot.value, sc.newComp.value;
      CleanNewest(w, front, s, c);
      SwappedValid(w, front, w1);
      SwappedNow(w, front, w1);
      NewestMeets(w, front, s, c, w1);
      SwapOneEffect(w1, env, s, c);
      SwappedNext(w, front, s, c, w1, SwapOne(w1, env, sc, prior));
    } else {
      SwapNothing(w, front, sc, w1);
    }
  }

  lemma LastIsClean(w: World, front: seq<SlotChange>, sc: SlotChange)
    requires CleanPlan(w, front + [sc])
    ensures Clean(w, sc)
  {
    assert (front + [sc])[|front|] == sc;
  }

  lemma SwapIdle(w: World, env: Env, sc: SlotChange, prior: Option<CompId>)
    ensures !sc.replace ==> SwapOne(w, env, sc, prior) == w
  {
  }

  lemma SwappedNow(w: World, changes: seq<SlotChange>, w1: World)
    requires Swapped(w, changes, w1)
    ensures w1.now >= w.now
  {
  }

  lemma {:induction false} SwapAllEffect(w: World, env: Env, changes: seq<SlotChange>, olds: seq<Option<CompId>>)
    requires AllWell(env, w.now) && w.Valid() && CleanPlan(w, changes)
    requires |olds| == |changes|
    requires forall i | 0 <= i < |changes| :: changes[i].slot.Some? && olds[i] == w.Active(changes[i].slot.value)
    ensures Swapped(w, changes, SwapAll(w, env, changes, olds))
  {
    if changes == [] {
      assert forall c :: !Leaving(w, changes, c);
    } else {
      var n := |changes| - 1;
      CleanFront(w, changes);
      SwapAllEffect(w, env, changes[..n], olds[..n]);
      assert changes == changes[..n] + [changes[n]];
      SwapLast(w, env, changes[..n], changes[n], SwapAll(w, env, changes[..n], olds[..n]), olds[n]);
    }
  }

  // ---------------------------------------------------------------- resuming

  /** `w'` is `w` with `c` running again, its slots open and nothing held for them. */
  ghost predicate ReviveOutcome(w: World, c: CompId, w': World) {
    && SameShape(w, w') && w'.now >= w.now
    && w'.stage == w.stage[c := Stage.Active]
    && w'.pause == Marked(w.pause, w.Bound(c), Running)
    && forall t | t in w.Bound(c) || (w.Pause(t) == Running && w.Held(t) == []) :: w'.Held(t) == []
  }

  ghost predicate Alone(w: World, s: SlotId) {
    forall t | t in w.active && w.active[t].Some? && w.active[t] == w.Active(s) :: t == s
  }

  lemma EnableOutcome(w: World, env: Env, s: SlotId)
    requires w.Valid() && AllWell(env, w.now) && s in w.active && w.Holds(s, Ready) && Alone(w, s)
    ensures ReviveOutcome(w, w.Active(s).value, ReviveOne(w, env, s))
  {
    hide ShiftVerb, Reopen, World.Bound;
    var c := w.Active(s).value;
    ShiftEffect(w, env, c, Stage.Active);
    var w1 := EnableVerb(w, env, c).0;
    ReopenEffect(w1, env, s);
    BoundAlone(w, s, c);
    assert Marked(w.pause, w.Bound(c), Running) == Marked(w.pause, [s], Running);
  }

  lemma BoundAlone(w: World, s: SlotId, c: CompId)
    requires w.Valid() && s in w.active && w.active[s] == Some(c) && Alone(w, s)
    ensures forall t :: t in w.Bound(c) <==> t == s
  {
    assert s in w.roster by { assert s in Elements(w.roster); }
    assert forall t | t in w.Bound(c) :: t in w.active && w.active[t] == Some(c) by {
      assert forall t | t in w.roster :: t in Elements(w.roster);
    }
  }

  lemma ResumeOutcomeHolds(w: World, env: Env, s: SlotId)
    requires AllWell(env, w.now) && w.Holds(s, Paused)
    ensures ReviveOutcome(w, w.Active(s).value, ReviveOne(w, env, s))
  {
    ResumeEffect(w, env, w.Active(s).value);
  }

  ghost predicate Asleep(w: World, s: SlotId) {
    w.Holds(s, Ready) || w.Holds(s, Paused)
  }

  ghost function Waking(w: World, order: seq<SlotId>): set<CompId> {
    set s | s in order && Asleep(w, s) :: w.Active(s).value
  }

  /** `w` is `w0` with exactly the components `rs` running again. */
  ghost predicate Revived(w0: World, w: World, rs: set<CompId>) {
    && SameShape(w0, w)
    && w.stage == (map c | c in w0.stage :: if c in rs then Stage.Active else w0.stage[c])
    && w.pause == (map s | s in w0.pause :: if BoundTo(w0, s, rs) then Running else w0.pause[s])
    && forall s | s in w0.active && BoundTo(w0, s, rs) :: w.Held(s) == []
  }

  lemma ReviveNextPause(w0: World, w: World, rs: set<CompId>, c: CompId, w': World)
    requires w0.Valid() && Revived(w0, w, rs) && ReviveOutcome(w, c, w')
    ensures w'.pause == map s | s in w0.pause :: if BoundTo(w0, s, rs + {c}) then Running else w0.pause[s]
  {
    hide World.Bound, World.Valid;
    BoundAs(w0, w, c);
  }

  lemma BoundAs(w0: World, w: World, c: CompId)
    requires w0.Valid() && SameShape(w0, w)
    ensures forall s :: s in w.Bound(c) <==> s in w0.pause && w0.Active(s) == Some(c)
  {
  }

  lemma ReviveNextHeld(w0: World, w: World, rs: set<CompId>, c: CompId, w': World, s: SlotId)
    requires w0.Valid() && Revived(w0, w, rs) && ReviveOutcome(w, c, w')
    requires s in w0.active && BoundTo(w0, s, rs + {c})
    ensures w'.Held(s) == []
  {
    if w0.Active(s) == Some(c) {
      assert s in w.Bound(c);
    } else {
      assert BoundTo(w0, s, rs) && w.Held(s) == [] && w.Pause(s) == Running;
    }
  }

  lemma ReviveNext(w0: World, w: World, rs: set<CompId>, c: CompId, w': World)
    requires w0.Valid() && Revived(w0, w, rs) && c in w0.stage && ReviveOutcome(w, c, w')
    ensures Revived(w0, w', rs + {c})
  {
    ReviveNextPause(w0, w, rs, c, w');
    assert w'.stage == map d | d in w0.stage :: if d in rs + {c} then Stage.Active else w0.stage[d];
    forall s | s in w0.active && BoundTo(w0, s, rs + {c}) ensures w'.Held(s) == [] {
      ReviveNextHeld(w0, w, rs, c, w', s);
    }
  }

  lemma ReviveStep(w0: World, w: World, env: Env, s: SlotId, rs: set<CompId>) returns (rs': set<CompId>)
    requires w0.Valid() && w.Valid() && Revived(w0, w, rs) && AllWell(env, w.now)
    requires s in w0.active && (w0.Holds(s, Ready) ==> Alone(w0, s))
    ensures rs' == rs + if Asleep(w0, s) then {w0.Active(s).value} else {}
    ensures Revived(w0, ReviveOne(w, env, s), rs') && ReviveOne(w, env, s).now >= w.now
  {
    hide ReviveOne, World.Bound, Marked;
    ReviveIdle(w, env, s);
    rs' := rs;
    if w.Holds(s, Ready) {
      EnableOutcome(w, env, s);
      ReviveNext(w0, w, rs, w.Active(s).value, ReviveOne(w, env, s));
      rs' := rs + {w.Active(s).value};
    } else if w.Holds(s, Paused) {
      ResumeOutcomeHolds(w, env, s);
      ReviveNext(w0, w, rs, w.Active(s).value, ReviveOne(w, env, s));
      rs' := rs + {w.Active(s).value};
    } else if Asleep(w0, s) {
      assert rs + {w0.Active(s).value} == rs;
    }
  }

  lemma ReviveIdle(w: World, env: Env, s: SlotId)
    ensures !Asleep(w, s) ==> ReviveOne(w, env, s) == w
  {
  }

  lemma RevivedValid(w0: World, w: World, rs: set<CompId>)
    requires w0.Valid() && Revived(w0, w, rs)
    ensures w.Valid()
  {
  }

  ghost predicate Revivable(w: World, order: seq<SlotId>) {
    forall s | s in order :: s in w.active && (w.Holds(s, Ready) ==> Alone(w, s))
  }

  lemma ReviveLast(w0: World, w: World, env: Env, order: seq<SlotId>, rs: set<CompId>) returns (rs': set<CompId>)
    requires order != [] && w0.Valid() && Revived(w0, w, rs) && AllWell(env, w.now) && Revivable(w0, order)
    ensures var w1 := ReviveOne(w, env, order[|order| - 1]);
            Revived(w0, w1, rs') && w1.now >= w.now
    ensures rs' + Waking(w0, order[..|order| - 1]) == rs + Waking(w0, order)
  {
    hide Revived, ReviveOne, Waking, World.Valid, Asleep;
    var front, s := order[..|order| - 1], order[|order| - 1];
    assert s in order;
    RevivedValid(w0, w, rs);
    rs' := ReviveStep(w0, w, env, s, rs);
    assert order == front + [s];
    WakingGrows(w0, front, s);
  }

  lemma {:induction false} ReviveAllEffect(w0: World, w: World, env: Env, order: seq<SlotId>, rs: set<CompId>)
    requires w0.Valid() && Revived(w0, w, rs) && AllWell(env, w.now) && Revivable(w0, order)
    ensures Revived(w0, ReviveAll(w, env, order), rs + Waking(w0, order))
    decreases |order|
  {
    if order == [] {
      assert rs + Waking(w0, order) == rs;
    } else {
      var rs' := ReviveLast(w0, w, env, order, rs);
      ReviveAllEffect(w0, ReviveOne(w, env, order[|order| - 1]), env, order[..|order| - 1], rs');
    }
  }

  lemma WakingGrows(w: World, front: seq<SlotId>, s: SlotId)
    ensures Waking(w, front + [s]) == Waking(w, front) + if Asleep(w, s) then {w.Active(s).value} else {}
  {
    var order := front + [s];
    assert forall t :: t in order <==> t in front || t == s;
    forall c | c in Waking(w, front) ensures c in Waking(w, order) {
      var t :| t in front && Asleep(w, t) && w.Active(t).value == c;
      assert t in order;
    }
    if Asleep(w, s) {
      assert s in order;
    }
  }

  lemma {:induction false} NotifyOneQuiet(w: World, env: Env, conns: seq<Connection>, s: SlotId)
    ensures var w' := NotifyOne(w, env, conns, s);
            && SameComposition(w, w') && w'.trace == w.trace
            && forall t | w.Pause(t) == Running :: w'.Held(t) == w.Held(t)
  {
    if conns != [] {
      NotifyOneQuiet(w, env, conns[..|conns| - 1], s);
      AskHolds(NotifyOne(w, env, conns[..|conns| - 1], s), env);
    }
  }

  lemma {:induction false} NotifyAllQuiet(w: World, env: Env, changes: seq<SlotChange>)
    ensures var w' := NotifyAll(w, env, changes);
            && SameComposition(w, w') && w'.trace == w.trace
            && forall t | w.Pause(t) == Running :: w'.Held(t) == w.Held(t)
  {
    if changes != [] {
      var n := |changes| - 1;
      NotifyAllQuiet(w, env, changes[..n]);
      var w1 := NotifyAll(w, env, changes[..n]);
      if changes[n].replace && changes[n].slot.Some? {
        NotifyOneQuiet(w1, env, w1.conns, changes[n].slot.value);
      }
    }
  }
}
