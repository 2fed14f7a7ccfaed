/** The success theorem of `nx_recompose`: the whole composition after a call whose pause
    phase went through, stated against the composition before it. */
module RecomposeSuccess {
  import opened Composition
  import opened Sequences
  import opened Lifecycle
  import opened Recompose
  import opened RecomposeEffect

  ghost predicate Arriving(changes: seq<SlotChange>, c: CompId) {
    exists s :: Incoming(changes, s) == Some(c)
  }

  /** What the protocol asks of the composition it is run on: settled, nothing in the
      order already paused, nothing in it idle that the plan does not replace. */
  ghost predicate Prepared(w: World, changes: seq<SlotChange>, order: seq<SlotId>) {
    && Settled(w) && CleanPlan(w, changes)
    && (forall s | s in order :: s in w.active && !w.Holds(s, Paused) && (Incoming(changes, s).None? ==> !w.Holds(s, Ready)))
    && (forall s | Incoming(changes, s).Some? :: s in order)
  }

  /** Between the swap and the resume: `hs` halted, the changes made. */
  ghost predicate Midway(w: World, hs: set<CompId>, changes: seq<SlotChange>, m: World) {
    && m.roster == w.roster && m.frozen == w.frozen && m.held.Keys == w.held.Keys
    && m.active == (map s | s in w.active :: if Incoming(changes, s).Some? then Incoming(changes, s) else w.active[s])
    && m.pause == (map s | s in w.pause :: if BoundTo(w, s, hs) then Done else w.pause[s])
    && m.stage == (map c | c in w.stage ::
                     if Leaving(w, changes, c) && CanRetire(w.stage[c]) then Destroyed
                     else if c in hs then Paused else w.stage[c])
  }

  function PauseAfter(w: World, changes: seq<SlotChange>, s: SlotId): SlotPause
    requires s in w.pause
  {
    if Incoming(changes, s).Some? then Running else w.pause[s]
  }

  /** The composition a successful call leaves. */
  ghost predicate Recomposed(w: World, changes: seq<SlotChange>, w': World) {
    && w'.roster == w.roster && w'.frozen == w.frozen && w'.held.Keys == w.held.Keys
    && w'.active == (map s | s in w.active :: if Incoming(changes, s).Some? then Incoming(changes, s) else w.active[s])
    && w'.pause == (map s | s in w.pause :: PauseAfter(w, changes, s))
    && w'.stage == (map c | c in w.stage ::
                      if Arriving(changes, c) then Stage.Active else StageAfter(w, changes, c))
    && forall s | s in w.active && Incoming(changes, s).Some? :: w'.Held(s) == []
  }

  // ---------------------------------------------------------------- facts about clean plans

  /** A newcomer is Ready, bound at most where it is going, and goes to one slot. */
  lemma NewcomerFacts(w: World, changes: seq<SlotChange>, s: SlotId)
    requires CleanPlan(w, changes) && Incoming(changes, s).Some?
    ensures var c := Incoming(changes, s).value;
            && s in w.active && w.Is(c, Ready)
            && (forall t | t in w.active && w.active[t] == Some(c) :: t == s)
            && (forall t | t in w.active && w.active[t].Some? && w.active[t] == w.active[s] :: t == s)
            && (forall t: SlotId | Incoming(changes, t) == Some(c) :: t == s)
  {
    var c := Incoming(changes, s).value;
    IncomingIs(changes, s);
    var sc :| sc in changes && sc.replace && sc.slot == Some(s) && sc.newComp == Some(c);
    var i :| 0 <= i < |changes| && changes[i] == sc;
    assert Clean(w, sc);
    forall t: SlotId | Incoming(changes, t) == Some(c) ensures t == s {
      IncomingIs(changes, t);
      var other :| other in changes && other.replace && other.slot == Some(t) && other.newComp == Some(c);
      var j :| 0 <= j < |changes| && changes[j] == other;
    }
  }

  lemma NewcomerStays(w: World, changes: seq<SlotChange>, s: SlotId)
    requires CleanPlan(w, changes) && Incoming(changes, s).Some?
    ensures !Leaving(w, changes, Incoming(changes, s).value)
  {
    NewcomerFacts(w, changes, s);
  }

  lemma LeaverGone(w: World, changes: seq<SlotChange>, c: CompId, s: SlotId)
    requires CleanPlan(w, changes) && Leaving(w, changes, c) && s in w.active && w.active[s] == Some(c)
    ensures Incoming(changes, s).Some?
  {
    var t :| t in w.active && w.active[t] == Some(c) && Incoming(changes, t).Some? && Incoming(changes, t) != Some(c);
    NewcomerFacts(w, changes, t);
  }

  // ---------------------------------------------------------------- reaching midway

  lemma PausedStaysClean(w: World, hs: set<CompId>, w1: World, changes: seq<SlotChange>)
    requires CleanPlan(w, changes) && Halted(w, w1, hs)
    requires forall c | c in hs :: w.Is(c, Stage.Active)
    ensures CleanPlan(w1, changes)
  {
    forall sc | sc in changes ensures Clean(w1, sc) {
      assert Clean(w, sc);
    }
  }

  lemma LeavingSame(w: World, w1: World, changes: seq<SlotChange>, c: CompId)
    requires w1.active == w.active
    ensures Leaving(w1, changes, c) == Leaving(w, changes, c)
  {
  }

  lemma SwapReachesMidway(w: World, hs: set<CompId>, changes: seq<SlotChange>, w1: World, m: World)
    requires Halted(w, w1.(conns := w.conns), hs) && Swapped(w1, changes, m)
    requires forall c | c in hs :: w.Is(c, Stage.Active)
    ensures Midway(w, hs, changes, m)
  {
    forall c | c in w.stage
      ensures c in m.stage && m.stage[c] == if Leaving(w, changes, c) && CanRetire(w.stage[c]) then Destroyed
                                            else if c in hs then Paused else w.stage[c]
    {
      LeavingSame(w, w1, changes, c);
    }
    assert m.stage.Keys == w.stage.Keys;
  }

  // ---------------------------------------------------------------- from midway to the end

  lemma MidwayNewcomer(w: World, hs: set<CompId>, changes: seq<SlotChange>, m: World, s: SlotId)
    requires CleanPlan(w, changes) && Midway(w, hs, changes, m) && Incoming(changes, s).Some?
    requires forall c | c in hs :: w.Is(c, Stage.Active)
    ensures s in m.active && m.active[s] == Incoming(changes, s) && m.Holds(s, Ready) && Alone(m, s)
  {
    NewcomerFacts(w, changes, s);
    NewcomerStays(w, changes, s);
    forall t | t in m.active && m.active[t].Some? && m.active[t] == m.Active(s) ensures t == s {
    }
  }

  /** A slot the plan leaves alone is asleep at midway exactly if it was halted. */
  lemma MidwayBystander(w: World, changes: seq<SlotChange>, order: seq<SlotId>, hs: set<CompId>, m: World, s: SlotId)
    requires Prepared(w, changes, order) && Midway(w, hs, changes, m)
    requires forall c | c in hs :: w.Is(c, Stage.Active)
    requires s in order && Incoming(changes, s).None?
    ensures m.Active(s) == w.Active(s) && !m.Holds(s, Ready)
    ensures Asleep(m, s) <==> BoundTo(w, s, hs)
  {
    if w.Active(s).Some? && Leaving(w, changes, w.Active(s).value) {
      LeaverGone(w, changes, w.Active(s).value, s);
    }
  }

  lemma MidwayRevivable(w: World, changes: seq<SlotChange>, order: seq<SlotId>, hs: set<CompId>, m: World)
    requires Prepared(w, changes, order) && Midway(w, hs, changes, m)
    requires forall c | c in hs :: w.Is(c, Stage.Active)
    ensures Revivable(m, order) && m.Valid()
  {
    forall s | s in order ensures s in m.active && (m.Holds(s, Ready) ==> Alone(m, s)) {
      if Incoming(changes, s).Some? {
        MidwayNewcomer(w, hs, changes, m, s);
      } else {
        MidwayBystander(w, changes, order, hs, m, s);
      }
    }
    forall s | s in m.active && m.active[s].Some? ensures m.active[s].value in m.stage {
      if Incoming(changes, s).Some? {
        NewcomerFacts(w, changes, s);
      }
    }
  }

  /** Who wakes up: the newcomers, and everyone halted who keeps a slot. */
  lemma WakingAre(w: World, changes: seq<SlotChange>, order: seq<SlotId>, m: World, c: CompId)
    requires Prepared(w, changes, order) && Midway(w, Halting(w, order), changes, m)
    ensures c in Waking(m, order) <==> Arriving(changes, c) || (c in Halting(w, order) && !Leaving(w, changes, c))
  {
    var hs := Halting(w, order);
    if c in Waking(m, order) {
      var s :| s in order && Asleep(m, s) && m.Active(s).value == c;
      if Incoming(changes, s).None? {
        MidwayBystander(w, changes, order, hs, m, s);
        if Leaving(w, changes, c) { LeaverGone(w, changes, c, s); }
      }
    }
    if Arriving(changes, c) {
      var s :| Incoming(changes, s) == Some(c);
      MidwayNewcomer(w, hs, changes, m, s);
    } else if c in hs && !Leaving(w, changes, c) {
      var s :| s in order && w.Holds(s, Stage.Active) && w.Active(s).value == c;
      assert Incoming(changes, s).None?;
      MidwayBystander(w, changes, order, hs, m, s);
    }
  }

  lemma FinalStage(w: World, changes: seq<SlotChange>, order: seq<SlotId>, m: World, w': World, c: CompId)
    requires Prepared(w, changes, order) && Midway(w, Halting(w, order), changes, m)
    requires Revived(m, w', Waking(m, order)) && c in w.stage
    ensures c in w'.stage && w'.stage[c] == if Arriving(changes, c) then Stage.Active else StageAfter(w, changes, c)
  {
    WakingAre(w, changes, order, m, c);
  }

  lemma FinalPause(w: World, changes: seq<SlotChange>, order: seq<SlotId>, m: World, w': World, s: SlotId)
    requires Prepared(w, changes, order) && Midway(w, Halting(w, order), changes, m)
    requires Revived(m, w', Waking(m, order)) && s in w.pause
    ensures s in w'.pause && w'.pause[s] == PauseAfter(w, changes, s)
    ensures Incoming(changes, s).Some? ==> w'.Held(s) == []
  {
    hide Waking, Halting, Incoming, Leaving;
    HaltingRuns(w, order);
    HaltedOpen(w, order);
    if Incoming(changes, s).Some? {
      MidwayNewcomer(w, Halting(w, order), changes, m, s);
      WakingAre(w, changes, order, m, Incoming(changes, s).value);
    } else if w.Active(s).Some? {
      var c := w.Active(s).value;
      WakingAre(w, changes, order, m, c);
      if Arriving(changes, c) {
        var t :| Incoming(changes, t) == Some(c);
        NewcomerFacts(w, changes, t);
      }
      if Leaving(w, changes, c) { LeaverGone(w, changes, c, s); }
    }
  }

  /** A slot whose component is halted by the call was open before it. */
  lemma HaltedOpen(w: World, order: seq<SlotId>)
    requires Settled(w)
    ensures forall s | s in w.pause && BoundTo(w, s, Halting(w, order)) :: w.pause[s] == Running
  {
  }

  lemma FinalStages(w: World, changes: seq<SlotChange>, order: seq<SlotId>, m: World, w': World)
    requires Prepared(w, changes, order) && Midway(w, Halting(w, order), changes, m)
    requires Revived(m, w', Waking(m, order))
    ensures w'.stage == map c | c in w.stage :: if Arriving(changes, c) then Stage.Active else StageAfter(w, changes, c)
  {
    forall c | c in w.stage
      ensures c in w'.stage && w'.stage[c] == if Arriving(changes, c) then Stage.Active else StageAfter(w, changes, c)
    {
      FinalStage(w, changes, order, m, w', c);
    }
    assert w'.stage.Keys == w.stage.Keys;
  }

  lemma PausesAre(w: World, changes: seq<SlotChange>, w': World)
    requires w'.pause.Keys == w.pause.Keys
    requires forall s | s in w.pause :: w'.pause[s] == PauseAfter(w, changes, s)
    ensures w'.pause == map s | s in w.pause :: PauseAfter(w, changes, s)
  {
  }

  lemma FinalPauses(w: World, changes: seq<SlotChange>, order: seq<SlotId>, m: World, w': World)
    requires Prepared(w, changes, order) && Midway(w, Halting(w, order), changes, m)
    requires Revived(m, w', Waking(m, order))
    ensures w'.pause == map s | s in w.pause :: PauseAfter(w, changes, s)
    ensures forall s | s in w.active && Incoming(changes, s).Some? :: w'.Held(s) == []
  {
    assert w'.pause.Keys == m.pause.Keys == w.pause.Keys == w.active.Keys;
    forall s | s in w.pause
      ensures w'.pause[s] == PauseAfter(w, changes, s)
      ensures Incoming(changes, s).Some? ==> w'.Held(s) == []
    {
      FinalPause(w, changes, order, m, w', s);
    }
    PausesAre(w, changes, w');
  }

  lemma RevivedIsRecomposed(w: World, changes: seq<SlotChange>, order: seq<SlotId>, m: World, w': World)
    requires Prepared(w, changes, order) && Midway(w, Halting(w, order), changes, m)
    requires Revived(m, w', Waking(m, order))
    ensures Recomposed(w, changes, w')
  {
    FinalStages(w, changes, order, m, w');
    FinalPauses(w, changes, order, m, w');
  }

  // ---------------------------------------------------------------- the theorem

  lemma CommitRecomposes(w: World, env: Env, plan: Plan, order: seq<SlotId>, w1: World)
    requires Prepared(w, plan.changes, order) && Halted(w, w1, Halting(w, order)) && AllWell(env, w1.now)
    ensures var w' := Commit(w1, env, plan, OldComps(w, plan.changes), order);
            && Recomposed(w, plan.changes, w')
            && w'.conns == AddEdges(RemoveEdges(w.conns, plan.connections), w.roster, plan.connections)
  {
    var hs, olds := Halting(w, order), OldComps(w, plan.changes);
    var w2 := w1.(conns := RemoveEdges(w1.conns, plan.connections));
    PausedStaysClean(w, hs, w1, plan.changes);
    CleanIgnoresEdges(w1, w2, plan.changes);
    SwapAllEffect(w2, env, plan.changes, olds);
    var m := SwapAll(w2, env, plan.changes, olds);
    SwapReachesMidway(w, hs, plan.changes, w2, m);
    Finish(w, env, plan, order, m);
  }

  lemma CleanIgnoresEdges(w1: World, w2: World, changes: seq<SlotChange>)
    requires CleanPlan(w1, changes) && w2 == w1.(conns := w2.conns)
    requires w1.Valid()
    ensures CleanPlan(w2, changes) && w2.Valid()
    ensures forall i | 0 <= i < |changes| :: changes[i].slot.Some?
  {
    forall sc | sc in changes ensures Clean(w2, sc) {
      assert Clean(w1, sc);
    }
    forall i | 0 <= i < |changes| ensures changes[i].slot.Some? {
      assert Clean(w1, changes[i]);
    }
  }

  lemma Finish(w: World, env: Env, plan: Plan, order: seq<SlotId>, m: World)
    requires Prepared(w, plan.changes, order) && Midway(w, Halting(w, order), plan.changes, m) && AllWell(env, m.now)
    ensures var m' := m.(conns := AddEdges(m.conns, m.roster, plan.connections));
            var w' := NotifyAll(ReviveAll(m', env, order), env, plan.changes);
            Recomposed(w, plan.changes, w') && w'.conns == m'.conns
  {
    hide Recomposed, Revived, Prepared, ReviveAll, NotifyAll, Waking, AddEdges, Revivable, World.Valid;
    PreparedFacts(w, plan.changes, order);
    var m' := m.(conns := AddEdges(m.conns, m.roster, plan.connections));
    HaltingRuns(w, order);
    MidwayRevivable(w, plan.changes, order, Halting(w, order), m');
    RevivedNobody(m');
    ReviveAllEffect(m', m', env, order, {});
    var w4 := ReviveAll(m', env, order);
    RevivedEdges(m', w4, {} + Waking(m', order));
    assert {} + Waking(m', order) == Waking(m', order);
    RevivedIsRecomposed(w, plan.changes, order, m', w4);
    NotifyAllQuiet(w4, env, plan.changes);
    KeepsRecomposed(w, plan.changes, w4, NotifyAll(w4, env, plan.changes));
  }

  lemma PreparedFacts(w: World, changes: seq<SlotChange>, order: seq<SlotId>)
    requires Prepared(w, changes, order)
    ensures Settled(w) && CleanPlan(w, changes)
  {
  }

  lemma HaltingRuns(w: World, order: seq<SlotId>)
    ensures forall c | c in Halting(w, order) :: w.Is(c, Stage.Active)
  {
  }

  lemma RevivedNobody(m: World)
    ensures Revived(m, m, {})
  {
  }

  lemma RevivedEdges(m: World, w: World, rs: set<CompId>)
    requires Revived(m, w, rs)
    ensures w.conns == m.conns
  {
  }

  lemma KeepsRecomposed(w: World, changes: seq<SlotChange>, w4: World, w5: World)
    requires Settled(w) && CleanPlan(w, changes) && Recomposed(w, changes, w4) && SameComposition(w4, w5)
    requires forall t | w4.Pause(t) == Running :: w5.Held(t) == w4.Held(t)
    ensures Recomposed(w, changes, w5)
  {
    forall s | s in w.active && Incoming(changes, s).Some? ensures w5.Held(s) == [] {
      assert w4.Pause(s) == Running;
    }
  }

  /** A call whose pauses succeed installs exactly the plan: each replaced slot bound to its
      new component, running and open with nothing held; whoever was replaced destroyed;
      every other binding, stage and pause state as before the call. */
  lemma SuccessRecomposes(w: World, env: Env, plan: Plan, order: seq<SlotId>)
    requires Prepared(w, plan.changes, order)
    requires PausePhase(w, env, order).rc == OK
    requires AllWell(env, PausePhase(w, env, order).world.now)
    ensures var (w', rc) := Run(w, env, plan, order);
            && rc == OK
            && Recomposed(w, plan.changes, w')
            && w'.conns == AddEdges(RemoveEdges(w.conns, plan.connections), w.roster, plan.connections)
  {
    PausePhaseHalts(w, env, order);
    assert order[..|order|] == order;
    CommitRecomposes(w, env, plan, order, PausePhase(w, env, order).world);
  }

  /** The reader's version: replaced slots run their new component, and no bystander that
      was active stops being so. */
  lemma NobodyElseStops(w: World, changes: seq<SlotChange>, w': World)
    requires Settled(w) && CleanPlan(w, changes) && Recomposed(w, changes, w')
    ensures forall s | Incoming(changes, s).Some? ::
              w'.Active(s) == Incoming(changes, s) && w'.Holds(s, Stage.Active) && w'.Pause(s) == Running && w'.Held(s) == []
    ensures forall c | w.Is(c, Stage.Active) && !Leaving(w, changes, c) :: w'.Is(c, Stage.Active)
    ensures forall c | w.Is(c, Stage.Active) && Leaving(w, changes, c) :: w'.Is(c, Destroyed)
    ensures Settled(w')
  {
    forall s | Incoming(changes, s).Some?
      ensures s in w.active && w'.Active(s) == Incoming(changes, s) && w'.Holds(s, Stage.Active)
    {
      NewcomerFacts(w, changes, s);
    }
    forall c: CompId | w.Is(c, Stage.Active) && Leaving(w, changes, c) ensures !Arriving(changes, c) {
      if Arriving(changes, c) {
        var s :| Incoming(changes, s) == Some(c);
        NewcomerStays(w, changes, s);
      }
    }
    RecomposedSettled(w, changes, w');
  }

  lemma RecomposedSettled(w: World, changes: seq<SlotChange>, w': World)
    requires Settled(w) && CleanPlan(w, changes) && Recomposed(w, changes, w')
    ensures Settled(w')
  {
    forall s | s in w'.active && w'.active[s].Some? ensures w'.active[s].value in w'.stage {
      if Incoming(changes, s).Some? { NewcomerFacts(w, changes, s); }
    }
    forall s | s in w'.pause && w'.Holds(s, Stage.Active) ensures w'.pause[s] == Running {
      if Incoming(changes, s).None? {
        var c := w.Active(s).value;
        if Arriving(changes, c) {
          var t: SlotId :| Incoming(changes, t) == Some(c);
          NewcomerFacts(w, changes, t);
        }
      }
    }
  }
}
