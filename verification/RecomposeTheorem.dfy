/** `nx_recompose` as a whole: for every plan that meets the side conditions and every order
    the planner may have chosen, what the call leaves and when it drained and replayed. */
module RecomposeTheorem {
  import opened Composition
  import opened Sequences
  import opened Lifecycle
  import opened Recompose
  import opened RecomposeEffect
  import opened RecomposeSuccess
  import opened RecomposeOrder
  import RecomposeEdges
  import PauseOrder

  /** The slots a plan touches: those it changes and the receivers of rewired edges. */
  ghost function Touched(plan: Plan): seq<SlotId>
    requires forall sc | sc in plan.changes :: sc.slot.Some?
  {
    PauseOrder.Affected(SlotsOf(plan.changes), plan.connections)
  }

  /** What the protocol asks for: running slots are open; the changes name distinct slots and
      distinct new components that are ready and bound nowhere else; each touched slot is
      open, shares its component with no other touched slot, is not already paused and, unless
      it is replaced, not idle. */
  ghost predicate SideConditions(w: World, plan: Plan) {
    && Settled(w) && CleanPlan(w, plan.changes)
    && (forall sc | sc in plan.changes :: sc.slot.Some?)
    && forall s | s in Touched(plan) ::
         && s in w.active && s in w.pause && w.pause[s] == Running && AloneIn(w, Touched(plan), s)
         && !w.Holds(s, Paused) && (Incoming(plan.changes, s).None? ==> !w.Holds(s, Ready))
  }

  lemma SlotsDistinct(w: World, changes: seq<SlotChange>)
    requires CleanPlan(w, changes) && forall sc | sc in changes :: sc.slot.Some?
    ensures Distinct(SlotsOf(changes))
  {
    var slots := SlotsOf(changes);
    forall i, j | 0 <= i < j < |slots| ensures slots[i] != slots[j] {
      assert changes[i] in changes && changes[j] in changes && changes[i].slot != changes[j].slot;
    }
  }

  lemma IncomingTouched(plan: Plan, s: SlotId)
    requires (forall sc | sc in plan.changes :: sc.slot.Some?) && Incoming(plan.changes, s).Some?
    ensures s in Touched(plan)
  {
    IncomingIs(plan.changes, s);
    var sc :| sc in plan.changes && sc.replace && sc.slot == Some(s) && sc.newComp.Some?;
    var i :| 0 <= i < |plan.changes| && plan.changes[i] == sc;
    assert SlotsOf(plan.changes)[i] == s;
    PauseOrder.AffectedSlots(SlotsOf(plan.changes), plan.connections);
  }

  /** Under the side conditions any order with dependents first will do. */
  lemma OrderServes(w: World, plan: Plan, order: seq<SlotId>)
    requires SideConditions(w, plan) && PauseOrder.DependentsFirst(Touched(plan), w.conns, order)
    ensures Distinct(Touched(plan)) && Prepared(w, plan.changes, order) && Separate(w, order)
  {
    hide Settled, CleanPlan, Incoming;
    var found := Touched(plan);
    SlotsDistinct(w, plan.changes);
    PauseOrder.AffectedSlots(SlotsOf(plan.changes), plan.connections);
    forall s ensures s in order <==> s in found { assert s in multiset(order) <==> s in multiset(found); }
    forall s | Incoming(plan.changes, s).Some? ensures s in order { IncomingTouched(plan, s); }
  }

  /** For `u` calling `v` in the plan: `v` is drained once `u` is paused, and what is held
      for `u` is replayed once `v` is open. */
  ghost predicate EdgeOrder(w: World, found: seq<SlotId>, e: Step) {
    forall u, v {:trigger (u, v) in PauseOrder.PlanEdges(found, w.conns)} | (u, v) in PauseOrder.PlanEdges(found, w.conns) ::
      && (e.Drain? && e.slot == v && w.Holds(u, Stage.Active) ==> u in e.quiet)
      && (e.Replay? && e.slot == u ==> v in e.open)
  }

  /** The edges come about by the plan's entries; each pair's balance is right, and edges of
      pairs the plan does not name stay, in order. */
  ghost predicate EdgesKept(w: World, plan: Plan, w': World) {
    && RecomposeEdges.EdgesBy(w.conns, w.roster, plan.connections, w'.conns)
    && RecomposeEdges.Unaffected(w'.conns, plan.connections) == RecomposeEdges.Unaffected(w.conns, plan.connections)
    && forall from, to: SlotId {:trigger RecomposeEdges.Of(w'.conns, from, to)} ::
         |RecomposeEdges.Of(w'.conns, from, to)| ==
         RecomposeEdges.Less(|RecomposeEdges.Of(w.conns, from, to)|, RecomposeEdges.Removes(plan.connections, from, to))
         + if RecomposeEdges.Known(w.roster, from, to) then RecomposeEdges.Adds(plan.connections, from, to) else 0
  }

  lemma EdgesAreKept(w: World, plan: Plan, w': World)
    requires w'.conns == AddEdges(RemoveEdges(w.conns, plan.connections), w.roster, plan.connections)
    ensures EdgesKept(w, plan, w')
  {
    hide AddEdges, RemoveEdges, RecomposeEdges.EdgesBy, RecomposeEdges.Of, RecomposeEdges.Unaffected,
      RecomposeEdges.Removes, RecomposeEdges.Adds, RecomposeEdges.Known;
    RecomposeEdges.CommitEdges(w.conns, w.roster, plan.connections);
    RecomposeEdges.OthersStay(w.conns, w.roster, plan.connections, w'.conns);
    forall from, to: SlotId ensures
      |RecomposeEdges.Of(w'.conns, from, to)| ==
      RecomposeEdges.Less(|RecomposeEdges.Of(w.conns, from, to)|, RecomposeEdges.Removes(plan.connections, from, to))
      + if RecomposeEdges.Known(w.roster, from, to) then RecomposeEdges.Adds(plan.connections, from, to) else 0
    {
      RecomposeEdges.EdgeBalance(w.conns, w.roster, plan.connections, w'.conns, from, to);
    }
  }

  /** What the call promises: the plan installed and nothing else touched, or everything as
      it was; and in both cases every drain and every replay in the order of the edges. */
  ghost predicate Kept(w: World, plan: Plan, w': World, rc: Status)
    requires forall sc | sc in plan.changes :: sc.slot.Some?
  {
    && (rc == OK ==> && Recomposed(w, plan.changes, w')
                     && w'.conns == AddEdges(RemoveEdges(w.conns, plan.connections), w.roster, plan.connections)
                     && EdgesKept(w, plan, w'))
    && (rc != OK ==> SameComposition(w, w'))
    && w.trace <= w'.trace && forall e | e in Since(w, w') :: EdgeOrder(w, Touched(plan), e)
  }

  lemma RunKeeps(w: World, env: Env, plan: Plan, order: seq<SlotId>)
    requires SideConditions(w, plan) && PauseOrder.DependentsFirst(Touched(plan), w.conns, order)
    requires AllWell(env, PausePhase(w, env, order).world.now)
    ensures var (w', rc) := Run(w, env, plan, order);
            rc == PausePhase(w, env, order).rc && Kept(w, plan, w', rc)
  {
    hide Prepared, Separate, Recomposed, PausePhase, Unwind, Commit, Ordered, EdgesKept;
    OrderServes(w, plan, order);
    OrderFacts(w, plan, order);
    var (w', rc) := Run(w, env, plan, order);
    if PausePhase(w, env, order).rc == OK {
      SuccessRecomposes(w, env, plan, order);
      EdgesAreKept(w, plan, w');
    } else {
      RollbackRestores(w, env, plan, order);
    }
    RunInOrder(w, env, plan, order);
    forall e | e in Since(w, w') ensures EdgeOrder(w, Touched(plan), e) {
      OrderedIsEdgeOrder(w, Touched(plan), order, e);
    }
  }

  lemma OrderFacts(w: World, plan: Plan, order: seq<SlotId>)
    requires Prepared(w, plan.changes, order)
    ensures Settled(w) && forall s | s in order :: !w.Holds(s, Paused)
  {
  }

  lemma OrderedIsEdgeOrder(w: World, found: seq<SlotId>, order: seq<SlotId>, e: Step)
    requires Distinct(found) && PauseOrder.DependentsFirst(found, w.conns, order) && Ordered(w, order, e)
    ensures EdgeOrder(w, found, e)
  {
    hide Ordered;
    forall u, v | (u, v) in PauseOrder.PlanEdges(found, w.conns)
      ensures e.Drain? && e.slot == v && w.Holds(u, Stage.Active) ==> u in e.quiet
      ensures e.Replay? && e.slot == u ==> v in e.open
    {
      EdgesInOrder(w, order, found, e, u, v);
    }
  }
}
