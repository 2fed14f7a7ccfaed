/** The registry's slots and components as the mutable state they are, with the lifecycle
    verbs and `nx_recompose` as the methods that change it.  Each method is tied to the
    function of the same step; the theorems are about those functions. */
module Kernel {
  import opened Composition
  import opened Digraph
  import opened Sequences
  import opened Lifecycle
  import opened Recompose
  import opened PauseOrder
  import RecomposeTheorem

  class Registry {
    var roster: seq<SlotId>
    var active: map<SlotId, Option<CompId>>
    var pause: map<SlotId, SlotPause>
    var held: map<SlotId, seq<Send>>
    var stage: map<CompId, Stage>
    var conns: seq<Connection>
    var frozen: set<SlotId>
    var now: nat
    ghost var trace: seq<Step>

    ghost function View(): World
      reads this
    {
      World(roster, active, pause, held, stage, conns, frozen, now, trace)
    }

    /** Run the callback due now; what it sends to paused slots is held. */
    method Callback(env: Env) returns (a: Answer)
      modifies this`held, this`now
      ensures View() == Ask(old(View()), env) && a == env(old(now))
    {
      a := env(now);
      for i := 0 to |a.sends|
        invariant View() == Land(old(View()), a.sends[..i]) && View() == old(View()).(held := held)
        modifies this`held
      {
        assert a.sends[..i + 1][..i] == a.sends[..i];
        LandHolds(old(View()), a.sends[..i]);
        var m := a.sends[i];
        if m.dst in held && m.dst in pause && pause[m.dst] != Running {
          held := held[m.dst := held[m.dst] + [m]];
        }
      }
      assert a.sends[..|a.sends|] == a.sends;
      LandHolds(old(View()), a.sends);
      now := now + 1;
    }

    method SetPause(s: SlotId, p: SlotPause)
      modifies this`pause
      ensures View() == old(View()).WithPause(s, p)
    {
      if s in pause {
        pause := pause[s := p];
      }
    }

    method SetStage(c: CompId, g: Stage)
      modifies this`stage
      ensures View() == old(View()).WithStage(c, g)
    {
      if c in stage {
        stage := stage[c := g];
      }
    }

    predicate BoundAt(s: SlotId, c: CompId)
      reads this
    {
      s in active && active[s] == Some(c)
    }

    method Cutoff(c: CompId)
      modifies this`pause
      ensures View() == CutSlots(old(View()), old(View()).Bound(c))
    {
      hide Marked;
      ghost var w := View();
      for i := 0 to |roster|
        invariant View() == CutSlots(w, w.BoundIn(roster[..i], c)) && roster == w.roster
      {
        CutSlotsEffect(w, w.BoundIn(roster[..i], c));
        ghost var front := w.BoundIn(roster[..i], c);
        assert roster[..i + 1][..i] == roster[..i];
        if BoundAt(roster[i], c) {
          assert (front + [roster[i]])[..|front|] == front;
          SetPause(roster[i], Cutting);
        }
      }
      assert roster[..|roster|] == roster;
    }

    method DrainOne(env: Env, s: SlotId)
      modifies this`pause, this`held, this`now, this`trace
      ensures View() == DrainSlot(old(View()), env, s)
    {
      SetPause(s, Draining);
      trace := trace + [Drain(s, View().SlotsAt(Done))];
      var _ := Callback(env);
    }

    method DrainBound(env: Env, c: CompId)
      modifies this`pause, this`held, this`now, this`trace
      ensures View() == DrainSlots(old(View()), env, old(View()).Bound(c))
    {
      hide DrainSlot;
      ghost var w := View();
      for i := 0 to |roster|
        invariant View() == DrainSlots(w, env, w.BoundIn(roster[..i], c)) && roster == w.roster
      {
        ghost var front := w.BoundIn(roster[..i], c);
        DrainSlotsShape(w, env, front);
        assert roster[..i + 1][..i] == roster[..i];
        if BoundAt(roster[i], c) {
          assert (front + [roster[i]])[..|front|] == front;
          DrainOne(env, roster[i]);
        }
      }
      assert roster[..|roster|] == roster;
    }

    method Settle(c: CompId)
      modifies this`pause
      ensures View() == SettleSlots(old(View()), old(View()).Bound(c))
    {
      hide Marked;
      ghost var w := View();
      for i := 0 to |roster|
        invariant View() == SettleSlots(w, w.BoundIn(roster[..i], c)) && roster == w.roster
      {
        SettleSlotsEffect(w, w.BoundIn(roster[..i], c));
        ghost var front := w.BoundIn(roster[..i], c);
        assert roster[..i + 1][..i] == roster[..i];
        if BoundAt(roster[i], c) {
          assert (front + [roster[i]])[..|front|] == front;
          SetPause(roster[i], Done);
        }
      }
      assert roster[..|roster|] == roster;
    }

    /** Clear the pause state of `s` and replay its hold queue. */
    method ReopenSlot(env: Env, s: SlotId)
      modifies this`pause, this`held, this`now, this`trace
      ensures View() == Reopen(old(View()), env, s)
    {
      SetPause(s, Running);
      trace := trace + [Replay(s, View().Held(s), View().SlotsAt(Running))];
      if s in held {
        held := held[s := []];
      }
      var _ := Callback(env);
    }

    method ReopenBound(env: Env, c: CompId)
      modifies this`pause, this`held, this`now, this`trace
      ensures View() == ReopenSlots(old(View()), env, old(View()).Bound(c))
    {
      ghost var w := View();
      for i := 0 to |roster|
        invariant View() == ReopenSlots(w, env, w.BoundIn(roster[..i], c)) && roster == w.roster
      {
        ghost var front := w.BoundIn(roster[..i], c);
        ReopenSlotsEffect(w, env, front);
        assert roster[..i + 1][..i] == roster[..i];
        if BoundAt(roster[i], c) {
          assert (front + [roster[i]])[..|front|] == front;
          ReopenSlot(env, roster[i]);
        }
      }
      assert roster[..|roster|] == roster;
    }

    // -------------------------------------------------------------- the verbs

    method Pause(env: Env, c: CompId) returns (rc: Status)
      modifies this`pause, this`held, this`now, this`trace, this`stage
      ensures (View(), rc) == PauseVerb(old(View()), env, c)
    {
      ghost var w := View();
      if c !in stage || stage[c] != Stage.Active { return ESTATE; }
      var a := Callback(env);
      AskHolds(w, env);
      if a.rc != OK { return EABORT; }
      ghost var bs := w.Bound(c);
      BoundInSame(w, View(), roster, c);
      Cutoff(c);
      CutSlotsEffect(Ask(w, env), bs);
      BoundInSame(w, View(), roster, c);
      DrainBound(env, c);
      ghost var w1 := View();
      DrainedEffect(w, env, bs);
      rc := FinishPause(env, c);
      BoundInSame(w, w1, w.roster, c);
    }

    /** From the drain on: `pause_hook` against its deadline, `ops->pause`, DONE. */
    method FinishPause(env: Env, c: CompId) returns (rc: Status)
      requires c in stage
      modifies this`pause, this`held, this`now, this`trace, this`stage
      ensures var w1 := old(View());
              var bs, w2 := w1.Bound(c), Ask(w1, env);
              (View(), rc) ==
              if PauseHookStatus(env(w1.now)) != OK then (ReopenSlots(w2, env, bs), PauseHookStatus(env(w1.now)))
              else if env(w2.now).rc != OK then (ReopenSlots(Ask(w2, env), env, bs), env(w2.now).rc)
              else (SettleSlots(Ask(w2, env), bs).WithStage(c, Paused), OK)
    {
      ghost var w1 := View();
      var a := Callback(env);
      AskHolds(w1, env);
      BoundInSame(w1, View(), roster, c);
      if PauseHookStatus(a) != OK {
        ReopenBound(env, c);
        return PauseHookStatus(a);
      }
      ghost var w2 := View();
      a := Callback(env);
      AskHolds(w2, env);
      BoundInSame(w1, View(), roster, c);
      if a.rc != OK {
        ReopenBound(env, c);
        return a.rc;
      }
      Settle(c);
      SetStage(c, Paused);
      rc := OK;
    }

    method Resume(env: Env, c: CompId) returns (rc: Status)
      modifies this`pause, this`held, this`now, this`trace, this`stage
      ensures (View(), rc) == ResumeVerb(old(View()), env, c)
    {
      ghost var w := View();
      if c !in stage || stage[c] != Paused { return ESTATE; }
      var a := Callback(env);
      AskHolds(w, env);
      if a.rc != OK { return EABORT; }
      ghost var w1 := View();
      a := Callback(env);
      AskHolds(w1, env);
      if a.rc != OK { return a.rc; }
      BoundInSame(w, View(), roster, c);
      ReopenBound(env, c);
      SetStage(c, Stage.Active);
      rc := OK;
    }

    method Shift(env: Env, c: CompId, to: Stage) returns (rc: Status)
      modifies this`held, this`now, this`stage
      ensures (View(), rc) == ShiftVerb(old(View()), env, c, to)
    {
      var a := Callback(env);
      if a.rc != OK { return EABORT; }
      a := Callback(env);
      if a.rc != OK { return a.rc; }
      SetStage(c, to);
      rc := OK;
    }

    method Enable(env: Env, c: CompId) returns (rc: Status)
      modifies this`held, this`now, this`stage
      ensures (View(), rc) == EnableVerb(old(View()), env, c)
    {
      if c !in stage || stage[c] != Ready { return ESTATE; }
      rc := Shift(env, c, Stage.Active);
    }

    method Disable(env: Env, c: CompId) returns (rc: Status)
      modifies this`held, this`now, this`stage
      ensures (View(), rc) == DisableVerb(old(View()), env, c)
    {
      if c !in stage || (stage[c] != Stage.Active && stage[c] != Paused) { return ESTATE; }
      rc := Shift(env, c, Ready);
    }

    /** `nx_component_is_bound`: some registered slot points at `c`. */
    method IsBound(c: CompId) returns (b: bool)
      ensures b <==> View().Bound(c) != []
    {
      for i := 0 to |roster|
        invariant forall k | 0 <= k < i :: !BoundAt(roster[k], c)
      {
        if BoundAt(roster[i], c) {
          assert roster[i] in View().Bound(c);
          return true;
        }
      }
      NonEmptyHas(View().Bound(c));
      b := false;
    }

    method Destroy(env: Env, c: CompId) returns (rc: Status)
      modifies this`held, this`now, this`stage
      ensures (View(), rc) == DestroyVerb(old(View()), env, c)
    {
      if c !in stage || stage[c] != Ready { return ESTATE; }
      var b := IsBound(c);
      if b { return EBUSY; }
      var _ := Callback(env);
      SetStage(c, Destroyed);
      rc := OK;
    }

    method Swap(env: Env, s: SlotId, c: CompId) returns (rc: Status)
      modifies this`active, this`held, this`now
      ensures View() == Bind(old(View()), env, s, c)
      ensures rc == if s in old(active) && c in stage then OK else ENOENT
    {
      if s !in active || c !in stage { return ENOENT; }
      active := active[s := Some(c)];
      var _ := Callback(env);
      rc := OK;
    }

    // -------------------------------------------------------------- nx_recompose

    method CheckPlan(changes: seq<SlotChange>) returns (rc: Status)
      ensures rc == Validate(View(), changes)
    {
      for i := 0 to |changes|
        invariant Validate(View(), changes[..i]) == OK
      {
        assert changes[..i + 1][..i] == changes[..i];
        var sc := changes[i];
        rc := Verdict(World(roster, active, pause, held, stage, conns, frozen, now, []), sc);
        assert rc == Verdict(View(), sc);
        if rc != OK {
          ValidateStops(View(), changes, i + 1);
          return;
        }
      }
      assert changes[..|changes|] == changes;
      rc := OK;
    }

    /** Pause in order; on failure, resume what was paused, in reverse. */
    method PauseOrUnwind(env: Env, order: seq<SlotId>) returns (rc: Status)
      modifies this`pause, this`held, this`now, this`trace, this`stage
      ensures var r := PausePhase(old(View()), env, order);
              rc == r.rc && r.reached <= |order| &&
              View() == if rc == OK then r.world else Unwind(r.world, env, order[..r.reached])
    {
      ghost var w := View();
      for i := 0 to |order|
        invariant PausePhase(w, env, order[..i]) == PauseRun(View(), OK, i)
      {
        assert order[..i + 1][..i] == order[..i];
        var s := order[i];
        if s !in active || active[s].None? || active[s].value !in stage || stage[active[s].value] != Stage.Active {
          continue;
        }
        rc := Pause(env, active[s].value);
        if rc != OK {
          PauseStops(w, env, order, i + 1);
          UndoPauses(env, order[..i]);
          return;
        }
      }
      assert order[..|order|] == order;
      rc := OK;
    }

    method UndoPauses(env: Env, passed: seq<SlotId>)
      modifies this`pause, this`held, this`now, this`trace, this`stage
      ensures View() == Unwind(old(View()), env, passed)
    {
      var j := |passed|;
      assert passed[..j] == passed;
      while j > 0
        invariant 0 <= j <= |passed|
        invariant Unwind(View(), env, passed[..j]) == Unwind(old(View()), env, passed)
      {
        j := j - 1;
        assert passed[..j + 1][..j] == passed[..j];
        var s := passed[j];
        if s in active && active[s].Some? && active[s].value in stage && stage[active[s].value] == Paused {
          var _ := Resume(env, active[s].value);
        }
      }
    }

    method RemoveConnections(changes: seq<ConnChange>)
      modifies this`conns
      ensures conns == RemoveEdges(old(conns), changes)
    {
      for i := 0 to |changes|
        invariant conns == RemoveEdges(old(conns), changes[..i])
      {
        assert changes[..i + 1][..i] == changes[..i];
        conns := RemoveOne(conns, changes[i]);
      }
      assert changes[..|changes|] == changes;
    }

    method AddConnections(changes: seq<ConnChange>)
      modifies this`conns
      ensures conns == AddEdges(old(conns), roster, changes)
    {
      for i := 0 to |changes|
        invariant conns == AddEdges(old(conns), roster, changes[..i])
      {
        assert changes[..i + 1][..i] == changes[..i];
        conns := AddOne(conns, roster, changes[i]);
      }
      assert changes[..|changes|] == changes;
    }

    method SwapOneSlot(env: Env, sc: SlotChange, prior: Option<CompId>)
      modifies this`active, this`held, this`now, this`stage
      ensures View() == SwapOne(old(View()), env, sc, prior)
    {
      if !sc.replace || sc.slot.None? || sc.newComp.None? { return; }
      if prior.Some? && prior.value in stage && (stage[prior.value] == Paused || stage[prior.value] == Stage.Active) {
        var _ := Disable(env, prior.value);
      }
      var _ := Swap(env, sc.slot.value, sc.newComp.value);
      if prior.Some? && prior.value in stage && stage[prior.value] == Ready {
        var b := IsBound(prior.value);
        if !b {
          var _ := Destroy(env, prior.value);
        }
      }
    }

    method SwapSlots(env: Env, changes: seq<SlotChange>, olds: seq<Option<CompId>>)
      requires |olds| == |changes|
      modifies this`active, this`held, this`now, this`stage
      ensures View() == SwapAll(old(View()), env, changes, olds)
    {
      for i := 0 to |changes|
        invariant View() == SwapAll(old(View()), env, changes[..i], olds[..i])
      {
        assert changes[..i + 1][..i] == changes[..i] && olds[..i + 1][..i] == olds[..i];
        SwapOneSlot(env, changes[i], olds[i]);
      }
      assert changes[..|changes|] == changes && olds[..|olds|] == olds;
    }

    method ResumeSlots(env: Env, order: seq<SlotId>)
      modifies this`pause, this`held, this`now, this`trace, this`stage
      ensures View() == ReviveAll(old(View()), env, order)
    {
      var j := |order|;
      assert order[..j] == order;
      while j > 0
        invariant 0 <= j <= |order|
        invariant ReviveAll(View(), env, order[..j]) == ReviveAll(old(View()), env, order)
      {
        j := j - 1;
        assert order[..j + 1][..j] == order[..j];
        var s := order[j];
        if s !in active || active[s].None? || active[s].value !in stage { continue; }
        if stage[active[s].value] == Ready {
          var _ := Enable(env, active[s].value);
          ReopenSlot(env, s);
        } else if stage[active[s].value] == Paused {
          var _ := Resume(env, active[s].value);
        }
      }
    }

    method NotifyDependents(env: Env, s: SlotId)
      modifies this`held, this`now
      ensures View() == NotifyOne(old(View()), env, old(View()).conns, s)
    {
      ghost var w := View();
      for i := 0 to |conns|
        invariant View() == NotifyOne(w, env, conns[..i], s)
      {
        assert conns[..i + 1][..i] == conns[..i];
        var from := conns[i].from;
        if conns[i].to == s && from.Some? && from.value in active && active[from.value].Some? {
          var _ := Callback(env);
        }
      }
      assert conns[..|conns|] == conns;
    }

    method Notify(env: Env, changes: seq<SlotChange>)
      modifies this`held, this`now
      ensures View() == NotifyAll(old(View()), env, changes)
    {
      for i := 0 to |changes|
        invariant View() == NotifyAll(old(View()), env, changes[..i])
      {
        assert changes[..i + 1][..i] == changes[..i];
        if changes[i].replace && changes[i].slot.Some? {
          NotifyDependents(env, changes[i].slot.value);
        }
      }
      assert changes[..|changes|] == changes;
    }

    /** What each changed slot holds before the call. */
    method Snapshot(changes: seq<SlotChange>) returns (olds: seq<Option<CompId>>)
      ensures olds == OldComps(View(), changes)
    {
      olds := [];
      for i := 0 to |changes|
        invariant olds == OldComps(View(), changes)[..i]
      {
        var s := changes[i].slot;
        olds := olds + [if s.Some? && s.value in active then active[s.value] else None];
      }
    }

    /** The phases of the call, once there is an order: pause and maybe unwind; otherwise
        remove edges, swap, add edges, resume, notify. */
    method RunPhases(env: Env, plan: Plan, order: seq<SlotId>) returns (rc: Status)
      modifies this
      ensures (View(), rc) == Run(old(View()), env, plan, order)
    {
      hide PausePhase, Unwind, RemoveEdges, SwapAll, AddEdges, ReviveAll, NotifyAll;
      var olds := Snapshot(plan.changes);
      rc := PauseOrUnwind(env, order);
      if rc != OK { return; }
      RemoveConnections(plan.connections);
      SwapSlots(env, plan.changes, olds);
      AddConnections(plan.connections);
      ResumeSlots(env, order);
      Notify(env, plan.changes);
    }

    /** `nx_recompose`.  An invalid plan, one over the limits and one with a cycle change
        nothing; any other runs the phases over an order with dependents first. */
    method Recompose(env: Env, plan: Plan, maxSlots: nat, maxEdges: nat) returns (rc: Status, ghost order: seq<SlotId>)
      requires View().Valid()
      requires forall sc | sc in plan.changes && sc.slot.Some? :: sc.slot.value in active
      requires forall sc | sc in plan.changes && sc.newComp.Some? :: sc.newComp.value in stage
      requires forall cc | cc in plan.connections && cc.to.Some? :: cc.to.value in active
      modifies this
      ensures var w := old(View());
              && (Validate(w, plan.changes) != OK ==> rc == Validate(w, plan.changes) && View() == w)
              && (Validate(w, plan.changes) == OK ==>
                    && (forall sc | sc in plan.changes :: sc.slot.Some?)
                    && var found := Affected(SlotsOf(plan.changes), plan.connections);
                       var refused := if |found| > maxSlots || |ScanAll(found, w.conns, |found|)| > maxEdges then ENOMEM
                                      else if !Acyclic(PlanEdges(found, w.conns)) then EINVAL
                                      else OK;
                       if refused != OK then rc == refused && View() == w
                       else && DependentsFirst(found, w.conns, order) && (View(), rc) == Run(w, env, plan, order)
                            && (RecomposeTheorem.SideConditions(w, plan) && AllWell(env, PausePhase(w, env, order).world.now) ==>
                                  RecomposeTheorem.Kept(w, plan, View(), rc)))
    {
      hide Run, Affected, ScanAll, Acyclic, DependentsFirst, PausePhase, RecomposeTheorem.SideConditions, RecomposeTheorem.Kept;
      ghost var w := View();
      order := [];
      rc := CheckPlan(plan.changes);
      ValidateAll(w, plan.changes);
      if rc != OK { return; }
      var sequence: seq<SlotId>;
      rc, sequence := BuildPauseOrder(SlotsOf(plan.changes), plan.connections, conns, maxSlots, maxEdges);
      order := sequence;
      if rc != OK { return; }
      rc := RunPhases(env, plan, sequence);
      ProtocolKeeps(w, env, plan, sequence);
    }
  }

  lemma ProtocolKeeps(w: World, env: Env, plan: Plan, order: seq<SlotId>)
    requires (forall sc | sc in plan.changes :: sc.slot.Some?)
    requires DependentsFirst(Affected(SlotsOf(plan.changes), plan.connections), w.conns, order)
    ensures RecomposeTheorem.SideConditions(w, plan) && AllWell(env, PausePhase(w, env, order).world.now) ==>
              RecomposeTheorem.Kept(w, plan, Run(w, env, plan, order).0, Run(w, env, plan, order).1)
  {
    hide RecomposeTheorem.SideConditions, RecomposeTheorem.Kept, DependentsFirst, Run, PausePhase;
    if RecomposeTheorem.SideConditions(w, plan) && AllWell(env, PausePhase(w, env, order).world.now) {
      RecomposeTheorem.RunKeeps(w, env, plan, order);
    }
  }

  lemma {:induction false} ValidateStops(w: World, changes: seq<SlotChange>, n: nat)
    requires n <= |changes| && Validate(w, changes[..n]) != OK
    ensures Validate(w, changes) == Validate(w, changes[..n])
    decreases |changes| - n
  {
    if n == |changes| {
      assert changes[..n] == changes;
    } else {
      assert changes[..n + 1][..n] == changes[..n];
      ValidateStops(w, changes, n + 1);
    }
  }

  lemma {:induction false} PauseStops(w: World, env: Env, order: seq<SlotId>, n: nat)
    requires n <= |order| && PausePhase(w, env, order[..n]).rc != OK
    ensures PausePhase(w, env, order) == PausePhase(w, env, order[..n])
    decreases |order| - n
  {
    if n == |order| {
      assert order[..n] == order;
    } else {
      assert order[..n + 1][..n] == order[..n];
      PauseStops(w, env, order, n + 1);
    }
  }
}
