/** Every stage a component passes through in a recomposition follows the lifecycle matrix
    of framework/component.c, whatever callbacks answer. */
module RecomposeLegal {
  import opened Composition
  import opened Sequences
  import opened Lifecycle
  import opened Recompose

  /** A way from the first stage to the last, each step allowed by the matrix. */
  ghost predicate LegalPath(p: seq<Stage>) {
    p != [] && forall i | 0 <= i < |p| - 1 :: Legal(p[i], p[i + 1])
  }

  ghost predicate Leads(a: Stage, b: Stage) {
    exists p: seq<Stage> :: LegalPath(p) && p[0] == a && p[|p| - 1] == b
  }

  lemma LeadsSame(a: Stage)
    ensures Leads(a, a)
  {
    assert LegalPath([a]);
  }

  lemma LeadsOne(a: Stage, b: Stage)
    requires Legal(a, b)
    ensures Leads(a, b)
  {
    assert LegalPath([a, b]);
  }

  lemma LeadsOn(a: Stage, b: Stage, c: Stage)
    requires Leads(a, b) && Leads(b, c)
    ensures Leads(a, c)
  {
    hide Legal;
    var p :| LegalPath(p) && p[0] == a && p[|p| - 1] == b;
    var q :| LegalPath(q) && q[0] == b && q[|q| - 1] == c;
    var r := p + q[1..];
    forall i | 0 <= i < |r| - 1 ensures Legal(r[i], r[i + 1]) {
      if i < |p| - 1 {
        assert Legal(p[i], p[i + 1]);
      } else {
        assert Legal(q[i - |p| + 1], q[i - |p| + 2]);
      }
    }
    assert LegalPath(r);
  }

  /** No component appears or vanishes, and each has moved along legal steps only. */
  ghost predicate Lawful(w: World, w': World) {
    w'.stage.Keys == w.stage.Keys && forall c | c in w.stage :: Leads(w.stage[c], w'.stage[c])
  }

  lemma LawfulSame(w: World, w': World)
    requires w'.stage == w.stage
    ensures Lawful(w, w')
  {
    hide Leads;
    forall c | c in w.stage ensures Leads(w.stage[c], w'.stage[c]) { LeadsSame(w.stage[c]); }
  }

  lemma LawfulOn(a: World, b: World, c: World)
    requires Lawful(a, b) && Lawful(b, c)
    ensures Lawful(a, c)
  {
    hide Leads;
    forall d | d in a.stage ensures Leads(a.stage[d], c.stage[d]) { LeadsOn(a.stage[d], b.stage[d], c.stage[d]); }
  }

  /** One component takes one step. */
  lemma LawfulStep(w: World, w': World, c: CompId, to: Stage)
    requires c in w.stage && Legal(w.stage[c], to) && w'.stage == w.stage[c := to]
    ensures Lawful(w, w')
  {
    hide Leads;
    forall d | d in w.stage ensures Leads(w.stage[d], w'.stage[d]) {
      if d == c { LeadsOne(w.stage[c], to); } else { LeadsSame(w.stage[d]); }
    }
  }

  // ---------------------------------------------------------------- the verbs

  lemma AskStage(w: World, env: Env)
    ensures Ask(w, env).stage == w.stage
  {
    AskHolds(w, env);
  }

  lemma PauseLawful(w: World, env: Env, c: CompId)
    ensures Lawful(w, PauseVerb(w, env, c).0)
  {
    hide Lawful, Leads;
    var w' := PauseVerb(w, env, c).0;
    if w.Is(c, Stage.Active) {
      PauseEffect(w, env, c);
      if PauseVerb(w, env, c).1 == OK { LawfulStep(w, w', c, Paused); } else { LawfulSame(w, w'); }
    } else {
      LawfulSame(w, w');
    }
  }

  lemma ResumeStage(w: World, env: Env, c: CompId)
    ensures var (w', rc) := ResumeVerb(w, env, c);
            w'.stage == if w.Is(c, Paused) && rc == OK then w.stage[c := Stage.Active] else w.stage
  {
    hide ReopenSlots, Ask;
    var w1 := Ask(w, env);
    AskStage(w, env);
    AskStage(w1, env);
    ReopenSlotsEffect(Ask(w1, env), env, w.Bound(c));
  }

  lemma ResumeLawful(w: World, env: Env, c: CompId)
    ensures Lawful(w, ResumeVerb(w, env, c).0)
  {
    hide Lawful, Leads, ResumeVerb;
    ResumeStage(w, env, c);
    var (w', rc) := ResumeVerb(w, env, c);
    if w.Is(c, Paused) && rc == OK { LawfulStep(w, w', c, Stage.Active); } else { LawfulSame(w, w'); }
  }

  lemma ShiftStage(w: World, env: Env, c: CompId, to: Stage)
    ensures var (w', rc) := ShiftVerb(w, env, c, to);
            w'.stage == w.stage || (c in w.stage && w'.stage == w.stage[c := to])
  {
    hide Ask;
    AskStage(w, env);
    AskStage(Ask(w, env), env);
  }

  lemma EnableLawful(w: World, env: Env, c: CompId)
    ensures Lawful(w, EnableVerb(w, env, c).0)
  {
    hide Lawful, Leads, ShiftVerb;
    ShiftStage(w, env, c, Stage.Active);
    var w' := EnableVerb(w, env, c).0;
    if w'.stage == w.stage { LawfulSame(w, w'); } else { LawfulStep(w, w', c, Stage.Active); }
  }

  lemma DisableLawful(w: World, env: Env, c: CompId)
    ensures Lawful(w, DisableVerb(w, env, c).0)
  {
    hide Lawful, Leads, ShiftVerb;
    ShiftStage(w, env, c, Ready);
    var w' := DisableVerb(w, env, c).0;
    if w'.stage == w.stage { LawfulSame(w, w'); } else { LawfulStep(w, w', c, Ready); }
  }

  lemma DestroyLawful(w: World, env: Env, c: CompId)
    ensures Lawful(w, DestroyVerb(w, env, c).0)
  {
    hide Lawful, Leads, Ask, World.Bound;
    AskStage(w, env);
    var w' := DestroyVerb(w, env, c).0;
    if w'.stage == w.stage { LawfulSame(w, w'); } else { LawfulStep(w, w', c, Destroyed); }
  }

  // ---------------------------------------------------------------- the phases

  lemma {:induction false} PausesLawful(w: World, env: Env, order: seq<SlotId>)
    ensures Lawful(w, PausePhase(w, env, order).world)
  {
    hide Lawful, PauseVerb;
    if order == [] {
      LawfulSame(w, w);
    } else {
      var r, s := PausePhase(w, env, order[..|order| - 1]), order[|order| - 1];
      PausesLawful(w, env, order[..|order| - 1]);
      if r.rc == OK && r.world.Holds(s, Stage.Active) {
        PauseLawful(r.world, env, r.world.Active(s).value);
        LawfulOn(w, r.world, PauseVerb(r.world, env, r.world.Active(s).value).0);
      }
    }
  }

  lemma {:induction false} UnwindLawful(w: World, env: Env, order: seq<SlotId>)
    ensures Lawful(w, Unwind(w, env, order))
    decreases |order|
  {
    hide Lawful, ResumeVerb;
    LawfulSame(w, w);
    if order != [] {
      var s := order[|order| - 1];
      var w1 := UnwindOne(w, env, s);
      if w.Holds(s, Paused) { ResumeLawful(w, env, w.Active(s).value); }
      UnwindLawful(w1, env, order[..|order| - 1]);
      LawfulOn(w, w1, Unwind(w1, env, order[..|order| - 1]));
    }
  }

  lemma RetireLawful(w: World, env: Env, prior: Option<CompId>)
    ensures Lawful(w, Retire(w, env, prior)) && Lawful(w, Discard(w, env, prior))
  {
    hide Lawful, DisableVerb, DestroyVerb, World.Bound;
    LawfulSame(w, w);
    if prior.Some? {
      DisableLawful(w, env, prior.value);
      DestroyLawful(w, env, prior.value);
    }
  }

  lemma BindLawful(w: World, env: Env, s: SlotId, c: CompId)
    ensures Lawful(w, Bind(w, env, s, c))
  {
    hide Lawful, Ask;
    AskStage(w.(active := w.active[s := Some(c)]), env);
    LawfulSame(w, Bind(w, env, s, c));
  }

  lemma SwapOneLawful(w: World, env: Env, sc: SlotChange, prior: Option<CompId>)
    ensures Lawful(w, SwapOne(w, env, sc, prior))
  {
    hide Lawful, Retire, Bind, Discard;
    LawfulSame(w, w);
    if sc.replace && sc.slot.Some? && sc.newComp.Some? {
      var w1 := Retire(w, env, prior);
      var w2 := Bind(w1, env, sc.slot.value, sc.newComp.value);
      RetireLawful(w, env, prior);
      BindLawful(w1, env, sc.slot.value, sc.newComp.value);
      RetireLawful(w2, env, prior);
      LawfulOn(w, w1, w2);
      LawfulOn(w, w2, Discard(w2, env, prior));
    }
  }

  lemma {:induction false} SwapsLawful(w: World, env: Env, changes: seq<SlotChange>, olds: seq<Option<CompId>>)
    requires |olds| == |changes|
    ensures Lawful(w, SwapAll(w, env, changes, olds))
  {
    hide Lawful, SwapOne;
    LawfulSame(w, w);
    if changes != [] {
      var n := |changes| - 1;
      var w1 := SwapAll(w, env, changes[..n], olds[..n]);
      SwapsLawful(w, env, changes[..n], olds[..n]);
      SwapOneLawful(w1, env, changes[n], olds[n]);
      LawfulOn(w, w1, SwapOne(w1, env, changes[n], olds[n]));
    }
  }

  lemma ReviveOneLawful(w: World, env: Env, s: SlotId)
    ensures Lawful(w, ReviveOne(w, env, s))
  {
    hide Lawful, EnableVerb, ResumeVerb, Reopen;
    LawfulSame(w, w);
    if w.Active(s).Some? {
      var c := w.Active(s).value;
      var w1 := EnableVerb(w, env, c).0;
      EnableLawful(w, env, c);
      ResumeLawful(w, env, c);
      ReopenEffect(w1, env, s);
      LawfulSame(w1, Reopen(w1, env, s));
      LawfulOn(w, w1, Reopen(w1, env, s));
    }
  }

  lemma {:induction false} RevivesLawful(w: World, env: Env, order: seq<SlotId>)
    ensures Lawful(w, ReviveAll(w, env, order))
    decreases |order|
  {
    hide Lawful, ReviveOne;
    LawfulSame(w, w);
    if order != [] {
      var w1 := ReviveOne(w, env, order[|order| - 1]);
      ReviveOneLawful(w, env, order[|order| - 1]);
      RevivesLawful(w1, env, order[..|order| - 1]);
      LawfulOn(w, w1, ReviveAll(w1, env, order[..|order| - 1]));
    }
  }

  lemma {:induction false} NotifyStage(w: World, env: Env, conns: seq<Connection>, s: SlotId)
    ensures NotifyOne(w, env, conns, s).stage == w.stage
  {
    hide Ask;
    if conns != [] {
      NotifyStage(w, env, conns[..|conns| - 1], s);
      AskStage(NotifyOne(w, env, conns[..|conns| - 1], s), env);
    }
  }

  lemma {:induction false} NotifiesStage(w: World, env: Env, changes: seq<SlotChange>)
    ensures NotifyAll(w, env, changes).stage == w.stage
  {
    hide NotifyOne;
    if changes != [] {
      NotifiesStage(w, env, changes[..|changes| - 1]);
      var front, sc := NotifyAll(w, env, changes[..|changes| - 1]), changes[|changes| - 1];
      if sc.replace && sc.slot.Some? { NotifyStage(front, env, front.conns, sc.slot.value); }
    }
  }

  lemma CommitLawful(w: World, env: Env, plan: Plan, olds: seq<Option<CompId>>, order: seq<SlotId>)
    requires |olds| == |plan.changes|
    ensures Lawful(w, Commit(w, env, plan, olds, order))
  {
    hide Lawful, SwapAll, ReviveAll, NotifyAll, RemoveEdges, AddEdges;
    var w1 := w.(conns := RemoveEdges(w.conns, plan.connections));
    var w2 := SwapAll(w1, env, plan.changes, olds);
    var w3 := w2.(conns := AddEdges(w2.conns, w2.roster, plan.connections));
    var w4 := ReviveAll(w3, env, order);
    LawfulSame(w, w1);
    SwapsLawful(w1, env, plan.changes, olds);
    LawfulSame(w2, w3);
    RevivesLawful(w3, env, order);
    NotifiesStage(w4, env, plan.changes);
    LawfulSame(w4, NotifyAll(w4, env, plan.changes));
    LawfulOn(w, w1, w2);
    LawfulOn(w, w2, w3);
    LawfulOn(w, w3, w4);
    LawfulOn(w, w4, NotifyAll(w4, env, plan.changes));
  }

  /** A call, successful or rolled back, with any plan, order and callbacks, moves every
      component along the matrix; so a destroyed one stays destroyed. */
  lemma RunLawful(w: World, env: Env, plan: Plan, order: seq<SlotId>)
    ensures var w' := Run(w, env, plan, order).0;
            Lawful(w, w') && forall c | w.Is(c, Destroyed) :: w'.Is(c, Destroyed)
  {
    hide Lawful, PausePhase, Unwind, Commit, Leads;
    var r, w' := PausePhase(w, env, order), Run(w, env, plan, order).0;
    PausesLawful(w, env, order);
    if r.rc != OK {
      if r.reached <= |order| { UnwindLawful(r.world, env, order[..r.reached]); } else { LawfulSame(r.world, w'); }
    } else {
      CommitLawful(r.world, env, plan, OldComps(w, plan.changes), order);
    }
    LawfulOn(w, r.world, w');
    forall c | w.Is(c, Destroyed) ensures w'.Is(c, Destroyed) { StaysDestroyed(w, w', c); }
  }

  lemma StaysDestroyed(w: World, w': World, c: CompId)
    requires Lawful(w, w') && w.Is(c, Destroyed)
    ensures w'.Is(c, Destroyed)
  {
    var p :| LegalPath(p) && p[0] == Destroyed && p[|p| - 1] == w'.stage[c];
    assert |p| > 1 ==> Legal(p[0], p[1]);
  }
}
