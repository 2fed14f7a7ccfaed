/** When things happen during `nx_recompose`: a slot is drained only once everything in the
    plan that calls it is paused, and its held messages are replayed only once everything
    it calls is open again.  True of successful calls and of rolled back ones. */
module RecomposeOrder {
  import opened Composition
  import opened Sequences
  import opened Lifecycle
  import opened Recompose
  import opened RecomposeEffect
  import opened RecomposeSuccess
  import PauseOrder

  /** A drain comes after the pause of every earlier slot that was running; a replay
      after every later slot is open. */
  ghost predicate Ordered(w0: World, order: seq<SlotId>, e: Step) {
    && (e.Drain? ==>
          forall j, k | 0 <= j < k < |order| && order[k] == e.slot && w0.Holds(order[j], Stage.Active) :: order[j] in e.quiet)
    && (e.Replay? ==> forall j, k | 0 <= j < k < |order| && order[j] == e.slot :: order[k] in e.open)
  }

  ghost predicate OrderedSince(w0: World, order: seq<SlotId>, w: World, w': World) {
    w.trace <= w'.trace && forall e | e in Since(w, w') :: Ordered(w0, order, e)
  }

  lemma OrderedChain(w0: World, order: seq<SlotId>, a: World, b: World, c: World)
    requires OrderedSince(w0, order, a, b) && OrderedSince(w0, order, b, c)
    ensures OrderedSince(w0, order, a, c)
  {
    assert Since(a, c) == Since(a, b) + Since(b, c);
  }

  /** No other slot of the order shares the component of `s`; slots outside it may. */
  ghost predicate AloneIn(w: World, order: seq<SlotId>, s: SlotId) {
    forall t | t in order && t in w.active && w.active[t].Some? && w.active[t] == w.Active(s) :: t == s
  }

  /** The slots of the order: registered once, open, and sharing no component among them. */
  ghost predicate Separate(w: World, order: seq<SlotId>) {
    && Distinct(order)
    && forall s | s in order :: s in w.pause && s in w.active && w.pause[s] == Running && AloneIn(w, order, s)
  }

  // ---------------------------------------------------------------- the pause phase

  lemma OnlyBound(w: World, order: seq<SlotId>, s: SlotId, c: CompId)
    requires w.Valid() && s in w.active && w.active[s] == Some(c) && AloneIn(w, order, s)
    ensures forall t | t in w.Bound(c) && t in order :: t == s
  {
    assert forall t | t in w.Bound(c) :: t in w.active && w.active[t] == Some(c) by {
      assert forall t | t in w.roster :: t in Elements(w.roster);
    }
  }

  lemma HaltedIsEarlier(w: World, order: seq<SlotId>, n: nat, k: nat)
    requires Separate(w, order) && n <= |order| && k < |order|
    requires BoundTo(w, order[k], Halting(w, order[..n]))
    ensures k < n
  {
    assert order[k] in order;
    var t :| t in order[..n] && w.Holds(t, Stage.Active) && w.Active(t) == w.Active(order[k]);
    var j :| 0 <= j < n && order[j] == t;
    assert order[j] in order;
    assert t == order[k];
  }

  /** With the first `n` slots halted, the earlier running ones are DONE and the rest open. */
  lemma HaltedProgress(w0: World, w: World, order: seq<SlotId>, n: nat, hs: set<CompId>)
    requires Settled(w0) && Separate(w0, order) && n <= |order|
    requires Halted(w0, w, hs) && hs <= Halting(w0, order[..n])
    ensures hs == Halting(w0, order[..n]) ==>
              forall j | 0 <= j < n && w0.Holds(order[j], Stage.Active) :: order[j] in w.SlotsAt(Done)
    ensures forall k | n <= k < |order| :: order[k] in w.SlotsAt(Running)
  {
    forall j | 0 <= j < n && w0.Holds(order[j], Stage.Active) && hs == Halting(w0, order[..n])
      ensures order[j] in w.SlotsAt(Done)
    {
      assert order[..n][j] == order[j] && order[j] in order;
      assert BoundTo(w0, order[j], hs);
    }
    forall k | n <= k < |order| ensures order[k] in w.SlotsAt(Running) {
      assert order[k] in order;
      if BoundTo(w0, order[k], hs) {
        HaltedIsEarlier(w0, order, n, k);
      }
    }
  }

  lemma {:induction false} PausesInOrder(w: World, env: Env, order: seq<SlotId>, n: nat)
    requires Settled(w) && Separate(w, order) && n <= |order|
    ensures OrderedSince(w, order, w, PausePhase(w, env, order[..n]).world)
  {
    if n > 0 {
      assert order[..n][..n - 1] == order[..n - 1];
      PausesInOrder(w, env, order, n - 1);
      var r := PausePhase(w, env, order[..n - 1]);
      PausePhaseHalts(w, env, order[..n - 1]);
      if r.rc == OK && r.world.Holds(order[n - 1], Stage.Active) {
        assert order[..n - 1][..n - 1] == order[..n - 1];
        PauseInOrder(w, r.world, env, order, n - 1);
        OrderedChain(w, order, w, r.world, PauseVerb(r.world, env, r.world.Active(order[n - 1]).value).0);
      }
    }
  }

  lemma PauseInOrder(w0: World, w: World, env: Env, order: seq<SlotId>, n: nat)
    requires Settled(w0) && Separate(w0, order) && n < |order|
    requires Halted(w0, w, Halting(w0, order[..n])) && w.Holds(order[n], Stage.Active)
    ensures OrderedSince(w0, order, w, PauseVerb(w, env, w.Active(order[n]).value).0)
  {
    var s, c := order[n], w.Active(order[n]).value;
    PauseTrace(w, env, c);
    HaltedProgress(w0, w, order, n, Halting(w0, order[..n]));
    assert s in order;
    OnlyBound(w, order, s, c);
    var bs, w' := w.Bound(c), PauseVerb(w, env, c).0;
    forall e | e in Since(w, w') ensures Ordered(w0, order, e) {
      assert Fits(e, bs, w.SlotsAt(Done) - Elements(bs), w.SlotsAt(Running) - Elements(bs));
      forall j | 0 <= j < |order| && j != n ensures order[j] in order && order[j] !in Elements(bs) { assert order[j] in order; }
    }
  }

  // ---------------------------------------------------------------- rolling back

  lemma ResumeInOrder(w0: World, w: World, env: Env, order: seq<SlotId>, n: nat)
    requires n < |order| && Distinct(order)
    requires w.Valid() && order[n] in w.active && w.Holds(order[n], Paused) && AloneIn(w, order, order[n]) && AllWell(env, w.now)
    requires forall k | n < k < |order| :: order[k] in w.SlotsAt(Running)
    ensures OrderedSince(w0, order, w, ResumeVerb(w, env, w.Active(order[n]).value).0)
  {
    var s, c := order[n], w.Active(order[n]).value;
    ResumeEffect(w, env, c);
    OnlyBound(w, order, s, c);
    var w' := ResumeVerb(w, env, c).0;
    forall e | e in Since(w, w') ensures Ordered(w0, order, e) {
      assert Fits(e, w.Bound(c), {}, w.SlotsAt(Running));
    }
  }

  lemma HaltedValid(w0: World, w: World, hs: set<CompId>)
    requires w0.Valid() && Halted(w0, w, hs)
    ensures w.Valid()
  {
  }

  lemma UnwindOneInOrder(w0: World, w: World, env: Env, order: seq<SlotId>, n: nat, hs: set<CompId>) returns (hs': set<CompId>)
    requires Settled(w0) && Separate(w0, order) && n < |order| && !w0.Holds(order[n], Paused)
    requires Halted(w0, w, hs) && hs <= Halting(w0, order[..n + 1]) && AllWell(env, w.now)
    ensures var w1 := UnwindOne(w, env, order[n]);
            && OrderedSince(w0, order, w, w1) && w1.now >= w.now
            && Halted(w0, w1, hs') && hs' <= Halting(w0, order[..n])
  {
    var s := order[n];
    assert s in order && order[..n + 1] == order[..n] + [s];
    HaltedProgress(w0, w, order, n + 1, hs);
    HaltedValid(w0, w, hs);
    if w.Holds(s, Paused) {
      ResumeInOrder(w0, w, env, order, n);
    }
    hs' := UnwindStep(w0, w, env, order[..n], s, hs);
  }

  lemma {:induction false} UnwindsInOrder(w0: World, w: World, env: Env, order: seq<SlotId>, n: nat, hs: set<CompId>)
    requires Settled(w0) && Separate(w0, order) && n <= |order|
    requires forall s | s in order :: !w0.Holds(s, Paused)
    requires Halted(w0, w, hs) && hs <= Halting(w0, order[..n]) && AllWell(env, w.now)
    ensures OrderedSince(w0, order, w, Unwind(w, env, order[..n]))
    decreases n
  {
    if n > 0 {
      assert order[n - 1] in order && order[..n][..n - 1] == order[..n - 1];
      var hs' := UnwindOneInOrder(w0, w, env, order, n - 1, hs);
      var w1 := UnwindOne(w, env, order[n - 1]);
      UnwindsInOrder(w0, w1, env, order, n - 1, hs');
      OrderedChain(w0, order, w, w1, Unwind(w1, env, order[..n - 1]));
    }
  }

  // ---------------------------------------------------------------- resuming

  /** Every slot of the order is open or holds someone about to wake, alone. */
  ghost predicate Poised(m: World, order: seq<SlotId>) {
    && m.Valid() && Distinct(order) && Revivable(m, order)
    && forall s | s in order :: AloneIn(m, order, s) && s in m.pause && (m.pause[s] == Running || Asleep(m, s))
  }

  lemma RevivedProgress(m: World, w: World, order: seq<SlotId>, n: nat, rs: set<CompId>)
    requires Poised(m, order) && Revived(m, w, rs) && n <= |order| && Waking(m, order[n..]) <= rs
    ensures forall k | n <= k < |order| :: order[k] in w.SlotsAt(Running)
  {
    forall k | n <= k < |order| ensures order[k] in w.SlotsAt(Running) {
      assert order[k] in order && order[n..][k - n] == order[k];
      if Asleep(m, order[k]) {
        assert m.Active(order[k]).value in Waking(m, order[n..]);
      }
    }
  }

  lemma EnableInOrder(w0: World, w: World, env: Env, order: seq<SlotId>, n: nat)
    requires n < |order| && Distinct(order)
    requires order[n] in w.active && w.Holds(order[n], Ready) && AllWell(env, w.now)
    requires forall k | n < k < |order| :: order[k] in w.SlotsAt(Running)
    ensures OrderedSince(w0, order, w, ReviveOne(w, env, order[n]))
  {
    var s, c := order[n], w.Active(order[n]).value;
    ShiftEffect(w, env, c, Stage.Active);
    var w1 := EnableVerb(w, env, c).0;
    ReopenEffect(w1, env, s);
    var w' := Reopen(w1, env, s);
    assert Since(w, w') == [Replay(s, w1.Held(s), w'.SlotsAt(Running))];
    assert s in order;
  }

  lemma ReviveInOrder(w0: World, m: World, w: World, env: Env, order: seq<SlotId>, n: nat, rs: set<CompId>)
    requires n < |order| && Poised(m, order) && Revived(m, w, rs) && AllWell(env, w.now)
    requires Waking(m, order[n + 1..]) <= rs
    ensures OrderedSince(w0, order, w, ReviveOne(w, env, order[n]))
  {
    RevivedProgress(m, w, order, n + 1, rs);
    RevivedValid(m, w, rs);
    assert order[n] in order;
    if w.Holds(order[n], Ready) {
      EnableInOrder(w0, w, env, order, n);
    } else if w.Holds(order[n], Paused) {
      ResumeInOrder(w0, w, env, order, n);
    }
  }

  lemma WakingFront(m: World, order: seq<SlotId>, n: nat, rs: set<CompId>)
    requires n < |order| && Waking(m, order[n + 1..]) <= rs
    requires Asleep(m, order[n]) ==> m.Active(order[n]).value in rs
    ensures Waking(m, order[n..]) <= rs
  {
    forall c | c in Waking(m, order[n..]) ensures c in rs {
      var s :| s in order[n..] && Asleep(m, s) && m.Active(s).value == c;
      if s != order[n] {
        var k :| n <= k < |order| && order[k] == s;
        assert order[n + 1..][k - n - 1] == s;
      }
    }
  }

  lemma ReviveOneInOrder(w0: World, m: World, w: World, env: Env, order: seq<SlotId>, n: nat, rs: set<CompId>)
    returns (rs': set<CompId>)
    requires n < |order| && Poised(m, order) && Revived(m, w, rs) && AllWell(env, w.now)
    requires Waking(m, order[n + 1..]) <= rs
    ensures var w1 := ReviveOne(w, env, order[n]);
            && OrderedSince(w0, order, w, w1) && w1.now >= w.now
            && Revived(m, w1, rs') && Waking(m, order[n..]) <= rs'
  {
    assert order[n] in order;
    ReviveInOrder(w0, m, w, env, order, n, rs);
    RevivedValid(m, w, rs);
    rs' := ReviveStep(m, w, env, order[n], rs);
    WakingFront(m, order, n, rs');
  }

  lemma {:induction false} RevivesInOrder(w0: World, m: World, w: World, env: Env, order: seq<SlotId>, n: nat, rs: set<CompId>)
    requires n <= |order| && Poised(m, order) && Revived(m, w, rs) && AllWell(env, w.now)
    requires Waking(m, order[n..]) <= rs
    ensures OrderedSince(w0, order, w, ReviveAll(w, env, order[..n]))
    decreases n
  {
    if n > 0 {
      assert order[..n][..n - 1] == order[..n - 1];
      var rs' := ReviveOneInOrder(w0, m, w, env, order, n - 1, rs);
      var w1 := ReviveOne(w, env, order[n - 1]);
      RevivesInOrder(w0, m, w1, env, order, n - 1, rs');
      OrderedChain(w0, order, w, w1, ReviveAll(w1, env, order[..n - 1]));
    }
  }

  // ---------------------------------------------------------------- the theorem

  lemma MidwayPoised(w: World, changes: seq<SlotChange>, order: seq<SlotId>, m: World)
    requires Prepared(w, changes, order) && Separate(w, order) && Midway(w, Halting(w, order), changes, m)
    ensures Poised(m, order)
  {
    MidwayRevivable(w, changes, order, Halting(w, order), m);
    forall s | s in order
      ensures AloneIn(m, order, s) && s in m.pause && (m.pause[s] == Running || Asleep(m, s))
    {
      if Incoming(changes, s).Some? {
        MidwayNewcomer(w, Halting(w, order), changes, m, s);
      } else {
        MidwayBystander(w, changes, order, Halting(w, order), m, s);
        MidwayAlone(w, changes, order, m, s);
      }
    }
  }

  lemma MidwayAlone(w: World, changes: seq<SlotChange>, order: seq<SlotId>, m: World, s: SlotId)
    requires CleanPlan(w, changes) && s in w.active && Incoming(changes, s).None? && AloneIn(w, order, s)
    requires m.active == (map t | t in w.active :: if Incoming(changes, t).Some? then Incoming(changes, t) else w.active[t])
    ensures AloneIn(m, order, s)
  {
    forall t | t in order && t in m.active && m.active[t].Some? && m.active[t] == m.Active(s) ensures t == s {
      if Incoming(changes, t).Some? {
        NewcomerFacts(w, changes, t);
      }
    }
  }

  lemma CommitInOrder(w: World, env: Env, plan: Plan, order: seq<SlotId>, w1: World)
    requires Prepared(w, plan.changes, order) && Separate(w, order)
    requires Halted(w, w1, Halting(w, order)) && AllWell(env, w1.now)
    ensures OrderedSince(w, order, w1, Commit(w1, env, plan, OldComps(w, plan.changes), order))
  {
    var hs, olds := Halting(w, order), OldComps(w, plan.changes);
    var w2 := w1.(conns := RemoveEdges(w1.conns, plan.connections));
    PausedStaysClean(w, hs, w1, plan.changes);
    CleanIgnoresEdges(w1, w2, plan.changes);
    SwapAllEffect(w2, env, plan.changes, olds);
    var m := SwapAll(w2, env, plan.changes, olds);
    SwapReachesMidway(w, hs, plan.changes, w2, m);
    FinishInOrder(w, env, plan, order, m);
  }

  lemma FinishInOrder(w: World, env: Env, plan: Plan, order: seq<SlotId>, m: World)
    requires Prepared(w, plan.changes, order) && Separate(w, order)
    requires Midway(w, Halting(w, order), plan.changes, m) && AllWell(env, m.now)
    ensures var m' := m.(conns := AddEdges(m.conns, m.roster, plan.connections));
            OrderedSince(w, order, m, NotifyAll(ReviveAll(m', env, order), env, plan.changes))
  {
    hide Prepared, Separate, Poised, Revived, ReviveAll, NotifyAll, AddEdges, Ordered;
    var m' := m.(conns := AddEdges(m.conns, m.roster, plan.connections));
    MidwayPoised(w, plan.changes, order, m');
    assert order[..|order|] == order && Waking(m', order[|order|..]) == {};
    RevivedNobody(m');
    RevivesInOrder(w, m', m', env, order, |order|, {});
    NotifyAllQuiet(ReviveAll(m', env, order), env, plan.changes);
  }

  /** Every drain and every replay of a call, successful or rolled back, comes in order. */
  lemma RunInOrder(w: World, env: Env, plan: Plan, order: seq<SlotId>)
    requires Prepared(w, plan.changes, order) && Separate(w, order)
    requires AllWell(env, PausePhase(w, env, order).world.now)
    ensures OrderedSince(w, order, w, Run(w, env, plan, order).0)
  {
    var r := PausePhase(w, env, order);
    assert order[..|order|] == order;
    PausesInOrder(w, env, order, |order|);
    PausePhaseHalts(w, env, order);
    if r.rc == OK {
      CommitInOrder(w, env, plan, order, r.world);
    } else {
      UnwindsInOrder(w, r.world, env, order, r.reached, Halting(w, order[..r.reached]));
    }
    OrderedChain(w, order, w, r.world, Run(w, env, plan, order).0);
  }

  /** The same in terms of the registry's edges: for `u` calling `v` in the plan, `v` is
      drained after `u` is paused, and `u` is replayed after `v` is open. */
  lemma EdgesInOrder(w: World, order: seq<SlotId>, found: seq<SlotId>, e: Step, u: SlotId, v: SlotId)
    requires Distinct(found) && PauseOrder.DependentsFirst(found, w.conns, order)
    requires (u, v) in PauseOrder.PlanEdges(found, w.conns) && Ordered(w, order, e)
    ensures e.Drain? && e.slot == v && w.Holds(u, Stage.Active) ==> u in e.quiet
    ensures e.Replay? && e.slot == u ==> v in e.open
  {
    assert u in multiset(found) && v in multiset(found);
    assert u in order && v in order;
    var a :| 0 <= a < |order| && order[a] == u;
    var b :| 0 <= b < |order| && order[b] == v;
    assert a < b;
  }
}
