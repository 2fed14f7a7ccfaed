/** What registering and unregistering a hook answer and do, at rest and during a dispatch
    (framework/hook.c), and what follows for the dispatches to come. */
module HookAnswers {
  import opened Composition
  import opened Sequences
  import opened Hooks

  /** On the chain of its point, dead or not. */
  predicate OnChain(st: State, h: HookId) {
    h in st.hooks && h in st.Chain(st.hooks[h].point)
  }

  /** `chain'` is `chain` with `h` put in behind everyone of no higher priority. */
  ghost predicate PutIn(st: State, chain: seq<HookId>, h: HookId, chain': seq<HookId>) {
    exists i :: 0 <= i <= |chain| && chain' == chain[..i] + [h] + chain[i..]
                && (forall k | 0 <= k < i :: st.Priority(chain[k]) <= st.Priority(h))
                && (forall k | i <= k < |chain| :: st.Priority(chain[k]) > st.Priority(h))
  }

  lemma SortedAfter(st: State, chain: seq<HookId>, i: nat, prio: int)
    requires Sorted(st, chain) && (i < |chain| ==> st.Priority(chain[i]) > prio)
    ensures forall k | i <= k < |chain| :: st.Priority(chain[k]) > prio
  {
    forall k | i <= k < |chain| ensures st.Priority(chain[k]) > prio {
      if k > i { assert Before(st, chain[i], chain[k]); }
    }
  }

  /** Registering: refused without a point or while on the chain; otherwise the hook is live,
      behind everyone of no higher priority, and nobody else is touched. */
  lemma RegisterAnswers(st: State, h: HookId)
    requires Inv(st)
    ensures var (st', rc) := Register(st, h);
            if h !in st.hooks then rc == EINVAL && st' == st
            else if OnChain(st, h) then rc == EEXIST && st' == st
            else
              && rc == OK && st'.frames == st.frames && st'.dead == st.dead && h !in st.dead
              && PutIn(st, st.Chain(st.hooks[h].point), h, st'.Chain(st.hooks[h].point))
              && (forall p: Point | p != st.hooks[h].point :: st'.Chain(p) == st.Chain(p))
              && forall g :: st'.Live(g) <==> st.Live(g) || g == h
  {
    hide Slot, Sorted, FramesOk;
    if h in st.hooks && !OnChain(st, h) {
      var p := st.hooks[h].point;
      var chain := st.Chain(p);
      assert ChainOk(st, p);
      var i := Slot(st, chain, st.hooks[h].priority);
      SlotIs(st, chain, st.hooks[h].priority);
      SortedAfter(st, chain, i, st.hooks[h].priority);
      InsertMembers(chain, i, h);
      var st' := Register(st, h).0;
      assert st'.Chain(p) == chain[..i] + [h] + chain[i..];
    }
  }

  /** Unregistering: nothing for a hook that is not on its chain; otherwise it is live no
      more, and nobody else is touched.  At rest it leaves its chain, the others in order;
      during a dispatch it stays there, dead. */
  lemma UnregisterAnswers(st: State, h: HookId)
    requires Inv(st)
    ensures var st' := Unregister(st, h);
            && (!OnChain(st, h) ==> st' == st)
            && st'.hooks == st.hooks && |st'.frames| == |st.frames|
            && !st'.Live(h) && (forall g | g != h :: st'.Live(g) <==> st.Live(g))
            && (OnChain(st, h) && st.frames != [] ==> st'.chains == st.chains && st'.dead == st.dead + {h})
            && (OnChain(st, h) && st.frames == [] ==>
                  var p := st.hooks[h].point;
                  && st'.dead == {} && h !in st'.Chain(p)
                  && (exists i :: 0 <= i < |st.Chain(p)| && st.Chain(p)[i] == h && st'.Chain(p) == st.Chain(p)[..i] + st.Chain(p)[i + 1..])
                  && forall q: Point | q != p :: st'.Chain(q) == st.Chain(q))
  {
    hide Sorted, FramesOk, Without;
    if OnChain(st, h) {
      var p := st.hooks[h].point;
      assert ChainOk(st, p);
      RemoveSorted(st, st.Chain(p), h);
      var k := RemoveAt(st.Chain(p), h);
    }
  }

  /** Once `nx_hook_unregister` has returned the hook is not called, in the dispatches under
      way or in any later one, until somebody registers it again. */
  lemma UnregisteredIsNotCalled(st: State, h: HookId, steps: seq<Step>)
    requires Inv(st) && st.UserRuns() && Reg(h) !in steps && Run(Unregister(st, h), steps).Some?
    ensures var last := Run(Unregister(st, h), steps).value;
            !last.Live(h) && (Enabled(last, Call) ==> last.Top().next != Some(h))
  {
    hide Inv, Unregister, State.Live, Run;
    InvKept(st, Unreg(h));
    UnregisterAnswers(st, h);
    NeverCalledOnceGone(Unregister(st, h), steps, h);
  }

  // ---------------------------------------------------------------- registering again

  /** After `nx_hook_register` the hook is live exactly if it has a point and no unregister of
      it is waiting for the end of a dispatch. */
  lemma RegisterMakesLive(st: State, h: HookId)
    requires Inv(st)
    ensures Register(st, h).0.Live(h) <==> h in st.hooks && h !in st.dead
  {
    hide Register, FramesOk, PutIn;
    RegisterAnswers(st, h);
  }

  /** Inside a dispatch, taking a hook off and putting it on again loses it: the second call
      is refused, and the hook is gone when the dispatch ends. */
  lemma AgainIsLost(st: State, h: HookId)
    requires Inv(st) && st.frames != [] && OnChain(st, h)
    ensures var st' := Unregister(st, h);
            Register(st', h) == (st', EEXIST) && !st'.Live(h)
  {
    hide FramesOk, Sorted;
    UnregisterAnswers(st, h);
  }

  /** At rest the same two calls leave it live. */
  lemma AgainAtRest(st: State, h: HookId)
    requires Inv(st) && st.frames == [] && OnChain(st, h)
    ensures var st' := Unregister(st, h); Register(st', h).1 == OK && Register(st', h).0.Live(h)
  {
    hide Register, Unregister, Inv, PutIn;
    UnregisterInv(st, h);
    UnregisterAnswers(st, h);
    RegisterAnswers(Unregister(st, h), h);
  }

  // ---------------------------------------------------------------- a run that loses a hook

  function Lone(chain: seq<HookId>, dead: set<HookId>, frames: seq<Frame>): State {
    State(map[7 := Hook(0, 0)], map[0 := chain], dead, frames, map[7 := 0], 1)
  }

  function Calling(steady: set<HookId>): Frame {
    Frame(0, None, Some(7), [7], steady)
  }

  /** One hook, whose callback unregisters and registers it: when the dispatch is over it is
      off its chain, though the last call on it was to register it. */
  lemma LosingRun()
    ensures var start := Lone([7], {}, []);
            && Inv(start)
            && Run(start, [Begin(0), Call, Unreg(7), Reg(7), Return(Continue), End]) == Some(Lone([], {}, []))
  {
    hide Inv, Next, Enabled, Run;
    var start := Lone([7], {}, []);
    LoneInv(start);
    var s1 := Lone([7], {}, [Frame(0, Some(7), None, [], {7})]);
    var s2, s3 := Lone([7], {}, [Calling({7})]), Lone([7], {7}, [Calling({})]);
    var s4 := Lone([7], {7}, [Frame(0, None, None, [7], {})]);
    LosingSteps();
    LosingEnd();
    var steps := [Begin(0), Call, Unreg(7), Reg(7), Return(Continue), End];
    assert steps[..0] == [] && steps[..6] == steps;
    RunNone(start);
    RunAt(start, steps, 0, start, s1);
    RunAt(start, steps, 1, s1, s2);
    RunAt(start, steps, 2, s2, s3);
    RunAt(start, steps, 3, s3, s3);
    RunAt(start, steps, 4, s3, s4);
    RunAt(start, steps, 5, s4, Lone([], {}, []));
  }

  predicate Goes(st: State, step: Step, last: State) {
    Enabled(st, step) && Next(st, step) == last
  }

  lemma RunNone(st: State)
    ensures Run(st, []) == Some(st)
  {
  }

  lemma LoneInv(st: State)
    requires st == Lone([7], {}, [])
    ensures Inv(st)
  {
    forall p: Point ensures ChainOk(st, p) {
      assert st.Chain(p) == [7] || st.Chain(p) == [];
    }
  }

  lemma LosingSteps()
    ensures Goes(Lone([7], {}, []), Begin(0), Lone([7], {}, [Frame(0, Some(7), None, [], {7})]))
    ensures Goes(Lone([7], {}, [Frame(0, Some(7), None, [], {7})]), Call, Lone([7], {}, [Calling({7})]))
    ensures Goes(Lone([7], {}, [Calling({7})]), Unreg(7), Lone([7], {7}, [Calling({})]))
  {
    var start := Lone([7], {}, []);
    var f := Begun(start, 0);
    assert start.Chain(0) == [7];
    assert 7 in f.steady && f.steady == {7};
    assert f == Frame(0, Some(7), None, [], {7});
    var s1, s2 := Lone([7], {}, [Frame(0, Some(7), None, [], {7})]), Lone([7], {}, [Calling({7})]);
    assert [7][1..] == [] && After([7], 7) == None;
    assert s1.Chain(0) == [7] && s1.Top() == Frame(0, Some(7), None, [], {7});
    assert [] + [7] == [7 as HookId];
    assert Next(s1, Call) == Retop(s1, Calling({7}));
    assert {7} - {7} == {};
    assert Unsteady(s2.frames, 7) == [Calling({})];
    assert Next(s2, Unreg(7)).dead == {7};
  }

  lemma LosingEnd()
    ensures Goes(Lone([7], {7}, [Calling({})]), Reg(7), Lone([7], {7}, [Calling({})]))
    ensures Goes(Lone([7], {7}, [Calling({})]), Return(Continue), Lone([7], {7}, [Frame(0, None, None, [7], {})]))
    ensures Goes(Lone([7], {7}, [Frame(0, None, None, [7], {})]), End, Lone([], {}, []))
  {
    var s3, s4 := Lone([7], {7}, [Calling({})]), Lone([7], {7}, [Frame(0, None, None, [7], {})]);
    assert Next(s3, Return(Continue)).frames == s4.frames;
    assert [7][..0] == [] && Alive([7][..0], {7}) == [] && Alive([7], {7}) == [];
    assert Next(s4, End).frames == [] && Next(s4, End).chains == map[0 := []];
  }

  lemma RunAt(st: State, steps: seq<Step>, i: nat, mid: State, last: State)
    requires i < |steps| && Run(st, steps[..i]) == Some(mid) && Goes(mid, steps[i], last)
    ensures Run(st, steps[..i + 1]) == Some(last)
  {
    hide Enabled, Next;
    assert steps[..i + 1][..i] == steps[..i];
  }
}
