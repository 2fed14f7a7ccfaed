/** A flush whose slot is paused again while it runs: it replays into the hold queue.  Whether
    it ever ends depends on where its pointer stands. */
module RouterEndless {
  import opened Composition
  import opened Router
  import opened RouterTidy

  /** No hook vetoes messages to the slot. */
  ghost predicate Admits(env: Env, dst: SlotId) {
    forall t: nat, m: Msg | m.dst == Some(dst) :: !env.abort(t, m)
  }

  /** The flush on top has the processor, and its slot is paused: nothing it does runs a handler. */
  ghost predicate Stranded(st: State) {
    && Tidy(st) && st.frames != [] && st.Top().Flushing? && Stands(st.holds, st.Top().at)
    && st.Pause(st.Top().dst) != Running
  }

  /** What a flush does next. */
  function FlushStep(st: State): Step
    requires st.frames != [] && st.Top().Flushing?
  {
    if st.Top().queue != [] then Again
    else if Reach(st.holds, st.Top().at) >= |st.holds| then Close
    else if st.holds[Reach(st.holds, st.Top().at)].dst == st.Top().dst then Detach
    else Pass
  }

  /** The pointer is at the head of the list, and the next entry found there, once the queue
      in hand has been held again, is one for the slot. */
  predicate Circles(st: State)
    requires st.frames != [] && st.Top().Flushing?
  {
    var f := st.Top();
    && f.at.None?
    && if f.queue == [] then st.holds != [] && st.holds[0].dst == f.dst
       else FindHold(st.holds, f.src, f.dst) == |st.holds| || st.holds[0].dst == f.dst
  }

  /** Left to itself the flush closes within `n` steps. */
  predicate Closes(st: State, env: Env, n: nat)
    requires st.frames != [] && st.Top().Flushing?
    decreases n
  {
    && n > 0 && Enabled(st, FlushStep(st))
    && (FlushStep(st) == Close ||
        var st' := Next(st, env, FlushStep(st));
        st'.frames != [] && st'.Top().Flushing? && Closes(st', env, n - 1))
  }

  // ---------------------------------------------------------------- one step

  /** In a flush that is stranded there is exactly one way to go on. */
  lemma StepIsEnabled(st: State)
    requires Stranded(st)
    ensures Enabled(st, FlushStep(st))
    ensures forall step :: Enabled(st, step) ==> step == FlushStep(st)
  {
    hide Tidy, Place;
    ReachAtMost(st.holds, st.Top().at);
  }

  lemma ReachAtMost(holds: seq<Hold>, at: Option<nat>)
    requires Stands(holds, at)
    ensures Reach(holds, at) <= |holds|
  {
    hide Place;
  }

  /** A message replayed to the paused slot is held again. */
  lemma {:induction false} AgainHolds(st: State, env: Env)
    requires Stranded(st) && Admits(env, st.Top().dst) && st.Top().queue != []
    ensures var m := st.Top().queue[0];
            && m.src == Some(st.Top().src) && m.dst == Some(st.Top().dst)
            && AgainOne(st, env) == Kept(Shifted(st), m).(now := st.now + 1)
  {
    hide Tidy, CapsAllowed, FindEdge, Place, HoldMsg, FindHold;
    ShiftTidy(st);
    var m, st1 := st.Top().queue[0], Shifted(st);
    assert Decide(st1, env, m, 0, st1.now) == Stop(HoldIt, 1);
  }

  lemma {:induction false} AgainPointer(st: State, env: Env)
    requires Stranded(st) && Admits(env, st.Top().dst) && st.Top().queue != []
    ensures var st', f := AgainOne(st, env), st.Top();
            && st'.frames == st.frames[|st.frames| - 1 := f.(queue := f.queue[1..])] && st'.pause == st.pause
            && |st.holds| <= |st'.holds| <= |st.holds| + 1
            && (|st'.holds| == |st.holds| <==> FindHold(st.holds, f.src, f.dst) < |st.holds|)
            && Stands(st'.holds, f.at)
            && Reach(st'.holds, f.at) == (if f.at.None? then 0 else Reach(st.holds, f.at) + |st'.holds| - |st.holds|)
            && FindHold(st'.holds, f.src, f.dst) < |st'.holds|
            && (|st'.holds| == |st.holds| ==> forall k | 0 <= k < |st.holds| :: st'.holds[k].dst == st.holds[k].dst)
            && (|st'.holds| > |st.holds| ==> st'.holds[0].dst == f.dst)
  {
    hide InboxesFiled, HoldsFiled, PairFiled, AllServed, Place, FindHold, AgainOne;
    AgainHolds(st, env);
    var f, m, st1 := st.Top(), st.Top().queue[0], Shifted(st);
    assert FrameOk(st, |st.frames| - 1);
    KeptReach(st1, m, f.at);
    FindHoldIs(st.holds, f.src, f.dst);
    var holds' := Kept(st1, m).holds;
    FindHoldIs(holds', f.src, f.dst);
    var i := FindHold(st.holds, f.src, f.dst);
    assert i < |st.holds| ==> Keyed(holds'[i], f.src, f.dst);
    assert i == |st.holds| ==> Keyed(holds'[0], f.src, f.dst);
  }

  lemma StrandedNext(st: State, env: Env)
    requires Stranded(st) && Admits(env, st.Top().dst) && FlushStep(st) != Close
    ensures Enabled(st, FlushStep(st))
    ensures var st' := Next(st, env, FlushStep(st));
            Stranded(st') && st'.Top().dst == st.Top().dst
  {
    hide Tidy, Place, AgainOne, Less;
    StepIsEnabled(st);
    StepTidy(st, env, FlushStep(st));
    match FlushStep(st) {
      case Again => AgainPointer(st, env);
      case Detach =>
        TidyHolds(st);
        if st.Top().at.Some? {
          LessPlace(st.holds, Reach(st.holds, st.Top().at), st.Top().at.value);
          LessSize(st.holds, Reach(st.holds, st.Top().at));
        }
      case Pass =>
        TidyHolds(st);
        PlaceAt(st.holds, Reach(st.holds, st.Top().at));
    }
  }

  // ---------------------------------------------------------------- endless

  /** What is found at the head comes back to the head. */
  lemma CirclesOn(st: State, env: Env)
    requires Stranded(st) && Admits(env, st.Top().dst) && Circles(st)
    ensures FlushStep(st) != Close && Enabled(st, FlushStep(st))
    ensures var st' := Next(st, env, FlushStep(st));
            Stranded(st') && st'.Top().dst == st.Top().dst && Circles(st')
  {
    hide Tidy, Place, AgainOne, FindHold;
    StrandedNext(st, env);
    if st.Top().queue != [] {
      AgainPointer(st, env);
    } else {
      TidyHolds(st);
      EntryFiled(st, 0);
      DetachedPair(st.holds, 0);
    }
  }

  /** A detached entry was the only one of its pair. */
  lemma DetachedPair(holds: seq<Hold>, r: nat)
    requires Others(holds) && r < |holds|
    ensures FindHold(Less(holds, r), holds[r].src, holds[r].dst) == |holds| - 1
  {
    hide FindHold, Others;
    LessSize(holds, r);
    FindHoldIs(Less(holds, r), holds[r].src, holds[r].dst);
    var i := FindHold(Less(holds, r), holds[r].src, holds[r].dst);
    if i < |holds| - 1 {
      OthersDiffer(holds, r, Less(holds, r)[i]);
      assert false;
    }
  }

  lemma {:induction false} NeverCloses(st: State, env: Env, n: nat)
    requires Stranded(st) && Admits(env, st.Top().dst) && Circles(st)
    ensures !Closes(st, env, n)
    decreases n
  {
    hide Tidy, Place, Admits, Circles, Next, Enabled, FlushStep;
    CirclesOn(st, env);
    if n > 0 { NeverCloses(Next(st, env, FlushStep(st)), env, n - 1); }
  }

  // ---------------------------------------------------------------- ending

  /** Further on than the head, or with another slot's entry there, every entry is met once. */
  lemma {:induction false} ClosesWithin(st: State, env: Env) returns (n: nat)
    requires Stranded(st) && Admits(env, st.Top().dst) && !Circles(st)
    ensures Closes(st, env, n)
    decreases |st.holds| - Reach(st.holds, st.Top().at), |st.Top().queue|
  {
    hide Tidy, Place, AgainOne, FindHold, Less, Admits;
    StepIsEnabled(st);
    if FlushStep(st) == Close {
      n := 1;
    } else {
      var st' := Next(st, env, FlushStep(st));
      StrandedNext(st, env);
      GoesOn(st, env);
      ReachAtMost(st'.holds, st'.Top().at);
      var k := ClosesWithin(st', env);
      n := k + 1;
    }
  }

  /** Each step leaves less of the list ahead, or as much and less in hand. */
  lemma {:induction false} GoesOn(st: State, env: Env)
    requires Stranded(st) && Admits(env, st.Top().dst) && !Circles(st) && FlushStep(st) != Close
    ensures Enabled(st, FlushStep(st))
    ensures var st' := Next(st, env, FlushStep(st));
            && st'.frames != [] && st'.Top().Flushing? && !Circles(st')
            && var a, b := |st.holds| - Reach(st.holds, st.Top().at), |st'.holds| - Reach(st'.holds, st'.Top().at);
               b < a || (b == a && |st'.Top().queue| < |st.Top().queue|)
  {
    hide Tidy, Place, AgainOne, FindHold, Less;
    StepIsEnabled(st);
    var r := Reach(st.holds, st.Top().at);
    match FlushStep(st) {
      case Again => AgainPointer(st, env);
      case Detach =>
        TidyHolds(st);
        LessSize(st.holds, r);
        if st.Top().at.Some? { LessPlace(st.holds, r, st.Top().at.value); }
      case Pass =>
        TidyHolds(st);
        PlaceAt(st.holds, r);
    }
  }

  /** Exactly when a flush whose slot is paused under it comes to an end: unless it stands at
      the head of the list and what it finds there is for its slot. */
  lemma EndsExactly(st: State, env: Env)
    requires Stranded(st) && Admits(env, st.Top().dst)
    ensures (exists n: nat :: Closes(st, env, n)) <==> !Circles(st)
  {
    hide Tidy, Place, Admits, Circles, Closes;
    if Circles(st) {
      forall n: nat ensures !Closes(st, env, n) { NeverCloses(st, env, n); }
    } else {
      var n := ClosesWithin(st, env);
    }
  }
}
