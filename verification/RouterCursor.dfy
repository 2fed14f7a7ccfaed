/** The pointer a flush keeps into the list of hold entries while handlers run: exactly when
    it is left pointing into an entry that is gone. */
module RouterCursor {
  import opened Composition
  import opened Sequences
  import opened Router
  import opened RouterTidy
  import opened RouterOrder

  /** Flush `i` points to the link of an entry that was taken off the list, and freed. */
  predicate Loose(st: State, i: nat) {
    i < |st.frames| && st.frames[i].Flushing? && !Stands(st.holds, st.frames[i].at)
  }

  /** Flush `i` stands behind an entry for slot `c`. */
  predicate Behind(st: State, i: nat, c: SlotId) {
    && i < |st.frames| && st.frames[i].Flushing? && st.frames[i].at.Some?
    && var p := Place(st.holds, st.frames[i].at.value); p < |st.holds| && st.holds[p].dst == c
  }

  /** Flush `j`, further up, is on its way to the entry flush `i` stands behind, to take it. */
  predicate Stalks(st: State, i: nat, j: nat) {
    && i < j < |st.frames| && st.frames[j].Flushing? && Behind(st, i, st.frames[j].dst)
    && Stands(st.holds, st.frames[j].at) && Reach(st.holds, st.frames[j].at) <= Place(st.holds, st.frames[i].at.value)
  }

  /** Some flush points, or is going to point, into an entry that is gone. */
  ghost predicate Doomed(st: State) {
    (exists i: nat :: Loose(st, i)) || exists i: nat, j: nat :: Stalks(st, i, j)
  }

  /** No slot is reopened while a flush stands behind an entry for it. */
  ghost predicate Clear(st: State, step: Step) {
    step.Open? ==> !exists i: nat :: Behind(st, i, step.slot)
  }

  // ---------------------------------------------------------------- step by step

  /** The flushes and their pointers are the same, whatever they have left. */
  ghost predicate SamePointers(st: State, st': State) {
    && st'.holds == st.holds && |st'.frames| == |st.frames|
    && forall i | 0 <= i < |st.frames| ::
         && st'.frames[i].Flushing? == st.frames[i].Flushing?
         && (st.frames[i].Flushing? ==> st'.frames[i].dst == st.frames[i].dst && st'.frames[i].at == st.frames[i].at)
  }

  lemma SameDoom(st: State, st': State)
    requires SamePointers(st, st')
    ensures Doomed(st') <==> Doomed(st)
  {
    hide Place, Reach;
    forall i: nat ensures Loose(st', i) <==> Loose(st, i) { }
    forall i: nat, j: nat ensures Stalks(st', i, j) <==> Stalks(st, i, j) { }
  }

  /** A handler starts or returns. */
  lemma HandlerDoom(st: State, st': State)
    requires st'.holds == st.holds && st'.frames == st.frames + [Handling]
    ensures Doomed(st') <==> Doomed(st)
  {
    hide Place, Reach;
    forall i: nat ensures Loose(st', i) <==> Loose(st, i) { }
    forall i: nat, j: nat ensures Stalks(st', i, j) <==> Stalks(st, i, j) { }
  }

  /** A reopened slot's flush stalks every flush that stands behind an entry for it. */
  lemma OpenDoom(st: State, s: SlotId)
    ensures Doomed(Opened(st, s)) <==> Doomed(st) || exists i: nat :: Behind(st, i, s)
  {
    hide Place;
    var st' := Opened(st, s);
    forall i: nat ensures Loose(st', i) <==> Loose(st, i) { }
    forall i: nat, j: nat ensures Stalks(st', i, j) <==> Stalks(st, i, j) || (j == |st.frames| && Behind(st, i, s)) { }
    if i: nat :| Behind(st, i, s) { assert Stalks(st', i, |st.frames|); }
  }

  /** A flush ends only at the end of the list: whatever it was on its way to is gone. */
  lemma CloseDoom(st: State)
    requires Enabled(st, Close)
    ensures Doomed(Unframed(st)) <==> Doomed(st)
  {
    hide Place;
    var st' := Unframed(st);
    forall i: nat ensures Loose(st', i) <==> Loose(st, i) { }
    forall i: nat, j: nat ensures Stalks(st', i, j) <==> Stalks(st, i, j) { }
  }

  /** A flush does not go past what it is on its way to. */
  lemma PassDoom(st: State)
    requires Tidy(st) && Enabled(st, Pass)
    ensures Doomed(PassOne(st)) <==> Doomed(st)
  {
    hide Place, Tidy;
    var st', r := PassOne(st), Reach(st.holds, st.Top().at);
    TidyHolds(st);
    PlaceAt(st.holds, r);
    forall i: nat ensures Loose(st', i) <==> Loose(st, i) { }
    forall i: nat, j: nat ensures Stalks(st', i, j) <==> Stalks(st, i, j) { }
  }

  /** A message is held: entries keep their places, counted from the end. */
  lemma {:induction false} KeptDoom(st: State, m: Msg)
    requires Tidy(st) && m.src.Some? && m.dst.Some?
    ensures Doomed(Kept(st, m)) <==> Doomed(st)
  {
    hide Place, Tidy, Kept, Reach, Stands;
    var st' := Kept(st, m);
    KeptFrames(st, m);
    forall i: nat ensures Loose(st', i) <==> Loose(st, i) { if i < |st.frames| { KeptPointer(st, m, i); } }
    forall i: nat, j: nat ensures Stalks(st', i, j) <==> Stalks(st, i, j) {
      if i < j < |st.frames| {
        KeptPointer(st, m, i);
        KeptPointer(st, m, j);
      }
    }
  }

  lemma KeptFrames(st: State, m: Msg)
    ensures Kept(st, m).frames == st.frames
  {
    hide FindHold, HoldMsg;
  }

  lemma {:induction false} KeptPointer(st: State, m: Msg, i: nat)
    requires Tidy(st) && m.src.Some? && m.dst.Some? && i < |st.frames|
    ensures var f, holds, holds' := st.frames[i], st.holds, Kept(st, m).holds;
            f.Flushing? ==>
              && (Stands(holds', f.at) <==> Stands(holds, f.at))
              && (forall c: SlotId :: Behind(Kept(st, m), i, c) <==> Behind(st, i, c))
              && (if f.at.None? then Reach(holds', f.at) == Reach(holds, f.at) == 0
                  else Reach(holds', f.at) == Reach(holds, f.at) + |holds'| - |holds|)
              && (f.at.Some? ==> Place(holds', f.at.value) == Place(holds, f.at.value) + |holds'| - |holds|)
              && |holds| <= |holds'|
  {
    hide InboxesFiled, HoldsFiled, PairFiled, AllServed, Place, FindHold, HoldMsg;
    var f := st.frames[i];
    if f.Flushing? {
      assert FrameOk(st, i);
      KeptReach(st, m, f.at);
      if f.at.Some? && Place(st.holds, f.at.value) < |st.holds| {
        HoldMsgAt(st.holds, st.made, m.src.value, m.dst.value, m, Place(Kept(st, m).holds, f.at.value));
      }
    }
  }

  /** An entry goes off the list: whoever stood behind it was stalked. */
  lemma {:induction false} DetachDoom(st: State)
    requires Tidy(st) && Enabled(st, Detach)
    ensures Doomed(DetachOne(st)) <==> Doomed(st)
  {
    hide Place, Tidy, Less, Stalks, Loose, DetachOne;
    TidyHolds(st);
    var st' := DetachOne(st);
    if Doomed(st) {
      if i: nat :| Loose(st, i) {
        DetachLoose(st, i);
      } else {
        var i: nat, j: nat :| Stalks(st, i, j);
        DetachStalks(st, i, j);
      }
    }
    if Doomed(st') {
      if i: nat :| Loose(st', i) {
        LooseCameFrom(st, i);
      } else {
        var i: nat, j: nat :| Stalks(st', i, j);
        StalksCameFrom(st, i, j);
      }
    }
  }

  lemma DetachPointer(st: State, i: nat)
    requires Others(st.holds) && Enabled(st, Detach) && i < |st.frames| && st.frames[i].Flushing?
    ensures var st', f, r := DetachOne(st), st.frames[i], Reach(st.holds, st.Top().at);
            && |st'.frames| == |st.frames| && |st'.holds| == |st.holds| - 1
            && st'.frames[i].Flushing? && st'.frames[i].dst == f.dst && st'.frames[i].at == f.at
            && (f.at.Some? ==>
                  var p := Place(st.holds, f.at.value);
                  && Place(st'.holds, f.at.value) == (if p == r then |st.holds| - 1 else if p < r then p else p - 1)
                  && (p < |st.holds| && p != r ==> st'.holds[if p < r then p else p - 1] == st.holds[p]))
  {
    hide Place, Others, Less;
    var f, r := st.frames[i], Reach(st.holds, st.Top().at);
    LessSize(st.holds, r);
    if f.at.Some? {
      var p := Place(st.holds, f.at.value);
      LessPlace(st.holds, r, f.at.value);
      if p < |st.holds| && p != r { LessAt(st.holds, r, if p < r then p else p - 1); }
    }
  }

  lemma DetachLoose(st: State, i: nat)
    requires Others(st.holds) && Enabled(st, Detach) && Loose(st, i)
    ensures Loose(DetachOne(st), i)
  {
    hide Place, Others, DetachOne;
    DetachPointer(st, i);
  }

  lemma DetachStalks(st: State, i: nat, j: nat)
    requires Others(st.holds) && Enabled(st, Detach) && Stalks(st, i, j)
    ensures Loose(DetachOne(st), i) || Loose(DetachOne(st), j) || Stalks(DetachOne(st), i, j)
  {
    hide Place, Others, DetachOne;
    DetachPointer(st, i);
    DetachPointer(st, j);
  }

  lemma LooseCameFrom(st: State, i: nat)
    requires Others(st.holds) && Enabled(st, Detach) && Loose(DetachOne(st), i)
    ensures Loose(st, i) || Stalks(st, i, |st.frames| - 1)
  {
    hide Place, Others;
    assert st.frames[i].Flushing?;
    DetachPointer(st, i);
  }

  lemma StalksCameFrom(st: State, i: nat, j: nat)
    requires Others(st.holds) && Enabled(st, Detach) && Stalks(DetachOne(st), i, j)
    ensures Stalks(st, i, j)
  {
    hide Place, Others;
    assert st.frames[i].Flushing? && st.frames[j].Flushing?;
    DetachPointer(st, i);
    DetachPointer(st, j);
  }

  // ---------------------------------------------------------------- every step

  lemma SendDoom(st: State, env: Env, m: Msg, anew: bool)
    requires Tidy(st)
    ensures Doomed(Send(st, env, m, anew).0) <==> Doomed(st)
  {
    hide Route, Tidy, Doomed, Late, CapsAllowed, FindEdge, Kept;
    RouteMeans(st, env, m, 0, 0);
    var r := Route(st, env, m, 0, 0);
    var st1 := st.(now := st.now + r.hooks);
    var st2 := Enter(st1, r.m, anew);
    TidyInboxes(st);
    SameTidy(st, st1);
    EnterTidy(st1, r.m, anew);
    EnterSame(st1, r.m, anew);
    SameDoom(st, st1);
    SameDoom(st, st2);
    var st' := Send(st, env, m, anew).0;
    match r.verdict {
      case Refuse(_) =>
      case HoldIt => KeptDoom(st2, r.m);
      case TakeIt(_) =>
        if st'.frames == st.frames { SameDoom(st, st'); } else { HandlerDoom(st, st'); }
    }
  }

  /** Exactly the reopening of a slot behind whose entry a flush stands dooms a run, and
      nothing saves it. */
  lemma StepDoom(st: State, env: Env, step: Step)
    requires Tidy(st) && Enabled(st, step)
    ensures Doomed(Next(st, env, step)) <==> Doomed(st) || !Clear(st, step)
  {
    hide Doomed, Tidy, Send, DetachOne, PassOne, Place, Opened, Behind;
    var st' := Next(st, env, step);
    match step {
      case Put(m) => SendDoom(st, env, m, true);
      case Pop(s) => if st'.frames == st.frames { SameDoom(st, st'); } else { HandlerDoom(st, st'); }
      case Halt(_, _) => SameDoom(st, st');
      case Open(s) => OpenDoom(st, s);
      case Return =>
        assert st.frames == st'.frames + [Handling];
        HandlerDoom(st', st);
      case Pass => PassDoom(st);
      case Detach => DetachDoom(st);
      case Again =>
        ShiftTidy(st);
        SameDoom(st, Shifted(st));
        SendDoom(Shifted(st), env, st.Top().queue[0], false);
      case Close => CloseDoom(st);
    }
  }

  ghost predicate ClearRun(st: State, env: Env, steps: seq<Step>) {
    forall i | 0 <= i < |steps| && Run(st, env, steps[..i]).Some? :: Clear(Run(st, env, steps[..i]).value, steps[i])
  }

  lemma ClearFront(st: State, env: Env, steps: seq<Step>)
    requires steps != []
    ensures var n := |steps| - 1;
            ClearRun(st, env, steps) <==>
            ClearRun(st, env, steps[..n]) && (Run(st, env, steps[..n]).Some? ==> Clear(Run(st, env, steps[..n]).value, steps[n]))
  {
    hide Run, Clear;
    var n := |steps| - 1;
    forall i | 0 <= i < n ensures steps[..n][..i] == steps[..i] && steps[..n][i] == steps[i] { }
    if ClearRun(st, env, steps[..n]) && (Run(st, env, steps[..n]).Some? ==> Clear(Run(st, env, steps[..n]).value, steps[n])) {
      forall i | 0 <= i < |steps| && Run(st, env, steps[..i]).Some? ensures Clear(Run(st, env, steps[..i]).value, steps[i]) {
        if i < n { assert steps[..n][..i] == steps[..i] && steps[..n][i] == steps[i]; }
      }
    }
    if ClearRun(st, env, steps) {
      forall i | 0 <= i < n && Run(st, env, steps[..n][..i]).Some? ensures Clear(Run(st, env, steps[..n][..i]).value, steps[..n][i]) {
        assert steps[..n][..i] == steps[..i] && steps[..n][i] == steps[i];
      }
    }
  }

  lemma {:induction false} RunDoom(st: State, env: Env, steps: seq<Step>)
    requires Tidy(st) && Run(st, env, steps).Some?
    ensures Doomed(Run(st, env, steps).value) <==> Doomed(st) || !ClearRun(st, env, steps)
  {
    hide Tidy, Next, Enabled, Doomed, ClearRun, Clear;
    if steps == [] {
      NoStepsClear(st, env);
    } else {
      var front, step := steps[..|steps| - 1], steps[|steps| - 1];
      RunDoom(st, env, front);
      RunTidy(st, env, front);
      ClearFront(st, env, steps);
      StepDoom(Run(st, env, front).value, env, step);
    }
  }

  lemma NoStepsClear(st: State, env: Env)
    ensures ClearRun(st, env, [])
  {
  }

  // ---------------------------------------------------------------- what it means

  /** On every run from a fresh router: some flush has a pointer into a freed entry, or is
      going to, if and only if a slot was reopened while a flush stood behind an entry for it. */
  lemma DanglesExactly(st: State, env: Env, steps: seq<Step>)
    requires Fresh(st) && Run(st, env, steps).Some?
    ensures Doomed(Run(st, env, steps).value) <==> !ClearRun(st, env, steps)
  {
    hide Tidy, Run, ClearRun;
    FreshTidy(st);
    assert !Doomed(st);
    RunDoom(st, env, steps);
  }

  /** A flush that gets to read its link does so, and goes on in exactly one way, unless the
      entry is gone: then there is no step, the code reads freed memory. */
  lemma ReadsExactly(st: State)
    requires Tidy(st) && st.frames != [] && st.Top().Flushing? && st.Top().queue == []
    ensures Loose(st, |st.frames| - 1) <==> !Enabled(st, Pass) && !Enabled(st, Detach) && !Enabled(st, Close)
    ensures !(Enabled(st, Pass) && Enabled(st, Detach)) && !(Enabled(st, Close) && (Enabled(st, Pass) || Enabled(st, Detach)))
  {
    hide Tidy, Place;
  }

  /** Once doomed, always doomed: no way of going on gets the stack empty again, so the call
      from outside never returns. */
  lemma NeverReturns(st: State, env: Env, steps: seq<Step>)
    requires Tidy(st) && Doomed(st) && Run(st, env, steps).Some?
    ensures Doomed(Run(st, env, steps).value) && Run(st, env, steps).value.frames != []
  {
    hide Tidy, Run, ClearRun;
    RunDoom(st, env, steps);
  }

  /** Calls that have returned: whatever handlers did, no flush read a freed entry; every
      accepted message of the edge is handled, in the inbox or held; and they are in order if
      and only if none was late. */
  lemma AtRest(st: State, env: Env, steps: seq<Step>, src: SlotId, dst: SlotId, mode: Mode)
    requires Fresh(st) && QueueEdge(st.conns, st.handlers, src, dst, mode) && Unvetoed(env, src, dst)
    requires Run(st, env, steps).Some? && Run(st, env, steps).value.frames == []
    requires Distinct(Of(Run(st, env, steps).value.accepted, src, dst))
    ensures ClearRun(st, env, steps)
    ensures var v := ViewOf(Run(st, env, steps).value, src, dst);
            && (v.handled + v.queued + v.held == v.accepted <==> v.jumped == [])
            && |v.handled + v.queued + v.held| == |v.accepted| && forall m :: m in v.handled + v.queued + v.held <==> m in v.accepted
  {
    hide Run, ClearRun, QueueEdge, Unvetoed, EdgeOk, Of, HoldOf, Inverted;
    DanglesExactly(st, env, steps);
    FreshOk(st, src, dst, mode);
    RunExact(st, env, steps, src, dst, mode);
    OrderExactly(st, env, steps, src, dst, mode);
    var v := ViewOf(Run(st, env, steps).value, src, dst);
    assert v.handled + v.queued + v.held + [] == v.handled + v.queued + v.held;
  }

  /** A flush stands behind entries of other slots only. */
  lemma BehindOthers(st: State, i: nat, c: SlotId)
    requires Tidy(st) && Behind(st, i, c)
    ensures st.frames[i] in st.frames && st.frames[i].Flushing? && st.frames[i].dst != c
  {
    hide InboxesFiled, HoldsFiled, PairFiled, AllServed, Place;
    assert FrameOk(st, i);
  }

  /** What a caller can see to: nobody reopens a slot from within the replay of another. */
  ghost predicate Calm(st: State, step: Step) {
    step.Open? ==> forall f | f in st.frames && f.Flushing? :: f.dst == step.slot
  }

  lemma CalmIsClear(st: State, step: Step)
    requires Tidy(st) && Calm(st, step)
    ensures Clear(st, step)
  {
    hide Tidy;
    if step.Open? {
      forall i: nat ensures !Behind(st, i, step.slot) {
        if Behind(st, i, step.slot) {
          BehindOthers(st, i, step.slot);
          assert false;
        }
      }
    }
  }

  ghost predicate CalmRun(st: State, env: Env, steps: seq<Step>) {
    forall i | 0 <= i < |steps| && Run(st, env, steps[..i]).Some? :: Calm(Run(st, env, steps[..i]).value, steps[i])
  }

  lemma CalmNeverDangles(st: State, env: Env, steps: seq<Step>)
    requires Fresh(st) && Run(st, env, steps).Some? && CalmRun(st, env, steps)
    ensures !Doomed(Run(st, env, steps).value)
  {
    hide Run, Tidy, Calm, Clear, Doomed;
    FreshTidy(st);
    forall i | 0 <= i < |steps| && Run(st, env, steps[..i]).Some? ensures Clear(Run(st, env, steps[..i]).value, steps[i]) {
      RunTidy(st, env, steps[..i]);
      CalmIsClear(Run(st, env, steps[..i]).value, steps[i]);
    }
    DanglesExactly(st, env, steps);
  }
}
