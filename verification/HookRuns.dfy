/** One `nx_hook_dispatch` call seen as a run of steps: what its loop may rely on while
    the callbacks it calls register, unregister and dispatch again. */
module HookRuns {
  import opened Composition
  import opened Sequences
  import opened Hooks

  /** What a callback does before it returns `action`. */
  datatype Answer = Answer(acts: seq<Act>, action: Action)

  datatype Act = Registering(h: HookId) | Unregistering(h: HookId) | Dispatching(p: Point, answers: seq<Answer>)

  // ---------------------------------------------------------------- runs

  lemma RunSnoc(st: State, steps: seq<Step>, step: Step)
    requires Run(st, steps).Some? && Enabled(Run(st, steps).value, step)
    ensures Run(st, steps + [step]) == Some(Next(Run(st, steps).value, step))
  {
    assert (steps + [step])[..|steps|] == steps;
  }

  lemma {:induction false} RunConcat(st: State, a: seq<Step>, b: seq<Step>)
    requires Run(st, a).Some?
    ensures Run(st, a + b) == Run(Run(st, a).value, b)
  {
    hide Next, Enabled;
    if b == [] {
      assert a + b == a;
    } else {
      assert (a + b)[..|a + b| - 1] == a + b[..|b| - 1];
      RunConcat(st, a, b[..|b| - 1]);
    }
  }

  // ---------------------------------------------------------------- frames

  /** The same dispatch, where it was; only an unregistered hook stopped being steady. */
  ghost predicate KeptFrame(f: Frame, g: Frame, t: seq<Step>) {
    f.(steady := {}) == g.(steady := {}) && forall h | h in f.steady && Unreg(h) !in t :: h in g.steady
  }

  ghost predicate Kept(a: seq<Frame>, b: seq<Frame>, t: seq<Step>) {
    |a| == |b| && forall i | 0 <= i < |a| :: KeptFrame(a[i], b[i], t)
  }

  lemma KeptOn(a: seq<Frame>, b: seq<Frame>, c: seq<Frame>, t: seq<Step>, u: seq<Step>)
    requires Kept(a, b, t) && Kept(b, c, u)
    ensures Kept(a, c, t + u)
  {
    forall i | 0 <= i < |a| ensures KeptFrame(a[i], c[i], t + u) {
      assert KeptFrame(a[i], b[i], t) && KeptFrame(b[i], c[i], u);
    }
  }

  // ---------------------------------------------------------------- who is called by whom

  /** The hooks called along `t` while `k` dispatches were in progress: by the innermost. */
  function CallsAt(st: State, t: seq<Step>, k: nat): seq<HookId> {
    if t == [] then []
    else
      var front, step := t[..|t| - 1], t[|t| - 1];
      var calls, before := CallsAt(st, front, k), Run(st, front);
      if step == Call && before.Some? && before.value.frames != [] && |before.value.frames| == k && before.value.Top().next.Some?
      then calls + [before.value.Top().next.value] else calls
  }

  lemma CallsSnoc(st: State, t: seq<Step>, step: Step, k: nat)
    requires Run(st, t).Some?
    ensures var mid := Run(st, t).value;
            CallsAt(st, t + [step], k) == CallsAt(st, t, k) +
              if step == Call && mid.frames != [] && |mid.frames| == k && mid.Top().next.Some? then [mid.Top().next.value] else []
  {
    assert (t + [step])[..|t|] == t;
  }

  lemma {:induction false} CallsConcat(st: State, t: seq<Step>, u: seq<Step>, k: nat)
    requires Run(st, t).Some? && Run(Run(st, t).value, u).Some?
    ensures CallsAt(st, t + u, k) == CallsAt(st, t, k) + CallsAt(Run(st, t).value, u, k)
  {
    hide Next, Enabled;
    if u == [] {
      assert t + u == t;
    } else {
      var front, step := u[..|u| - 1], u[|u| - 1];
      assert t + u == (t + front) + [step] && u == front + [step];
      CallsConcat(st, t, front, k);
      RunConcat(st, t, front);
      CallsSnoc(st, t + front, step, k);
      CallsSnoc(Run(st, t).value, front, step, k);
    }
  }

  /** None of the dispatches in progress at the start calls anything. */
  ghost predicate Idle(st: State, t: seq<Step>) {
    forall k: nat | k <= |st.frames| :: CallsAt(st, t, k) == []
  }

  /** A stretch of callback code: the dispatches around it stay where they are. */
  ghost predicate Stretch(a: State, t: seq<Step>, b: State) {
    Run(a, t) == Some(b) && Kept(a.frames, b.frames, t) && Idle(a, t)
  }

  lemma UserStep(st: State, step: Step)
    requires st.UserRuns() && (step.Reg? || step.Unreg?)
    ensures Stretch(st, [step], Next(st, step)) && Next(st, step).UserRuns()
  {
    hide Slot, Insert, Without;
    assert [step][..0] == [] && Run(st, []) == Some(st);
    assert Run(st, [step]) == Some(Next(st, step));
    assert step.Unreg? ==> Unreg(step.h) in [step];
    assert Kept(st.frames, Next(st, step).frames, [step]);
    forall k: nat ensures CallsAt(st, [step], k) == [] { }
  }

  /** Two stretches of callback code, one after the other. */
  lemma UserConcat(a: State, b: State, c: State, t: seq<Step>, u: seq<Step>)
    requires Stretch(a, t, b) && Stretch(b, u, c)
    ensures Stretch(a, t + u, c) && (a.UserRuns() ==> c.UserRuns())
  {
    hide Run, Kept, CallsAt;
    RunConcat(a, t, u);
    KeptSize(a.frames, b.frames, t);
    KeptOn(a.frames, b.frames, c.frames, t, u);
    KeptUser(a, c, t + u);
    forall k: nat | k <= |a.frames| ensures CallsAt(a, t + u, k) == [] { CallsConcat(a, t, u, k); }
  }

  lemma KeptSize(a: seq<Frame>, b: seq<Frame>, t: seq<Step>)
    requires Kept(a, b, t)
    ensures |a| == |b|
  {
  }

  lemma KeptUser(a: State, c: State, t: seq<Step>)
    requires Kept(a.frames, c.frames, t)
    ensures a.UserRuns() ==> c.UserRuns()
  {
    if a.frames != [] {
      assert KeptFrame(a.Top(), c.Top(), t);
    }
  }

  // ---------------------------------------------------------------- the loop of one dispatch

  /** A dispatch of `p` begun in `st0` has come to `st` by `t`: everything below it is where
      it was, it will look at `next` next, and whoever was live at the start and not
      unregistered since is still steady. */
  ghost predicate InDispatch(st0: State, st: State, p: Point, next: Option<HookId>, running: bool, t: seq<Step>) {
    var d := |st0.frames|;
    && Run(st0, t) == Some(st) && t != [] && t[0] == Begin(p)
    && |st.frames| == d + 1 && Kept(st0.frames, st.frames[..d], t)
    && st.Top().point == p && st.Top().next == next && st.Top().running.Some? == running
    && Idle(st0, t) && CallsAt(st0, t, d + 1) == st.Top().ran
    && forall x | x in st0.Chain(p) && x !in st0.dead && Unreg(x) !in t :: x in st.Top().steady
  }

  lemma BeginDispatch(st0: State, p: Point)
    requires st0.UserRuns()
    ensures InDispatch(st0, Next(st0, Begin(p)), p, Head(st0.Chain(p)), false, [Begin(p)])
  {
    hide Head;
    var t, st := [Begin(p)], Next(st0, Begin(p));
    assert t[..0] == [] && Run(st0, []) == Some(st0);
    assert Run(st0, t) == Some(st);
    assert st.frames[..|st0.frames|] == st0.frames;
    assert forall f: Frame :: KeptFrame(f, f, t);
    assert st.Top() == Begun(st0, p);
    forall k: nat ensures CallsAt(st0, t, k) == [] { }
  }

  lemma StepDispatch(st0: State, st: State, p: Point, next: Option<HookId>, running: bool, t: seq<Step>, step: Step)
    requires InDispatch(st0, st, p, next, running, t) && Enabled(st, step)
    requires step == Call || step == Skip || step == Return(Continue)
    ensures var st' := Next(st, step);
            && st'.chains == st.chains && st'.hooks == st.hooks && st'.dead == st.dead
            && InDispatch(st0, st', p, if running then next else After(st.Chain(p), next.value), step == Call, t + [step])
  {
    hide Run, After, Kept, CallsAt;
    RunSnoc(st0, t, step);
    var d := |st0.frames|;
    forall k: nat | k <= d ensures CallsAt(st0, t + [step], k) == [] { CallsSnoc(st0, t, step, k); }
    CallsSnoc(st0, t, step, d + 1);
    assert Next(st, step).frames[..d] == st.frames[..d];
    KeptLonger(st0.frames, st.frames[..d], t, step);
    assert forall x | Unreg(x) !in t + [step] :: Unreg(x) !in t;
  }

  lemma KeptLonger(a: seq<Frame>, b: seq<Frame>, t: seq<Step>, step: Step)
    requires Kept(a, b, t)
    ensures Kept(a, b, t + [step])
  {
    forall i | 0 <= i < |a| ensures KeptFrame(a[i], b[i], t + [step]) {
      assert KeptFrame(a[i], b[i], t);
    }
  }

  /** A callback has run; the loop's own variables did not move. */
  lemma CallbackRan(st0: State, st: State, st': State, p: Point, next: Option<HookId>, t: seq<Step>, u: seq<Step>)
    requires InDispatch(st0, st, p, next, true, t) && Stretch(st, u, st')
    ensures InDispatch(st0, st', p, next, true, t + u)
  {
    hide Run, Kept, CallsAt;
    RunConcat(st0, t, u);
    var d := |st0.frames|;
    forall k: nat | k <= d + 1 ensures CallsAt(st0, t + u, k) == CallsAt(st0, t, k) { CallsConcat(st0, t, u, k); }
    KeptTop(st.frames, st'.frames, u);
    KeptOn(st0.frames, st.frames[..d], st'.frames[..d], t, u);
    assert forall x | Unreg(x) !in t + u :: Unreg(x) !in t && Unreg(x) !in u;
  }

  lemma KeptTop(a: seq<Frame>, b: seq<Frame>, t: seq<Step>)
    requires Kept(a, b, t) && a != []
    ensures |a| == |b| && Kept(a[..|a| - 1], b[..|a| - 1], t) && KeptFrame(a[|a| - 1], b[|a| - 1], t)
  {
  }

  /** The loop is over. */
  lemma LeaveDispatch(st0: State, st: State, p: Point, next: Option<HookId>, running: bool, t: seq<Step>, step: Step)
    requires Inv(st) && InDispatch(st0, st, p, next, running, t) && Enabled(st, step)
    requires step == End || step == Return(Abort)
    ensures Next(st, step) == Leave(st) && Stretch(st0, t + [step], Leave(st))
    ensures Distinct(st.Top().ran) && CallsAt(st0, t + [step], |st0.frames| + 1) == st.Top().ran
    ensures step == End ==> forall x | x in st0.Chain(p) && x !in st0.dead && Unreg(x) !in t + [step] :: x in st.Top().ran
  {
    hide Run, Kept, Inv, Alive, CallsAt;
    RunSnoc(st0, t, step);
    forall k: nat | k <= |st0.frames| ensures CallsAt(st0, t + [step], k) == [] { CallsSnoc(st0, t, step, k); }
    CallsSnoc(st0, t, step, |st0.frames| + 1);
    KeptLonger(st0.frames, st.frames[..|st0.frames|], t, step);
    DistinctRan(st);
    forall x | x in st.Top().steady && step == End ensures x in st.Top().ran {
      EndCallsAll(st, x);
    }
    assert forall x | Unreg(x) !in t + [step] :: Unreg(x) !in t;
  }

  lemma DistinctRan(st: State)
    requires Inv(st) && st.frames != []
    ensures Distinct(st.Top().ran)
  {
    hide Position, ChainsOk;
    assert Walking(st, st.Top());
  }

  /** The hook the loop stands at is on its chain, and the loop gets nearer the end. */
  lemma WalkAdvances(st: State)
    requires Inv(st) && st.frames != [] && st.Top().next.Some?
    ensures var chain, h := st.Chain(st.Top().point), st.Top().next.value;
            && h in chain && Position(chain, After(chain, h)) == Position(chain, Some(h)) + 1 <= |chain|
  {
    hide Position, After, Walking, ChainOk;
    TopWalks(st);
    WalkOn(st, st.Top());
  }

  /** What the invariant of the loop says of the top frame. */
  lemma AtTop(st0: State, st: State, p: Point, next: Option<HookId>, running: bool, t: seq<Step>)
    requires InDispatch(st0, st, p, next, running, t)
    ensures st.frames != [] && st.Top().point == p && st.Top().next == next && st.Top().running.Some? == running
    ensures t != [] && t[0] == Begin(p)
  {
  }

  lemma RunNothing(st: State)
    ensures Stretch(st, [], st) && forall k: nat :: CallsAt(st, [], k) == []
  {
  }

  // ---------------------------------------------------------------- scripts and the steps they make

  /** The steps of callback code that does `acts`; dispatching at a point that does not exist
      is no step at all. */
  ghost predicate Acted(points: nat, acts: seq<Act>, t: seq<Step>)
    decreases acts, 0, |t|
  {
    if acts == [] then t == []
    else exists k {:trigger t[k..]} ::
      0 <= k <= |t| && Acted(points, acts[..|acts| - 1], t[..k]) && ActedOne(points, acts[|acts| - 1], t[k..])
  }

  ghost predicate ActedOne(points: nat, act: Act, t: seq<Step>)
    decreases act, 0, |t|
  {
    match act
    case Registering(h) => t == [Reg(h)]
    case Unregistering(h) => t == [Unreg(h)]
    case Dispatching(p, answers) => Dispatched(points, p, answers, t, Continue) || Dispatched(points, p, answers, t, Abort)
  }

  /** A whole dispatch: the loop runs to its end, or to the first callback that aborts. */
  ghost predicate Dispatched(points: nat, p: Point, answers: seq<Answer>, t: seq<Step>, action: Action)
    decreases answers, 2, |t|
  {
    if p >= points then t == [] && action == Continue
    else
      && |t| >= 2 && t[0] == Begin(p)
      && var body := t[1..|t| - 1];
         if action == Continue then t[|t| - 1] == End && exists n: nat :: Looped(points, answers, n, body)
         else t[|t| - 1] == Return(Abort) && exists n: nat, k :: CalledAt(points, answers, n, body, k, Abort)
  }

  /** The loop so far: dead hooks skipped, `n` callbacks called, all of which continued. */
  ghost predicate Looped(points: nat, answers: seq<Answer>, n: nat, t: seq<Step>)
    decreases answers, 1, |t|
  {
    if t == [] then n == 0
    else
      var front := t[..|t| - 1];
      if t[|t| - 1] == Skip then Looped(points, answers, n, front)
      else t[|t| - 1] == Return(Continue) && exists m: nat, k :: n == m + 1 && CalledAt(points, answers, m, front, k, Continue)
  }

  /** The loop up to position `k`, then the call of the `n`-th callback. */
  ghost predicate CalledAt(points: nat, answers: seq<Answer>, n: nat, t: seq<Step>, k: int, action: Action)
    decreases answers, 1, |t|, 0
  {
    && 0 <= k < |t| && t[k] == Call
    && Looped(points, answers, n, t[..k]) && Answered(points, answers, n, t[k + 1..], action)
  }

  /** The `i`-th callback of a dispatch does as its script says and returns `action`. */
  ghost predicate Answered(points: nat, answers: seq<Answer>, i: nat, t: seq<Step>, action: Action)
    decreases answers, 0, |t|
  {
    if i < |answers| then action == answers[i].action && Acted(points, answers[i].acts, t)
    else action == Continue && t == []
  }

  lemma ActedMore(points: nat, acts: seq<Act>, n: nat, t: seq<Step>, u: seq<Step>)
    requires n < |acts| && Acted(points, acts[..n], t) && ActedOne(points, acts[n], u)
    ensures Acted(points, acts[..n + 1], t + u)
  {
    hide ActedOne;
    assert acts[..n + 1][..n] == acts[..n];
    assert (t + u)[..|t|] == t && (t + u)[|t|..] == u;
  }

  lemma NoSuchPoint(points: nat, p: Point, answers: seq<Answer>)
    requires p >= points
    ensures Dispatched(points, p, answers, [], Continue)
  {
  }

  lemma ActedNothing(points: nat)
    ensures Acted(points, [], [])
  {
  }

  /** The loop of a dispatch of `p`, seen from its start. */
  ghost predicate Looping(points: nat, p: Point, answers: seq<Answer>, n: nat, t: seq<Step>) {
    t != [] && t[0] == Begin(p) && Looped(points, answers, n, t[1..])
  }

  lemma LoopBegins(points: nat, p: Point, answers: seq<Answer>)
    ensures Looping(points, p, answers, 0, [Begin(p)])
  {
  }

  lemma LoopSkips(points: nat, p: Point, answers: seq<Answer>, n: nat, t: seq<Step>)
    requires Looping(points, p, answers, n, t)
    ensures Looping(points, p, answers, n, t + [Skip])
  {
    var body := (t + [Skip])[1..];
    assert body[..|body| - 1] == t[1..];
  }

  lemma CallIsAt(points: nat, answers: seq<Answer>, n: nat, t: seq<Step>, u: seq<Step>, action: Action)
    requires Looped(points, answers, n, t) && Answered(points, answers, n, u, action)
    ensures CalledAt(points, answers, n, t + [Call] + u, |t|, action)
  {
    hide Looped, Answered;
    var all := t + [Call] + u;
    assert all[..|t|] == t && all[|t| + 1..] == u;
  }

  lemma LoopCalls(points: nat, p: Point, answers: seq<Answer>, n: nat, t: seq<Step>, u: seq<Step>)
    requires Looping(points, p, answers, n, t) && Answered(points, answers, n, u, Continue)
    ensures Looping(points, p, answers, n + 1, t + [Call] + u + [Return(Continue)])
  {
    hide Answered;
    var front := t[1..] + [Call] + u;
    assert (t + [Call] + u + [Return(Continue)])[1..] == front + [Return(Continue)];
    assert (front + [Return(Continue)])[..|front|] == front;
    CallIsAt(points, answers, n, t[1..], u, Continue);
  }

  lemma LoopEnds(points: nat, p: Point, answers: seq<Answer>, n: nat, t: seq<Step>)
    requires Looping(points, p, answers, n, t) && p < points
    ensures Dispatched(points, p, answers, t + [End], Continue)
  {
    hide Looped;
    assert (t + [End])[1..|t + [End]| - 1] == t[1..];
  }

  lemma LoopAborts(points: nat, p: Point, answers: seq<Answer>, n: nat, t: seq<Step>, u: seq<Step>)
    requires Looping(points, p, answers, n, t) && p < points && Answered(points, answers, n, u, Abort)
    ensures Dispatched(points, p, answers, t + [Call] + u + [Return(Abort)], Abort)
  {
    hide Looped, Answered;
    var all := t + [Call] + u + [Return(Abort)];
    assert all[1..|all| - 1] == t[1..] + [Call] + u;
    CallIsAt(points, answers, n, t[1..], u, Abort);
  }
}
