/** The router as it stands in framework/ipc.c: inboxes and hold entries changed in place,
    `do_send` recursing on redirection, handlers calling back into the router.  Each method
    is a run of the steps that the theorems are about.  A flush that comes back to a pointer
    into a freed entry, or goes round in circles, is followed no further. */
module IpcRouter {
  import opened Composition
  import opened Sequences
  import opened Router
  import opened RouterTidy
  import opened RouterCursor
  import opened RouterEndless

  /** What a handler does before it returns `rc`. */
  datatype Answer = Answer(acts: seq<Act>, rc: Status)

  datatype Act = Sending(m: Msg) | Draining(slot: SlotId, max: nat) | Pausing(slot: SlotId, to: SlotPause) | Reopening(slot: SlotId)

  // ---------------------------------------------------------------- routing hop by hop

  lemma DecideReads(st: State, st': State, env: Env, m: Msg, depth: nat, at: nat)
    requires st'.conns == st.conns && st'.fallback == st.fallback && st'.pause == st.pause
    ensures Decide(st, env, m, depth, at) == Decide(st', env, m, depth, at)
  {
    hide FindEdge, CapsAllowed;
  }

  /** Routing on from `hooks` hook calls is routing afresh that much later. */
  lemma {:induction false} RouteShift(st: State, env: Env, m: Msg, depth: nat, hooks: nat)
    ensures var late := Route(st.(now := st.now + hooks), env, m, depth, 0);
            Route(st, env, m, depth, hooks) == late.(hooks := late.hooks + hooks)
    decreases REDIRECT_DEPTH_MAX - depth
  {
    hide Decide;
    var st', hop := st.(now := st.now + hooks), Decide(st, env, m, depth, st.now + hooks);
    DecideReads(st, st', env, m, depth, st.now + hooks);
    if hop.Onward? && depth < REDIRECT_DEPTH_MAX {
      var m' := m.(dst := Some(hop.to));
      RouteShift(st, env, m', depth + 1, hooks + 1);
      RouteShift(st', env, m', depth + 1, 1);
      assert st'.(now := st'.now + 1) == st.(now := st.now + (hooks + 1));
    }
  }

  /** A redirected hop: the rest of the route, one hook later. */
  lemma RedirectHop(st: State, env: Env, m: Msg, depth: nat, anew: bool)
    requires depth < REDIRECT_DEPTH_MAX && Decide(st, env, m, depth, st.now).Onward?
    ensures var st1, m' := st.(now := st.now + 1), m.(dst := Some(Decide(st, env, m, depth, st.now).to));
            && Route(st, env, m, depth, 0).m == Route(st1, env, m', depth + 1, 0).m
            && Carry(st, Route(st, env, m, depth, 0), anew) == Carry(st1, Route(st1, env, m', depth + 1, 0), anew)
  {
    hide Decide, Take, Kept, Enter;
    var m' := m.(dst := Some(Decide(st, env, m, depth, st.now).to));
    RouteShift(st, env, m', depth + 1, 1);
    var r := Route(st.(now := st.now + 1), env, m', depth + 1, 0);
    assert Route(st, env, m, depth, 0) == r.(hooks := r.hooks + 1);
    assert st.(now := st.now + (r.hooks + 1)) == st.(now := st.now + 1).(now := st.now + 1 + r.hooks);
  }

  // ---------------------------------------------------------------- runs

  lemma RunSnoc(st: State, env: Env, steps: seq<Step>, step: Step)
    requires Run(st, env, steps).Some? && Enabled(Run(st, env, steps).value, step)
    ensures Run(st, env, steps + [step]) == Some(Next(Run(st, env, steps).value, env, step))
  {
    assert (steps + [step])[..|steps|] == steps;
  }

  lemma {:induction false} RunConcat(st: State, env: Env, a: seq<Step>, b: seq<Step>)
    requires Run(st, env, a).Some?
    ensures Run(st, env, a + b) == Run(Run(st, env, a).value, env, b)
  {
    hide Next, Enabled;
    if b == [] {
      assert a + b == a;
    } else {
      assert (a + b)[..|a + b| - 1] == a + b[..|b| - 1];
      RunConcat(st, env, a, b[..|b| - 1]);
    }
  }

  /** The call stack is never lower than `d` along the way. */
  ghost predicate Above(st: State, env: Env, t: seq<Step>, d: nat) {
    if t == [] then |st.frames| >= d
    else Above(st, env, t[..|t| - 1], d) && (Run(st, env, t).Some? ==> |Run(st, env, t).value.frames| >= d)
  }

  /** The steps taken with the call stack at `d`: what one piece of code does itself, without
      what the handlers it reaches do. */
  ghost function CallsAt(st: State, env: Env, t: seq<Step>, d: nat): seq<Step> {
    if t == [] then []
    else
      var front := t[..|t| - 1];
      var before := Run(st, env, front);
      CallsAt(st, env, front, d) + if before.Some? && |before.value.frames| == d then [t[|t| - 1]] else []
  }

  lemma {:induction false} AboveLess(st: State, env: Env, t: seq<Step>, d: nat, d': nat)
    requires Above(st, env, t, d) && d' <= d
    ensures Above(st, env, t, d')
  {
    hide Run;
    if t != [] { AboveLess(st, env, t[..|t| - 1], d, d'); }
  }

  lemma {:induction false} AboveOn(a: State, env: Env, t: seq<Step>, u: seq<Step>, d: nat)
    requires Run(a, env, t).Some? && Above(a, env, t, d) && Above(Run(a, env, t).value, env, u, d)
    ensures Above(a, env, t + u, d)
  {
    hide Run;
    if u == [] {
      assert t + u == t;
    } else {
      assert (t + u)[..|t + u| - 1] == t + u[..|u| - 1];
      AboveOn(a, env, t, u[..|u| - 1], d);
      RunConcat(a, env, t, u);
    }
  }

  lemma {:induction false} CallsOn(a: State, env: Env, t: seq<Step>, u: seq<Step>, d: nat)
    requires Run(a, env, t).Some?
    ensures CallsAt(a, env, t + u, d) == CallsAt(a, env, t, d) + CallsAt(Run(a, env, t).value, env, u, d)
  {
    hide Run;
    if u == [] {
      assert t + u == t;
    } else {
      assert (t + u)[..|t + u| - 1] == t + u[..|u| - 1];
      CallsOn(a, env, t, u[..|u| - 1], d);
      RunConcat(a, env, t, u[..|u| - 1]);
    }
  }

  /** Code that runs higher up makes no calls at this level. */
  lemma {:induction false} CallsBelow(st: State, env: Env, t: seq<Step>, d: nat)
    requires Above(st, env, t, d + 1)
    ensures CallsAt(st, env, t, d) == []
  {
    hide Run;
    if t != [] {
      var front := t[..|t| - 1];
      CallsBelow(st, env, front, d);
      if front == [] { assert Run(st, env, front) == Some(st) by { StartsAt(st, env); } }
    }
  }

  lemma StartsAt(st: State, env: Env)
    ensures Run(st, env, []) == Some(st)
  {
  }

  lemma CallsOne(st: State, env: Env, step: Step, d: nat)
    ensures CallsAt(st, env, [step], d) == if |st.frames| == d then [step] else []
  {
    StartsAt(st, env);
    assert [step][..0] == [];
  }

  /** A run of steps that leaves the callers' frames alone. */
  ghost predicate Went(st: State, env: Env, t: seq<Step>, st': State) {
    Run(st, env, t) == Some(st') && Above(st, env, t, |st.frames|)
  }

  lemma WentNowhere(st: State, env: Env)
    ensures Went(st, env, [], st) && forall d: nat :: CallsAt(st, env, [], d) == []
  {
  }

  lemma WentOn(a: State, env: Env, t: seq<Step>, b: State, u: seq<Step>, c: State)
    requires Went(a, env, t, b) && Went(b, env, u, c)
    ensures Went(a, env, t + u, c)
    ensures forall d: nat :: CallsAt(a, env, t + u, d) == CallsAt(a, env, t, d) + CallsAt(b, env, u, d)
  {
    hide Run, CallsAt;
    RunConcat(a, env, t, u);
    if t == [] { StartsAt(a, env); }
    AboveLess(b, env, u, |b.frames|, |a.frames|);
    AboveOn(a, env, t, u, |a.frames|);
    forall d: nat ensures CallsAt(a, env, t + u, d) == CallsAt(a, env, t, d) + CallsAt(b, env, u, d) { CallsOn(a, env, t, u, d); }
  }

  lemma WentStep(a: State, env: Env, step: Step, b: State)
    requires Enabled(a, step) && Next(a, env, step) == b && |b.frames| >= |a.frames|
    ensures Went(a, env, [step], b)
    ensures CallsAt(a, env, [step], |a.frames|) == [step] && CallsAt(a, env, [step], |a.frames| + 1) == []
  {
    hide Next, CallsAt, Run;
    OneStep(a, env, step);
    assert Above(a, env, [step], |a.frames|) by { assert [step][..0] == []; }
    CallsOne(a, env, step, |a.frames|);
    CallsOne(a, env, step, |a.frames| + 1);
  }

  /** A handler or a flush has done what it does and gives up its frame. */
  lemma WentReturn(a: State, env: Env, t: seq<Step>, b: State, step: Step)
    requires Went(a, env, t, b) && |a.frames| < |b.frames| && (step.Return? || step.Close?) && Enabled(b, step)
    ensures Went(a, env, t + [step], Unframed(b))
    ensures CallsAt(a, env, t + [step], |a.frames|) == CallsAt(a, env, t, |a.frames|)
    ensures CallsAt(a, env, t + [step], |b.frames|) == CallsAt(a, env, t, |b.frames|) + [step]
  {
    hide Run, CallsAt, Enabled;
    var c := Unframed(b);
    assert Run(b, env, [step]) == Some(c) by { OneStep(b, env, step); }
    RunConcat(a, env, t, [step]);
    assert Above(b, env, [step], |a.frames|) by { assert [step][..0] == []; }
    AboveOn(a, env, t, [step], |a.frames|);
    CallsOn(a, env, t, [step], |a.frames|);
    CallsOne(b, env, step, |a.frames|);
    CallsOn(a, env, t, [step], |b.frames|);
    CallsOne(b, env, step, |b.frames|);
  }

  lemma OneStep(st: State, env: Env, step: Step)
    requires Enabled(st, step)
    ensures Run(st, env, [step]) == Some(Next(st, env, step))
  {
    hide Next, Enabled;
    assert [step][..0] == [] && Run(st, env, []) == Some(st);
  }

  /** What was called from further up. */
  lemma WentAbove(a: State, env: Env, t: seq<Step>, b: State, d: nat)
    requires Went(a, env, t, b) && |a.frames| > d
    ensures CallsAt(a, env, t, d) == []
  {
    hide Run, CallsAt;
    AboveLess(a, env, t, |a.frames|, d + 1);
    CallsBelow(a, env, t, d);
  }

  // ---------------------------------------------------------------- what code does

  ghost predicate All(calls: seq<Step>, step: Step) {
    forall k | 0 <= k < |calls| :: calls[k] == step
  }

  /** The calls that carry out `act`. */
  ghost predicate Does(act: Act, calls: seq<Step>) {
    match act
    case Sending(m) => calls == [Put(m)]
    case Draining(s, max) => |calls| <= max && All(calls, Pop(s))
    case Pausing(s, to) => calls == if to == Running then [] else [Halt(s, to)]
    case Reopening(s) => calls == [Open(s)]
  }

  /** The calls that carry out `acts`, one after the other. */
  ghost predicate DoesAll(acts: seq<Act>, calls: seq<Step>) {
    if acts == [] then calls == []
    else exists k {:trigger calls[k..]} ::
      0 <= k <= |calls| && DoesAll(acts[..|acts| - 1], calls[..k]) && Does(acts[|acts| - 1], calls[k..])
  }

  /** The calls of a handler that does `acts` and returns. */
  ghost predicate Handled(acts: seq<Act>, calls: seq<Step>) {
    calls != [] && calls[|calls| - 1] == Return && DoesAll(acts, calls[..|calls| - 1])
  }

  lemma HandledIs(acts: seq<Act>, calls: seq<Step>)
    requires DoesAll(acts, calls)
    ensures Handled(acts, calls + [Return])
  {
    hide DoesAll;
    assert (calls + [Return])[..|calls|] == calls;
  }

  lemma DoesNothing()
    ensures DoesAll([], [])
  {
  }

  lemma DoesMore(acts: seq<Act>, n: nat, calls: seq<Step>, more: seq<Step>)
    requires n < |acts| && DoesAll(acts[..n], calls) && Does(acts[n], more)
    ensures DoesAll(acts[..n + 1], calls + more)
  {
    hide Does;
    assert acts[..n + 1][..n] == acts[..n];
    assert (calls + more)[..|calls|] == calls && (calls + more)[|calls|..] == more;
  }

  // ---------------------------------------------------------------- tidy runs

  lemma WentTidy(a: State, env: Env, t: seq<Step>, b: State)
    requires Tidy(a) && Went(a, env, t, b)
    ensures Tidy(b)
  {
    hide Tidy, Run;
    RunTidy(a, env, t);
  }

  lemma TidyReturn(st: State, env: Env)
    requires Tidy(st) && st.frames != [] && st.Top().Handling?
    ensures Tidy(Unframed(st))
  {
    hide Tidy;
    StepTidy(st, env, Return);
  }

  lemma CarryKeeps(st: State, r: Routed, anew: bool)
    ensures var st' := Carry(st, r, anew).0;
            && (st'.frames == st.frames || st'.frames == st.frames + [Handling])
            && st'.conns == st.conns && st'.fallback == st.fallback && st'.handlers == st.handlers && st'.pause == st.pause
            && (!r.verdict.HoldIt? ==> st'.holds == st.holds && st'.made == st.made)
            && (r.verdict.HoldIt? ==> st'.holds == Kept(st, r.m).holds)
  {
    hide HoldMsg, Enter, FindHold;
    EnterSame(st.(now := st.now + r.hooks), r.m, anew);
  }

  // ---------------------------------------------------------------- flushes

  /** What is ahead of a pointer. */
  ghost function Rest(holds: seq<Hold>, at: Option<nat>): int {
    |holds| - Reach(holds, at)
  }

  /** What one replay does to the list, unless a handler does more: nothing if the slot is
      open, and nothing to what lies ahead of a pointer that is not at the head. */
  lemma {:induction false} ReplayKeeps(st: State, env: Env)
    requires Tidy(st) && Enabled(st, Again) && Stands(st.holds, st.Top().at)
    ensures var f, st' := st.Top(), AgainOne(st, env);
            && st'.pause == st.pause && Stands(st'.holds, f.at)
            && (f.at.Some? || st.Pause(f.dst) == Running ==> Rest(st'.holds, f.at) == Rest(st.holds, f.at))
  {
    hide InboxesFiled, HoldsFiled, PairFiled, AllServed, Place, Route, Carry, Kept, CapsAllowed, FindEdge;
    ShiftTidy(st);
    var f, m, st1 := st.Top(), st.Top().queue[0], Shifted(st);
    var r := Route(st1, env, m, 0, 0);
    ReplayRoute(st1, env, m);
    CarryKeeps(st1, r, false);
    assert FrameOk(st, |st.frames| - 1);
    KeptReach(st1, m, f.at);
  }

  /** A message over a QUEUE edge is held only if its slot is paused, and goes to no other. */
  lemma ReplayRoute(st: State, env: Env, m: Msg)
    requires m.src.Some? && m.dst.Some? && Queues(st.conns, m.src.value, m.dst.value)
    ensures var r := Route(st, env, m, 0, 0); r.m == m && (r.verdict.HoldIt? ==> st.Pause(m.dst.value) != Running)
  {
    hide FindEdge, CapsAllowed;
  }

  // ---------------------------------------------------------------- the router object

  class Switchboard {
    const answers: seq<Answer>
    var asked: nat
    var patience: nat
    var conns: seq<Connection>
    var fallback: map<SlotId, SlotId>
    var pause: map<SlotId, SlotPause>
    var handlers: set<SlotId>
    var inbox: map<SlotId, seq<Msg>>
    var holds: seq<Hold>
    var made: nat
    var now: nat
    ghost var frames: seq<Frame>
    ghost var accepted: seq<Msg>
    ghost var delivered: seq<Msg>
    ghost var jumped: seq<Msg>

    ghost function View(): State
      reads this
    {
      State(conns, fallback, pause, handlers, inbox, holds, made, frames, now, accepted, delivered, jumped)
    }

    /** The handlers' answers are taken in order; further handlers do nothing and succeed. */
    ghost predicate Valid()
      reads this
    {
      asked <= |answers| && Tidy(View())
    }

    /** Where a flush is followed no further: it is to read a link of a freed entry, or to
        take once more what it has just put back, and patience is at an end. */
    ghost predicate Stopped()
      reads this
    {
      && frames != [] && View().Top().Flushing? && View().Top().queue == []
      && (Loose(View(), |frames| - 1) || (patience == 0 && View().Pause(View().Top().dst) != Running && Circles(View())))
    }

    /** What the handler called as the `k`-th returns, and does before. */
    function StatusAt(k: nat): Status {
      if k < |answers| then answers[k].rc else OK
    }

    function ActsAt(k: nat): seq<Act> {
      if k < |answers| then answers[k].acts else []
    }

    method Hook(env: Env, m: Msg) returns (abort: bool)
      modifies this`now
      ensures abort == env.abort(old(now), m) && now == old(now) + 1
    {
      abort := env.abort(now, m);
      now := now + 1;
    }

    /** The list walk of `find_edge`. */
    method LookUpEdge(src: SlotId, dst: SlotId) returns (e: Option<Connection>)
      ensures e == FindEdge(conns, src, dst)
    {
      for i := 0 to |conns|
        invariant FindEdge(conns[i..], src, dst) == FindEdge(conns, src, dst)
      {
        assert conns[i..][1..] == conns[i + 1..];
        if conns[i].from == Some(src) && conns[i].to == dst { return Some(conns[i]); }
      }
      e := None;
    }

    method ScanCaps(src: SlotId, caps: seq<Cap>) returns (ok: bool)
      ensures ok == CapsAllowed(conns, src, caps)
    {
      for i := 0 to |caps|
        invariant CapsAllowed(conns, src, caps[..i])
      {
        assert caps[..i + 1][..i] == caps[..i];
        if caps[i].SlotRef? {
          var e := None;
          if caps[i].target.Some? { e := LookUpEdge(src, caps[i].target.value); }
          if caps[i].target.None? || e.None? {
            CapsStop(conns, src, caps, i + 1);
            return false;
          }
        }
      }
      assert caps[..|caps|] == caps;
      ok := true;
    }

    /** Append to the pair's hold entry, or put a new one at the head of the list. */
    method HoldBack(src: SlotId, dst: SlotId, m: Msg)
      requires m.src == Some(src) && m.dst == Some(dst)
      modifies this`holds, this`made
      ensures View() == Kept(old(View()), m)
    {
      var i := 0;
      while i < |holds| && !(holds[i].src == src && holds[i].dst == dst)
        invariant i <= |holds| && FindHold(holds, src, dst) == i + FindHold(holds[i..], src, dst)
      {
        assert holds[i..][1..] == holds[i + 1..];
        i := i + 1;
      }
      if i < |holds| {
        holds := holds[i := holds[i].(queue := holds[i].queue + [m])];
      } else {
        holds, made := [Hold(made, src, dst, [m])] + holds, made + 1;
      }
    }

    /** The ledgers take in a message that is new. */
    ghost method Record(m: Msg, anew: bool)
      modifies this`accepted, this`jumped
      ensures View() == Enter(old(View()), m, anew)
    {
      ghost var st := Enter(View(), m, anew);
      accepted, jumped := st.accepted, st.jumped;
    }

    /** An open slot takes the message; `call` says that its handler is to run. */
    method TakeIn(mode: Mode, m: Msg, ghost anew: bool) returns (rc: Status, call: bool)
      requires m.dst.Some?
      modifies this`inbox, this`accepted, this`delivered, this`jumped, this`frames
      ensures (View(), rc) == Take(old(View()), mode, m, anew) && call == (frames != old(frames))
      ensures call ==> frames == old(frames) + [Handling]
    {
      hide Enter;
      EnterSame(View(), m, anew);
      var d := m.dst.value;
      if mode == Sync {
        if d !in handlers { return ENOENT, false; }
        Record(m, anew);
        delivered, frames := delivered + [m], frames + [Handling];
        return OK, true;
      }
      Record(m, anew);
      inbox := inbox[d := (if d in inbox then inbox[d] else []) + [m]];
      return OK, false;
    }

    /** `do_send` up to the handler: `sent` is the message as the caller finds it. */
    method DoSend(env: Env, m: Msg, depth: nat, ghost anew: bool) returns (sent: Msg, rc: Status, call: bool)
      modifies this`now, this`inbox, this`holds, this`made, this`accepted, this`delivered, this`jumped, this`frames
      ensures (View(), rc) == Carry(old(View()), Route(old(View()), env, m, depth, 0), anew)
      ensures sent == Route(old(View()), env, m, depth, 0).m && call == (frames != old(frames))
      ensures call ==> frames == old(frames) + [Handling]
      decreases REDIRECT_DEPTH_MAX - depth
    {
      hide FindEdge, CapsAllowed, Take, Kept, Enter, Route, Carry;
      ghost var st0 := View();
      SendIs(st0, env, m, depth, anew);
      if m.src.None? || m.dst.None? { return m, EINVAL, false; }
      var abort := Hook(env, m);
      if abort { return m, EABORT, false; }
      var edge := LookUpEdge(m.src.value, m.dst.value);
      if edge.None? { return m, ENOENT, false; }
      var ok := ScanCaps(m.src.value, m.caps);
      if !ok { return m, EINVAL, false; }
      if m.dst.value in pause && pause[m.dst.value] != Running {
        match edge.value.policy {
          case Queue =>
            Record(m, anew);
            HoldBack(m.src.value, m.dst.value, m);
            return m, OK, false;
          case Reject => return m, EBUSY, false;
          case Redirect =>
            if depth >= REDIRECT_DEPTH_MAX { return m, ELOOP, false; }
            if m.dst.value !in fallback { return m, ENOENT, false; }
            RedirectHop(st0, env, m, depth, anew);
            sent, rc, call := DoSend(env, m.(dst := Some(fallback[m.dst.value])), depth + 1, anew);
            return;
        }
      }
      sent := m;
      rc, call := TakeIn(edge.value.mode, m, anew);
    }

    /** The handler on top of the stack does what it does; it is still to return. */
    method RunHandler(env: Env) returns (rc: Status, ok: bool, ghost t: seq<Step>)
      requires Valid() && frames != [] && View().Top().Handling?
      modifies this`asked, this`patience, this`pause, this`inbox, this`holds, this`made, this`now, this`frames, this`accepted, this`delivered, this`jumped
      ensures Valid() && Went(old(View()), env, t, View()) && asked >= old(asked) && patience <= old(patience) && (!ok ==> Stopped())
      ensures asked == old(asked) ==> ok && asked == |answers| && holds == old(holds) && pause == old(pause) && patience == old(patience)
      ensures ok ==> && frames == old(frames) && rc == StatusAt(old(asked))
                     && DoesAll(ActsAt(old(asked)), CallsAt(old(View()), env, t, |old(frames)|))
      decreases |answers| - asked, patience, 0
    {
      hide Tidy, Went, CallsAt, DoesAll, Loose, Circles;
      WentNowhere(View(), env);
      if asked == |answers| {
        DoesNothing();
        return OK, true, [];
      }
      var a := answers[asked];
      asked := asked + 1;
      ok, t := RunActs(env, a.acts);
      rc := a.rc;
    }

    /** A handler that a step has just started runs and returns. */
    method Serve(env: Env, ghost st0: State, ghost t0: seq<Step>) returns (rc: Status, ok: bool, ghost t: seq<Step>)
      requires Valid() && |st0.frames| < |frames| && View().Top().Handling? && Went(st0, env, t0, View())
      modifies this`asked, this`patience, this`pause, this`inbox, this`holds, this`made, this`now, this`frames, this`accepted, this`delivered, this`jumped
      ensures Valid() && Went(st0, env, t, View()) && asked >= old(asked) && patience <= old(patience) && (!ok ==> Stopped())
      ensures asked == old(asked) ==> ok && asked == |answers| && holds == old(holds) && pause == old(pause) && patience == old(patience)
      ensures ok ==> && frames == old(frames)[..|old(frames)| - 1] && rc == StatusAt(old(asked))
                     && CallsAt(st0, env, t, |st0.frames|) == CallsAt(st0, env, t0, |st0.frames|)
                     && (CallsAt(st0, env, t0, |old(frames)|) == [] ==> Handled(ActsAt(old(asked)), CallsAt(st0, env, t, |old(frames)|)))
      decreases |answers| - asked, patience, 1
    {
      hide Tidy, Went, CallsAt, DoesAll, Handled, Loose, Circles;
      ghost var st1 := View();
      rc, ok, t := RunHandler(env);
      WentOn(st0, env, t0, st1, t, View());
      if !ok {
        t := t0 + t;
        return;
      }
      WentAbove(st1, env, t, View(), |st0.frames|);
      WentReturn(st0, env, t0 + t, View(), Return);
      ghost var own := CallsAt(st1, env, t, |st1.frames|);
      assert [] + own == own;
      HandledIs(ActsAt(old(asked)), own);
      t := t0 + t + [Return];
      TidyReturn(View(), env);
      frames := frames[..|frames| - 1];
    }

    /** `nx_ipc_send`. */
    method SendMsg(env: Env, m: Msg) returns (sent: Msg, rc: Status, ok: bool, ghost t: seq<Step>)
      requires Valid() && View().UserRuns()
      modifies this`asked, this`patience, this`pause, this`inbox, this`holds, this`made, this`now, this`frames, this`accepted, this`delivered, this`jumped
      ensures Valid() && Went(old(View()), env, t, View()) && asked >= old(asked) && patience <= old(patience) && (!ok ==> Stopped())
      ensures sent == Route(old(View()), env, m, 0, 0).m
      ensures ok ==> frames == old(frames) && CallsAt(old(View()), env, t, |frames|) == [Put(m)]
      ensures var (st, status) := Send(old(View()), env, m, true);
              if st.frames == old(frames) then ok && rc == status && t == [Put(m)]
              else ok ==> rc == StatusAt(old(asked)) && Handled(ActsAt(old(asked)), CallsAt(old(View()), env, t, |frames| + 1))
      decreases |answers| - asked, patience, 2
    {
      hide Tidy, Went, Route, Carry, CallsAt, Handled, Loose, Circles;
      ghost var st0 := View();
      CarryKeeps(st0, Route(st0, env, m, 0, 0), true);
      var call;
      sent, rc, call := DoSend(env, m, 0, true);
      WentStep(st0, env, Put(m), View());
      WentTidy(st0, env, [Put(m)], View());
      ok, t := true, [Put(m)];
      if call { rc, ok, t := Serve(env, st0, t); }
    }

    /** The next message of the flush on top, up to its handler. */
    method Resend(env: Env, m: Msg) returns (call: bool)
      requires frames != [] && View().Top().Flushing? && View().Top().queue != [] && View().Top().queue[0] == m
      modifies this`now, this`inbox, this`holds, this`made, this`accepted, this`delivered, this`jumped, this`frames
      ensures View() == AgainOne(old(View()), env)
      ensures var f := old(View().Top());
              var shifted := old(frames)[|old(frames)| - 1 := f.(queue := f.queue[1..])];
              frames == if call then shifted + [Handling] else shifted
    {
      hide Route, Carry, Shifted;
      ShiftIs(View());
      ghost var f := View().Top();
      frames := frames[|frames| - 1 := f.(queue := f.queue[1..])];
      ghost var st1 := View();
      CarryKeeps(st1, Route(st1, env, m, 0, 0), false);
      var sent, rc;
      sent, rc, call := DoSend(env, m, 0, false);
    }

    /** The next message of the flush on top goes through the router again. */
    method ReplayOne(env: Env, m: Msg) returns (ok: bool, ghost t: seq<Step>)
      requires Valid() && frames != [] && View().Top().Flushing? && View().Top().queue != [] && View().Top().queue[0] == m
      modifies this`asked, this`patience, this`pause, this`inbox, this`holds, this`made, this`now, this`frames, this`accepted, this`delivered, this`jumped
      ensures Valid() && Went(old(View()), env, t, View()) && asked >= old(asked) && patience <= old(patience) && (!ok ==> Stopped())
      ensures ok ==> var f := old(View().Top()); frames == old(frames)[|old(frames)| - 1 := f.(queue := f.queue[1..])]
      ensures asked == old(asked) ==> ok && Same(old(View()), old(patience), old(View().Top()).at, old(View().Top()).dst)
      ensures ok ==> t == [Again] || Handled(ActsAt(old(asked)), CallsAt(old(View()), env, t, |frames| + 1))
      decreases |answers| - asked, patience, 2
    {
      hide Tidy, Went, AgainOne, CallsAt, Handled, Loose, Circles, Place, Reach, Stands, Rest;
      ghost var st0, f := View(), View().Top();
      if Stands(holds, f.at) { ReplayKeeps(st0, env); }
      var call := Resend(env, m);
      WentStep(st0, env, Again, View());
      WentTidy(st0, env, [Again], View());
      ok, t := true, [Again];
      if call {
        var rc;
        rc, ok, t := Serve(env, st0, t);
      }
    }

    /** Since `st0` no handler did anything; what is ahead of the pointer is as much as it was,
        except at the head of the list of a paused slot. */
    ghost predicate Same(st0: State, patience0: nat, at: Option<nat>, dst: SlotId)
      reads this
    {
      && pause == st0.pause && patience == patience0
      && (Stands(st0.holds, at) ==>
            && Stands(holds, at)
            && (at.Some? || st0.Pause(dst) == Running ==> Rest(holds, at) == Rest(st0.holds, at)))
    }

    /** The messages of one detached entry, in order. */
    method ReplayEntry(env: Env, queue: seq<Msg>) returns (ok: bool, ghost t: seq<Step>)
      requires Valid() && frames != [] && View().Top().Flushing? && View().Top().queue == queue
      modifies this`asked, this`patience, this`pause, this`inbox, this`holds, this`made, this`now, this`frames, this`accepted, this`delivered, this`jumped
      ensures Valid() && Went(old(View()), env, t, View()) && asked >= old(asked) && patience <= old(patience) && (!ok ==> Stopped())
      ensures ok ==> frames == old(frames)[|old(frames)| - 1 := old(View().Top()).(queue := [])]
      ensures asked == old(asked) ==> ok && Same(old(View()), old(patience), old(View().Top()).at, old(View().Top()).dst)
      decreases |answers| - asked, patience, 3
    {
      hide Tidy, Went, CallsAt, Handled, Loose, Circles, Place;
      ghost var st0, f := View(), View().Top();
      ok, t := true, [];
      WentNowhere(st0, env);
      assert queue[0..] == queue;
      for i := 0 to |queue|
        invariant ok && Valid() && Went(st0, env, t, View()) && asked >= old(asked) && patience <= old(patience)
        invariant asked == old(asked) ==> Same(st0, old(patience), f.at, f.dst)
        invariant frames == st0.frames[|st0.frames| - 1 := f.(queue := queue[i..])]
      {
        ghost var st1 := View();
        assert queue[i..][1..] == queue[i + 1..];
        ghost var u;
        ok, u := ReplayOne(env, queue[i]);
        WentOn(st0, env, t, st1, u, View());
        t := t + u;
        if !ok { return; }
      }
      assert queue[|queue|..] == [];
    }

    /** Take the entry at `r` off the list and replay it. */
    method FlushEntry(env: Env, r: nat) returns (ok: bool, ghost t: seq<Step>)
      requires Valid() && Enabled(View(), Detach) && r == Reach(holds, View().Top().at)
      modifies this`asked, this`patience, this`pause, this`inbox, this`holds, this`made, this`now, this`frames, this`accepted, this`delivered, this`jumped
      ensures Valid() && Went(old(View()), env, t, View()) && asked >= old(asked) && patience <= old(patience) && (!ok ==> Stopped())
      ensures ok ==> frames == old(frames)[|old(frames)| - 1 := old(View().Top()).(src := old(holds[r]).src)]
      ensures asked == old(asked) ==>
                var st0, f := old(View()), old(View().Top());
                && ok && pause == st0.pause && patience == old(patience)
                && (f.at.Some? || st0.Pause(f.dst) == Running ==> Stands(holds, f.at) && 0 <= Rest(holds, f.at) < Rest(st0.holds, f.at))
      decreases |answers| - asked, patience, 4
    {
      hide Tidy, Went, CallsAt, Handled, Loose, Circles, Place, Less;
      ghost var st0, f := View(), View().Top();
      DetachTidy(st0);
      TidyHolds(st0);
      LessRest(holds, f.at);
      var e := holds[r];
      holds := holds[..r] + holds[r + 1..];
      frames := frames[|frames| - 1 := f.(src := e.src, queue := e.queue)];
      ghost var st1 := View();
      DetachIs(st0, st1, r);
      WentStep(st0, env, Detach, st1);
      ghost var u;
      ok, u := ReplayEntry(env, e.queue);
      WentOn(st0, env, [Detach], st1, u, View());
      t := [Detach] + u;
      if Stands(holds, f.at) { RestNonNegative(holds, f.at); }
    }

    /** On to the link of the entry at `r`, which is for another slot. */
    method PassEntry(env: Env, r: nat) returns (at: Option<nat>, ghost t: seq<Step>)
      requires Valid() && Enabled(View(), Pass) && r == Reach(holds, View().Top().at)
      modifies this`frames
      ensures Valid() && Went(old(View()), env, t, View())
      ensures frames == old(frames)[|old(frames)| - 1 := old(View().Top()).(at := at)]
      ensures Stands(holds, at) && Rest(holds, at) == Rest(holds, old(View().Top()).at) - 1
    {
      hide Tidy, Went, CallsAt, Place;
      ghost var st0 := View();
      PassTidy(st0);
      TidyHolds(st0);
      PlaceAt(holds, r);
      at, t := Some(holds[r].id), [Pass];
      frames := frames[|frames| - 1 := View().Top().(at := at)];
      PassIs(st0, View(), r);
      WentStep(st0, env, Pass, View());
    }

    /** `nx_ipc_flush_hold_queue`: with a pointer into the list, past the entries for other
        slots; those for `dst` are detached and replayed one by one. */
    method FlushHolds(env: Env, dst: SlotId) returns (ok: bool, ghost t: seq<Step>)
      requires Valid() && frames != [] && View().Top().Flushing? && View().Top().dst == dst
      requires View().Top().queue == [] && View().Top().at == None
      modifies this`asked, this`patience, this`pause, this`inbox, this`holds, this`made, this`now, this`frames, this`accepted, this`delivered, this`jumped
      ensures Valid() && Went(old(View()), env, t, View()) && asked >= old(asked) && patience <= old(patience) && (!ok ==> Stopped())
      ensures ok ==> && |frames| == |old(frames)| && frames[..|frames| - 1] == old(frames)[..|frames| - 1] && Enabled(View(), Close)
      decreases |answers| - asked, patience, 5
    {
      hide Tidy, Went, CallsAt, Handled, Circles, Place;
      ghost var st0 := View();
      ok, t := true, [];
      var at: Option<nat> := None;
      WentNowhere(st0, env);
      while true
        invariant ok && Valid() && Went(st0, env, t, View()) && asked >= old(asked) && patience <= old(patience)
        invariant |frames| == |st0.frames| && frames[..|frames| - 1] == st0.frames[..|frames| - 1]
        invariant View().Top().Flushing? && View().Top().dst == dst && View().Top().queue == [] && View().Top().at == at
        decreases |answers| - asked, patience, if Stands(holds, at) then Rest(holds, at) + 1 else 0
      {
        if !Stands(holds, at) { return false, t; }
        RestNonNegative(holds, at);
        var r := Reach(holds, at);
        if r == |holds| { return true, t; }
        ghost var st1, u := View(), [];
        if holds[r].dst != dst {
          at, u := PassEntry(env, r);
        } else {
          if at.None? && dst in pause && pause[dst] != Running {
            if patience == 0 {
              CirclesHere(View());
              return false, t;
            }
            patience := patience - 1;
          }
          ok, u := FlushEntry(env, r);
        }
        WentOn(st0, env, t, st1, u, View());
        t := t + u;
        if !ok { return; }
      }
    }

    /** Clear the pause state, then flush, as resume and pause rollback do. */
    method ReopenSlot(env: Env, s: SlotId) returns (ok: bool, ghost t: seq<Step>)
      requires Valid() && View().UserRuns()
      modifies this`asked, this`patience, this`pause, this`inbox, this`holds, this`made, this`now, this`frames, this`accepted, this`delivered, this`jumped
      ensures Valid() && Went(old(View()), env, t, View()) && asked >= old(asked) && patience <= old(patience) && (!ok ==> Stopped())
      ensures ok ==> frames == old(frames) && CallsAt(old(View()), env, t, |frames|) == [Open(s)]
      ensures ok && View().Pause(s) == Running && !BeingFlushed(View(), s) ==> forall e | e in holds :: e.dst != s
      decreases |answers| - asked, patience, 6
    {
      hide Tidy, Went, CallsAt, Loose, Circles, Place, BeingFlushed;
      ghost var st0 := View();
      pause := pause[s := Running];
      frames := frames + [Flushing(s, s, [], None)];
      ghost var st1 := View();
      WentStep(st0, env, Open(s), st1);
      WentTidy(st0, env, [Open(s)], st1);
      ghost var u;
      ok, u := FlushHolds(env, s);
      ghost var st2 := View();
      WentOn(st0, env, [Open(s)], st1, u, st2);
      t := [Open(s)] + u;
      if !ok { return; }
      WentAbove(st1, env, u, st2, |st0.frames|);
      WentReturn(st0, env, [Open(s)] + u, st2, Close);
      frames := frames[..|frames| - 1];
      t := [Open(s)] + u + [Close];
      WentTidy(st0, env, t, View());
      NothingWaits(View(), s);
    }

    /** The head of the inbox is taken off and shown to the hook; `call` says that its handler
        is to run. */
    method TakeOff(env: Env, s: SlotId) returns (abort: bool, call: bool)
      requires View().Inbox(s) != []
      modifies this`inbox, this`now, this`frames, this`delivered
      ensures View() == PopOne(old(View()), env, s) && abort == env.abort(old(now), old(View()).Inbox(s)[0])
      ensures call == (!abort && s in handlers) && frames == if call then old(frames) + [Handling] else old(frames)
    {
      var m := inbox[s][0];
      inbox := inbox[s := inbox[s][1..]];
      abort := Hook(env, m);
      call := !abort && s in handlers;
      if call { delivered, frames := delivered + [m], frames + [Handling]; }
    }

    /** One message off the inbox: vetoed, without a handler, or handled. */
    method DispatchOne(env: Env, s: SlotId) returns (more: bool, ok: bool, ghost t: seq<Step>)
      requires Valid() && View().UserRuns() && View().Inbox(s) != []
      modifies this`asked, this`patience, this`pause, this`inbox, this`holds, this`made, this`now, this`frames, this`accepted, this`delivered, this`jumped
      ensures Valid() && Went(old(View()), env, t, View()) && asked >= old(asked) && patience <= old(patience) && (!ok ==> Stopped())
      ensures ok ==> frames == old(frames) && CallsAt(old(View()), env, t, |frames|) == [Pop(s)]
      ensures ok ==> (more <==> env.abort(old(now), old(View()).Inbox(s)[0]) || (s in old(handlers) && StatusAt(old(asked)) == OK))
      ensures !more && ok && s in old(handlers) ==> old(asked) < asked
      ensures ok ==> t == [Pop(s)] || Handled(ActsAt(old(asked)), CallsAt(old(View()), env, t, |frames| + 1))
      decreases |answers| - asked, patience, 2
    {
      hide Tidy, Went, CallsAt, Handled, PopOne, Loose, Circles;
      ghost var st0 := View();
      PopTidy(st0, env, s);
      var abort, call := TakeOff(env, s);
      ok, t := true, [Pop(s)];
      WentStep(st0, env, Pop(s), View());
      if !call { return abort, true, t; }
      var rc;
      rc, ok, t := Serve(env, st0, t);
      more := rc == OK;
    }

    /** `nx_ipc_dispatch`: up to `max` messages; a veto drops one, a failing handler ends it. */
    method DispatchInbox(env: Env, s: SlotId, max: nat) returns (count: nat, ok: bool, ghost t: seq<Step>)
      requires Valid() && View().UserRuns()
      modifies this`asked, this`patience, this`pause, this`inbox, this`holds, this`made, this`now, this`frames, this`accepted, this`delivered, this`jumped
      ensures Valid() && Went(old(View()), env, t, View()) && asked >= old(asked) && patience <= old(patience) && (!ok ==> Stopped())
      ensures count <= max
      ensures ok ==> var calls := CallsAt(old(View()), env, t, |frames|); frames == old(frames) && |calls| == count && All(calls, Pop(s))
      ensures ok ==> || count == max || View().Inbox(s) == [] || s !in handlers
                     || exists k | old(asked) <= k < asked :: StatusAt(k) != OK
      decreases |answers| - asked, patience, 6
    {
      hide Tidy, Went, CallsAt, Handled, Loose, Circles;
      ghost var st0 := View();
      count, ok, t := 0, true, [];
      WentNowhere(st0, env);
      while count < max && s in inbox && inbox[s] != []
        invariant count <= max && ok && Valid() && frames == st0.frames && Went(st0, env, t, View())
        invariant asked >= old(asked) && patience <= old(patience)
        invariant var calls := CallsAt(st0, env, t, |frames|); |calls| == count && All(calls, Pop(s))
        decreases max - count
      {
        ghost var st1, u, k := View(), [], asked;
        var more;
        more, ok, u := DispatchOne(env, s);
        WentOn(st0, env, t, st1, u, View());
        t := t + u;
        count := count + 1;
        if !ok { return; }
        if !more {
          assert s in handlers ==> old(asked) <= k < asked && StatusAt(k) != OK;
          return;
        }
      }
    }

    /** What component code does with the router. */
    method RunActs(env: Env, acts: seq<Act>) returns (ok: bool, ghost t: seq<Step>)
      requires Valid() && View().UserRuns()
      modifies this`asked, this`patience, this`pause, this`inbox, this`holds, this`made, this`now, this`frames, this`accepted, this`delivered, this`jumped
      ensures Valid() && Went(old(View()), env, t, View()) && asked >= old(asked) && patience <= old(patience) && (!ok ==> Stopped())
      ensures ok ==> frames == old(frames) && DoesAll(acts, CallsAt(old(View()), env, t, |frames|))
      decreases |answers| - asked, patience, 7
    {
      hide Tidy, Went, Route, CallsAt, DoesAll, Handled, Loose, Circles, BeingFlushed;
      ghost var st0 := View();
      ok, t := true, [];
      WentNowhere(st0, env);
      DoesNothing();
      assert acts[..0] == [];
      for i := 0 to |acts|
        invariant ok && Valid() && frames == st0.frames && Went(st0, env, t, View())
        invariant asked >= old(asked) && patience <= old(patience) && DoesAll(acts[..i], CallsAt(st0, env, t, |frames|))
      {
        ghost var st1, u := View(), [];
        WentNowhere(st1, env);
        match acts[i] {
          case Sending(m) =>
            var sent, rc;
            sent, rc, ok, u := SendMsg(env, m);
          case Draining(s, max) =>
            var n;
            n, ok, u := DispatchInbox(env, s, max);
          case Pausing(s, to) =>
            if to != Running {
              HaltTidy(st1, s, to);
              pause := pause[s := to];
              u := [Halt(s, to)];
              WentStep(st1, env, Halt(s, to), View());
            }
          case Reopening(s) => ok, u := ReopenSlot(env, s);
        }
        WentOn(st0, env, t, st1, u, View());
        if !ok {
          t := t + u;
          return;
        }
        DoesMore(acts, i, CallsAt(st0, env, t, |frames|), CallsAt(st1, env, u, |frames|));
        t := t + u;
      }
      assert acts[..|acts|] == acts;
    }
  }

  lemma ShiftIs(st: State)
    requires Enabled(st, Again)
    ensures Shifted(st) == st.(frames := st.frames[|st.frames| - 1 := st.Top().(queue := st.Top().queue[1..])])
  {
  }

  lemma DetachIs(st: State, st': State, r: nat)
    requires Enabled(st, Detach) && r == Reach(st.holds, st.Top().at)
    requires st' == st.(holds := st.holds[..r] + st.holds[r + 1..],
                        frames := st.frames[|st.frames| - 1 := st.Top().(src := st.holds[r].src, queue := st.holds[r].queue)])
    ensures DetachOne(st) == st'
  {
  }

  lemma PassIs(st: State, st': State, r: nat)
    requires Enabled(st, Pass) && r == Reach(st.holds, st.Top().at)
    requires st' == st.(frames := st.frames[|st.frames| - 1 := st.Top().(at := Some(st.holds[r].id))])
    ensures PassOne(st) == st'
  {
  }

  lemma RestNonNegative(holds: seq<Hold>, at: Option<nat>)
    requires Stands(holds, at)
    ensures 0 <= Rest(holds, at) && Reach(holds, at) <= |holds|
  {
    hide Place;
  }

  /** The entry a pointer leads to goes off the list: the pointer stands, with one less ahead. */
  lemma LessRest(holds: seq<Hold>, at: Option<nat>)
    requires Others(holds) && Stands(holds, at) && Reach(holds, at) < |holds|
    ensures var r := Reach(holds, at);
            Stands(Less(holds, r), at) && Rest(Less(holds, r), at) == Rest(holds, at) - 1
  {
    hide Place, Others, Less;
    var r := Reach(holds, at);
    LessSize(holds, r);
    if at.Some? { LessPlace(holds, r, at.value); }
  }

  lemma CirclesHere(st: State)
    requires Enabled(st, Detach) && st.Top().at.None?
    ensures Circles(st)
  {
  }

  lemma NothingWaits(st: State, s: SlotId)
    requires Tidy(st)
    ensures st.Pause(s) == Running && !BeingFlushed(st, s) ==> forall e | e in st.holds :: e.dst != s
  {
    hide InboxesFiled, HoldsFiled, FramesOk, BeingFlushed, Serves;
    if st.Pause(s) == Running && !BeingFlushed(st, s) {
      forall e | e in st.holds ensures e.dst != s {
        var i :| 0 <= i < |st.holds| && st.holds[i] == e;
        if e.dst == s {
          ServedIsFlush(st, i);
          assert false;
        }
      }
    }
  }

  lemma ServedIsFlush(st: State, i: nat)
    requires AllServed(st) && i < |st.holds| && st.Pause(st.holds[i].dst) == Running
    ensures BeingFlushed(st, st.holds[i].dst)
  {
    hide BeingFlushed;
    assert Served(st, i);
    var j: nat :| Serves(st, i, j);
    FlushedBySome(st, j, st.holds[i].dst);
  }

  /** `do_send` by cases, as long as it does not go on to a fallback. */
  lemma SendIs(st: State, env: Env, m: Msg, depth: nat, anew: bool)
    ensures var r, st1 := Route(st, env, m, depth, 0), st.(now := st.now + 1);
            match Decide(st, env, m, depth, st.now)
            case Onward(_) => true
            case Stop(Refuse(rc), h) => r.m == m && Carry(st, r, anew) == (st.(now := st.now + h), rc)
            case Stop(HoldIt, h) => r.m == m && h == 1 && Carry(st, r, anew) == (Kept(Enter(st1, m, anew), m), OK)
            case Stop(TakeIt(mode), h) => r.m == m && h == 1 && Carry(st, r, anew) == Take(st1, mode, m, anew)
  {
    hide FindEdge, CapsAllowed, Take, Kept, Enter;
  }

  lemma {:induction false} CapsStop(conns: seq<Connection>, src: SlotId, caps: seq<Cap>, n: nat)
    requires n <= |caps| && !CapsAllowed(conns, src, caps[..n])
    ensures !CapsAllowed(conns, src, caps)
    decreases |caps| - n
  {
    if n == |caps| {
      assert caps[..n] == caps;
    } else {
      assert caps[..n + 1][..n] == caps[..n];
      CapsStop(conns, src, caps, n + 1);
    }
  }
}
