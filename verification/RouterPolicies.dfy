/** What becomes of a message: told by the edges there are, the slots that are open and the
    chain of fallbacks, for every policy. */
module RouterPolicies {
  import opened Composition
  import opened Sequences
  import opened Router
  import RouterTidy

  // ---------------------------------------------------------------- edges and references

  predicate Joins(c: Connection, src: SlotId, dst: SlotId) {
    c.from == Some(src) && c.to == dst
  }

  ghost predicate HasEdge(conns: seq<Connection>, src: SlotId, dst: SlotId) {
    exists c :: c in conns && Joins(c, src, dst)
  }

  /** `e` is the first edge of the pair. */
  ghost predicate FirstEdge(conns: seq<Connection>, src: SlotId, dst: SlotId, e: Connection) {
    exists i: nat :: i < |conns| && conns[i] == e && Joins(e, src, dst) && forall k | 0 <= k < i :: !Joins(conns[k], src, dst)
  }

  lemma {:induction false} FindEdgeIs(conns: seq<Connection>, src: SlotId, dst: SlotId)
    ensures FindEdge(conns, src, dst).Some? <==> HasEdge(conns, src, dst)
    ensures FindEdge(conns, src, dst).Some? ==> FirstEdge(conns, src, dst, FindEdge(conns, src, dst).value)
  {
    if conns != [] {
      FindEdgeIs(conns[1..], src, dst);
      if Joins(conns[0], src, dst) {
        assert conns[0] in conns;
      } else if FindEdge(conns, src, dst).Some? {
        var e := FindEdge(conns, src, dst).value;
        var i: nat :| i < |conns[1..]| && conns[1..][i] == e && Joins(e, src, dst) && forall k | 0 <= k < i :: !Joins(conns[1..][k], src, dst);
        assert conns[i + 1] == e && e in conns;
        forall k | 0 <= k < i + 1 ensures !Joins(conns[k], src, dst) { assert k > 0 ==> conns[1..][k - 1] == conns[k]; }
      }
      if HasEdge(conns, src, dst) && !Joins(conns[0], src, dst) {
        var c :| c in conns && Joins(c, src, dst);
        assert c in conns[1..];
      }
    }
  }

  lemma OneFirst(conns: seq<Connection>, src: SlotId, dst: SlotId, e: Connection)
    requires FirstEdge(conns, src, dst, e)
    ensures FindEdge(conns, src, dst) == Some(e)
  {
    hide FindEdge;
    FindEdgeIs(conns, src, dst);
    var i: nat :| i < |conns| && conns[i] == e && Joins(e, src, dst) && forall k | 0 <= k < i :: !Joins(conns[k], src, dst);
    assert e in conns;
    var f := FindEdge(conns, src, dst).value;
    var j: nat :| j < |conns| && conns[j] == f && Joins(f, src, dst) && forall k | 0 <= k < j :: !Joins(conns[k], src, dst);
    assert i == j;
  }

  /** A message may carry references to slots its sender has an edge to, and no others. */
  lemma {:induction false} CapsExactly(conns: seq<Connection>, src: SlotId, caps: seq<Cap>)
    ensures CapsAllowed(conns, src, caps) <==>
            forall cap | cap in caps && cap.SlotRef? :: cap.target.Some? && HasEdge(conns, src, cap.target.value)
  {
    hide FindEdge, HasEdge;
    if caps != [] {
      var front, last := caps[..|caps| - 1], caps[|caps| - 1];
      assert caps == front + [last];
      CapsExactly(conns, src, front);
      if last.SlotRef? && last.target.Some? { FindEdgeIs(conns, src, last.target.value); }
    }
  }

  // ---------------------------------------------------------------- one hop

  /** The sender of `m` has an edge to `d` and may send what it carries. */
  ghost predicate MaySend(st: State, src: SlotId, caps: seq<Cap>, d: SlotId) {
    HasEdge(st.conns, src, d) && forall cap | cap in caps && cap.SlotRef? :: cap.target.Some? && HasEdge(st.conns, src, cap.target.value)
  }

  /** The edge to `d` redirects, `d` is paused and has a fallback: the message goes on. */
  ghost predicate Passes(st: State, src: SlotId, d: SlotId) {
    && st.Pause(d) != Running && d in st.fallback
    && exists e :: FirstEdge(st.conns, src, d, e) && e.policy == Redirect
  }

  /** What happens to a message that stops at `d`; `far` says that it has been redirected as
      often as it may be. */
  ghost predicate Stops(st: State, src: SlotId, caps: seq<Cap>, d: SlotId, far: bool, verdict: Verdict) {
    if !HasEdge(st.conns, src, d) then verdict == Refuse(ENOENT)
    else if !MaySend(st, src, caps, d) then verdict == Refuse(EINVAL)
    else
      exists e :: FirstEdge(st.conns, src, d, e) &&
        if st.Pause(d) == Running then verdict == TakeIt(e.mode)
        else match e.policy
             case Queue => verdict == HoldIt
             case Reject => verdict == Refuse(EBUSY)
             case Redirect => verdict == Refuse(if far then ELOOP else ENOENT)
  }

  lemma HopIs(st: State, env: Env, m: Msg, depth: nat, at: nat)
    requires m.src.Some? && m.dst.Some? && !env.abort(at, m) && depth <= REDIRECT_DEPTH_MAX
    ensures var hop, s, d := Decide(st, env, m, depth, at), m.src.value, m.dst.value;
            if Passes(st, s, d) && MaySend(st, s, m.caps, d) && depth < REDIRECT_DEPTH_MAX then hop == Onward(st.fallback[d])
            else hop.Stop? && hop.hooks == 1 && Stops(st, s, m.caps, d, depth == REDIRECT_DEPTH_MAX, hop.verdict)
  {
    hide FindEdge, CapsAllowed, HasEdge, FirstEdge;
    var s, d := m.src.value, m.dst.value;
    FindEdgeIs(st.conns, s, d);
    CapsExactly(st.conns, s, m.caps);
    if Passes(st, s, d) {
      var e :| FirstEdge(st.conns, s, d, e) && e.policy == Redirect;
      OneFirst(st.conns, s, d, e);
    }
    if FindEdge(st.conns, s, d).Some? { assert FirstEdge(st.conns, s, d, FindEdge(st.conns, s, d).value); }
  }

  // ---------------------------------------------------------------- the chain of fallbacks

  /** `path` starts at `d` and follows fallbacks over paused slots that redirect, as far as
      it goes but no more than four hops. */
  ghost predicate Chain(st: State, src: SlotId, caps: seq<Cap>, d: SlotId, path: seq<SlotId>) {
    && path != [] && path[0] == d && |path| <= REDIRECT_DEPTH_MAX + 1
    && (forall i | 0 <= i < |path| - 1 :: Goes(st, src, caps, path[i]) && path[i + 1] == st.fallback[path[i]])
    && (|path| <= REDIRECT_DEPTH_MAX ==> !Goes(st, src, caps, path[|path| - 1]))
  }

  ghost predicate Goes(st: State, src: SlotId, caps: seq<Cap>, d: SlotId)
    ensures Goes(st, src, caps, d) ==> d in st.fallback
  {
    Passes(st, src, d) && MaySend(st, src, caps, d)
  }

  /** No hook vetoes the message on its way along `path`. */
  ghost predicate PassedAlong(env: Env, m: Msg, path: seq<SlotId>, t: nat) {
    forall i | 0 <= i < |path| :: !env.abort(t + i, m.(dst := Some(path[i])))
  }

  lemma {:induction false} RouteAlong(st: State, env: Env, m: Msg, path: seq<SlotId>, k: nat)
    requires m.src.Some? && k < |path| && m.dst == Some(path[k])
    requires Chain(st, m.src.value, m.caps, path[0], path) && PassedAlong(env, m, path, st.now)
    ensures var r, end := Route(st, env, m, k, k), path[|path| - 1];
            && r.m == m.(dst := Some(end)) && r.hooks == |path|
            && Stops(st, m.src.value, m.caps, end, |path| == REDIRECT_DEPTH_MAX + 1, r.verdict)
    decreases |path| - k
  {
    hide Decide, Stops, Passes, MaySend;
    assert m.(dst := Some(path[k])) == m && !env.abort(st.now + k, m.(dst := Some(path[k])));
    HopIs(st, env, m, k, st.now + k);
    if k < |path| - 1 {
      assert Goes(st, m.src.value, m.caps, path[k]);
      var m' := m.(dst := Some(path[k + 1]));
      assert forall i | 0 <= i < |path| :: m'.(dst := Some(path[i])) == m.(dst := Some(path[i]));
      RouteAlong(st, env, m', path, k + 1);
    } else if |path| <= REDIRECT_DEPTH_MAX {
      assert !Goes(st, m.src.value, m.caps, path[k]);
    }
  }

  /** There is exactly one such chain. */
  ghost function ChainFrom(st: State, src: SlotId, caps: seq<Cap>, d: SlotId, hops: nat): (path: seq<SlotId>)
    requires hops <= REDIRECT_DEPTH_MAX
    ensures path != [] && path[0] == d && |path| <= hops + 1
    ensures forall i | 0 <= i < |path| - 1 :: Goes(st, src, caps, path[i]) && path[i + 1] == st.fallback[path[i]]
    ensures |path| <= hops ==> !Goes(st, src, caps, path[|path| - 1])
    decreases hops
  {
    if hops == 0 || !Goes(st, src, caps, d) then [d] else [d] + ChainFrom(st, src, caps, st.fallback[d], hops - 1)
  }

  /** Where a message that no hook vetoes ends up, under every policy: at the end of its chain
      of fallbacks, where it is taken, held, turned away or found to have gone too far. */
  lemma RouteExactly(st: State, env: Env, m: Msg)
    requires m.src.Some? && m.dst.Some?
    ensures exists path :: Chain(st, m.src.value, m.caps, m.dst.value, path)
    ensures forall path | Chain(st, m.src.value, m.caps, m.dst.value, path) && PassedAlong(env, m, path, st.now) ::
              var r, end := Route(st, env, m, 0, 0), path[|path| - 1];
              && r.m == m.(dst := Some(end)) && r.hooks == |path|
              && Stops(st, m.src.value, m.caps, end, |path| == REDIRECT_DEPTH_MAX + 1, r.verdict)
  {
    hide Stops, PassedAlong;
    var path := ChainFrom(st, m.src.value, m.caps, m.dst.value, REDIRECT_DEPTH_MAX);
    assert Chain(st, m.src.value, m.caps, m.dst.value, path);
    forall path | Chain(st, m.src.value, m.caps, m.dst.value, path) && PassedAlong(env, m, path, st.now)
      ensures var r, end := Route(st, env, m, 0, 0), path[|path| - 1];
              && r.m == m.(dst := Some(end)) && r.hooks == |path|
              && Stops(st, m.src.value, m.caps, end, |path| == REDIRECT_DEPTH_MAX + 1, r.verdict)
    {
      RouteAlong(st, env, m, path, 0);
    }
  }

  /** A hook that vetoes the message on its way stops it there. */
  lemma {:induction false} RouteVetoed(st: State, env: Env, m: Msg, path: seq<SlotId>, n: nat, k: nat)
    requires m.src.Some? && k <= n < |path| && m.dst == Some(path[k])
    requires Chain(st, m.src.value, m.caps, path[0], path) && PassedAlong(env, m, path[..n], st.now)
    requires env.abort(st.now + n, m.(dst := Some(path[n])))
    ensures Route(st, env, m, k, k) == Routed(m.(dst := Some(path[n])), Refuse(EABORT), n + 1)
    decreases n - k
  {
    hide Stops, Passes, MaySend, FindEdge, CapsAllowed;
    assert m.(dst := Some(path[k])) == m;
    if k < n {
      assert !env.abort(st.now + k, m.(dst := Some(path[..n][k])));
      assert Goes(st, m.src.value, m.caps, path[k]);
      HopIs(st, env, m, k, st.now + k);
      var m' := m.(dst := Some(path[k + 1]));
      assert forall i | 0 <= i < |path| :: m'.(dst := Some(path[i])) == m.(dst := Some(path[i]));
      RouteVetoed(st, env, m', path, n, k + 1);
    }
  }

  // ---------------------------------------------------------------- carrying it out

  /** A message that is refused leaves everything but the clock as it was. */
  lemma RefusedIs(st: State, env: Env, m: Msg, anew: bool)
    requires Route(st, env, m, 0, 0).verdict.Refuse?
    ensures var r := Route(st, env, m, 0, 0); Send(st, env, m, anew) == (st.(now := st.now + r.hooks), r.verdict.rc)
  {
    hide Route;
  }

  /** A message without source or destination is refused before anyone is asked. */
  lemma NowhereIs(st: State, env: Env, m: Msg, anew: bool)
    requires m.src.None? || m.dst.None?
    ensures Send(st, env, m, anew) == (st, EINVAL)
  {
  }

  /** Over a REJECT edge to a paused slot: EBUSY, and nothing changes. */
  lemma RejectIs(st: State, env: Env, m: Msg, e: Connection, anew: bool)
    requires m.src.Some? && m.dst.Some? && st.Pause(m.dst.value) != Running && !env.abort(st.now, m)
    requires FirstEdge(st.conns, m.src.value, m.dst.value, e) && e.policy == Reject && MaySend(st, m.src.value, m.caps, m.dst.value)
    ensures Send(st, env, m, anew) == (st.(now := st.now + 1), EBUSY)
  {
    hide FindEdge, CapsAllowed;
    OneFirst(st.conns, m.src.value, m.dst.value, e);
    CapsExactly(st.conns, m.src.value, m.caps);
  }

  /** A message that is taken: over ASYNC it is last in the inbox of its slot; over SYNC the
      handler starts on it, or there is none and nothing changes. */
  lemma TakenIs(st: State, env: Env, m: Msg, anew: bool)
    requires Route(st, env, m, 0, 0).verdict.TakeIt? && Route(st, env, m, 0, 0).m.dst.Some?
    ensures var r, (st', rc) := Route(st, env, m, 0, 0), Send(st, env, m, anew);
            var d := r.m.dst.value;
            if r.verdict.mode == Async then
              && rc == OK && st'.Inbox(d) == st.Inbox(d) + [r.m] && st'.delivered == st.delivered && st'.frames == st.frames
              && st'.holds == st.holds && st'.pause == st.pause && forall s: SlotId | s != d :: st'.Inbox(s) == st.Inbox(s)
            else if d in st.handlers then
              && rc == OK && st'.delivered == st.delivered + [r.m] && st'.frames == st.frames + [Handling]
              && st'.inbox == st.inbox && st'.holds == st.holds && st'.pause == st.pause
            else rc == ENOENT && st' == st.(now := st.now + r.hooks)
  {
    hide Route, Late;
  }

  /** A message that is held: last in the hold queue of its pair, and nowhere else. */
  lemma HeldIs(st: State, env: Env, m: Msg, anew: bool)
    requires var r := Route(st, env, m, 0, 0); r.verdict.HoldIt? && r.m.src.Some? && r.m.dst.Some?
    ensures var r, (st', rc) := Route(st, env, m, 0, 0), Send(st, env, m, anew);
            && rc == OK && st'.inbox == st.inbox && st'.delivered == st.delivered && st'.frames == st.frames && st'.pause == st.pause
            && HoldOf(st'.holds, r.m.src.value, r.m.dst.value) == HoldOf(st.holds, r.m.src.value, r.m.dst.value) + [r.m]
            && forall s: SlotId, d: SlotId | (s, d) != (r.m.src.value, r.m.dst.value) :: HoldOf(st'.holds, s, d) == HoldOf(st.holds, s, d)
  {
    hide Route, Late, HoldOf, HoldMsg, FindHold;
    var r := Route(st, env, m, 0, 0);
    var src, dst := r.m.src.value, r.m.dst.value;
    RouterTidy.HoldMsgOf(st.holds, st.made, src, dst, r.m, src, dst);
    forall s: SlotId, d: SlotId | (s, d) != (src, dst) ensures HoldOf(Send(st, env, m, anew).0.holds, s, d) == HoldOf(st.holds, s, d) {
      RouterTidy.HoldMsgOf(st.holds, st.made, src, dst, r.m, s, d);
    }
  }

  // ---------------------------------------------------------------- taking from an inbox

  /** One message of `nx_ipc_dispatch` leaves the head of its inbox, whatever becomes of it;
      the handler starts on it exactly if there is one and no hook vetoes. */
  lemma PopIs(st: State, env: Env, s: SlotId)
    requires Enabled(st, Pop(s))
    ensures var m, st' := st.Inbox(s)[0], Next(st, env, Pop(s));
            && st.Inbox(s) == [m] + st'.Inbox(s) && (forall d: SlotId | d != s :: st'.Inbox(d) == st.Inbox(d))
            && st'.holds == st.holds && st'.pause == st.pause && st'.accepted == st.accepted && st'.now == st.now + 1
            && if s in st.handlers && !env.abort(st.now, m) then st'.delivered == st.delivered + [m] && st'.frames == st.frames + [Handling]
               else st'.delivered == st.delivered && st'.frames == st.frames
  {
  }

  /** Steps that touch no message: pausing, reopening, and the end of a handler or a flush. */
  lemma QuietIs(st: State, env: Env, step: Step)
    requires Enabled(st, step) && (step.Halt? || step.Open? || step.Return? || step.Close?)
    ensures var st' := Next(st, env, step);
            && st'.inbox == st.inbox && st'.holds == st.holds && st'.delivered == st.delivered && st'.accepted == st.accepted
            && st'.now == st.now
            && (step.Halt? || step.Open? ==>
                  forall d: SlotId :: st'.Pause(d) == if d != step.slot then st.Pause(d) else if step.Open? then Running else step.to)
            && (step.Open? ==> st'.frames == st.frames + [Flushing(step.slot, step.slot, [], None)])
            && (step.Return? || step.Close? ==> st'.frames + [st.Top()] == st.frames && st'.pause == st.pause)
            && (step.Halt? ==> st'.frames == st.frames)
  {
  }
}
