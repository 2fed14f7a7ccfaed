/** What the router keeps on a QUEUE edge over every run, with handlers that call it again:
    nothing accepted is lost or duplicated, and nothing is overtaken except by a message that
    comes while older ones of its edge are being replayed. */
module RouterOrder {
  import opened Composition
  import opened Sequences
  import opened Router
  import opened RouterTidy

  /** The messages of one edge, in order. */
  function Of(s: seq<Msg>, src: SlotId, dst: SlotId): seq<Msg> {
    if s == [] then []
    else
      var front, last := Of(s[..|s| - 1], src, dst), s[|s| - 1];
      if On(last, src, dst) then front + [last] else front
  }

  lemma OfSnoc(s: seq<Msg>, m: Msg, src: SlotId, dst: SlotId)
    ensures Of(s + [m], src, dst) == if On(m, src, dst) then Of(s, src, dst) + [m] else Of(s, src, dst)
  {
    assert (s + [m])[..|s|] == s;
  }

  lemma {:induction false} OfConcat(s: seq<Msg>, t: seq<Msg>, src: SlotId, dst: SlotId)
    ensures Of(s + t, src, dst) == Of(s, src, dst) + Of(t, src, dst)
  {
    if t == [] {
      assert s + t == s;
    } else {
      var front, last := t[..|t| - 1], t[|t| - 1];
      assert s + t == (s + front) + [last] && t == front + [last];
      OfConcat(s, front, src, dst);
      OfSnoc(s + front, last, src, dst);
      OfSnoc(front, last, src, dst);
    }
  }

  lemma OfCons(m: Msg, t: seq<Msg>, src: SlotId, dst: SlotId)
    ensures Of([m] + t, src, dst) == (if On(m, src, dst) then [m] else []) + Of(t, src, dst)
  {
    OfConcat([m], t, src, dst);
    assert [m] == [] + [m];
    OfSnoc([], m, src, dst);
  }

  lemma {:induction false} OfAll(s: seq<Msg>, src: SlotId, dst: SlotId)
    requires forall m | m in s :: On(m, src, dst)
    ensures Of(s, src, dst) == s
  {
    if s != [] {
      assert s == s[..|s| - 1] + [s[|s| - 1]];
      OfAll(s[..|s| - 1], src, dst);
    }
  }

  lemma {:induction false} OfNone(s: seq<Msg>, src: SlotId, dst: SlotId)
    requires forall m | m in s :: !On(m, src, dst)
    ensures Of(s, src, dst) == []
  {
    if s != [] {
      assert s == s[..|s| - 1] + [s[|s| - 1]];
      OfNone(s[..|s| - 1], src, dst);
    }
  }

  /** The edge `src` to `dst` has QUEUE policy and this mode. */
  ghost predicate QueueEdge(conns: seq<Connection>, handlers: set<SlotId>, src: SlotId, dst: SlotId, mode: Mode) {
    var e := FindEdge(conns, src, dst);
    e.Some? && e.value.policy == Queue && e.value.mode == mode && dst in handlers
  }

  /** No hook vetoes the edge's messages. */
  ghost predicate Unvetoed(env: Env, src: SlotId, dst: SlotId) {
    forall t: nat, m: Msg | On(m, src, dst) :: !env.abort(t, m)
  }

  // ---------------------------------------------------------------- one edge

  /** Where the messages of one edge are, and what the ledgers say of them. */
  datatype View = View(handled: seq<Msg>, queued: seq<Msg>, held: seq<Msg>, left: seq<Msg>, accepted: seq<Msg>, jumped: seq<Msg>)

  function ViewOf(st: State, src: SlotId, dst: SlotId): View {
    View(Of(st.delivered, src, dst), Of(st.Inbox(dst), src, dst), HoldOf(st.holds, src, dst), Left(st.frames, src, dst),
         Of(st.accepted, src, dst), Of(st.jumped, src, dst))
  }

  /** In the order in which they get to the handler: handled, queued, held, and what outer
      flushes have still to replay.  An entry detached later is replayed first, and a replay
      into a paused slot goes behind what is held. */
  function Line(v: View): seq<Msg> {
    v.handled + v.queued + v.held + v.left
  }

  /** What a step does to the edge: nothing new, or a message that goes in at position `n`. */
  datatype Move = Stay | Insert(m: Msg, n: nat)

  /** A message that does not go in at the end has jumped ahead. */
  predicate MovesBy(v: View, v': View, move: Move) {
    match move
    case Stay => v'.accepted == v.accepted && v'.jumped == v.jumped && Line(v') == Line(v)
    case Insert(m, n) =>
      && n <= |Line(v)| && Line(v') == Line(v)[..n] + [m] + Line(v)[n..]
      && v'.accepted == v.accepted + [m] && v'.jumped == if n < |Line(v)| then v.jumped + [m] else v.jumped
  }

  ghost predicate EdgeOk(st: State, src: SlotId, dst: SlotId, mode: Mode) {
    && Tidy(st) && QueueEdge(st.conns, st.handlers, src, dst, mode)
    && (mode == Sync ==> Of(st.Inbox(dst), src, dst) == [])
  }

  lemma EdgeRules(st: State, src: SlotId, dst: SlotId, mode: Mode)
    requires EdgeOk(st, src, dst, mode)
    ensures Tidy(st) && QueueEdge(st.conns, st.handlers, src, dst, mode) && (mode == Sync ==> ViewOf(st, src, dst).queued == [])
  {
  }

  lemma LateView(st: State, m: Msg, src: SlotId, dst: SlotId)
    requires On(m, src, dst)
    ensures var v := ViewOf(st, src, dst); Late(st, m) <==> v.left != [] || (st.Pause(dst) == Running && v.held != [])
  {
    hide Of, Left, HoldOf;
  }

  /** The ledgers of the edge after a message that is new. */
  lemma EnterView(st: State, m: Msg, anew: bool, src: SlotId, dst: SlotId)
    ensures var v := ViewOf(st, src, dst);
            ViewOf(Enter(st, m, anew), src, dst) ==
            if !anew || !On(m, src, dst) then v
            else v.(accepted := v.accepted + [m], jumped := if Late(st, m) then v.jumped + [m] else v.jumped)
  {
    hide Of, Left, HoldOf, Late;
    OfSnoc(st.accepted, m, src, dst);
    OfSnoc(st.jumped, m, src, dst);
  }

  lemma QueuedView(st: State, d: SlotId, m: Msg, src: SlotId, dst: SlotId)
    requires m.dst == Some(d)
    ensures var v := ViewOf(st, src, dst);
            ViewOf(Queued(st, d, m), src, dst) == if On(m, src, dst) then v.(queued := v.queued + [m]) else v
  {
    hide Of, Left, HoldOf;
    OfSnoc(st.Inbox(d), m, src, dst);
  }

  lemma CalledView(st: State, m: Msg, src: SlotId, dst: SlotId)
    ensures var v := ViewOf(st, src, dst);
            ViewOf(Called(st, m), src, dst) == if On(m, src, dst) then v.(handled := v.handled + [m]) else v
  {
    hide Of, Left, HoldOf;
    OfSnoc(st.delivered, m, src, dst);
    LeftSnoc(st.frames, Handling, src, dst);
    assert [] + Left(st.frames, src, dst) == Left(st.frames, src, dst);
  }

  lemma KeptView(st: State, m: Msg, src: SlotId, dst: SlotId)
    requires m.src.Some? && m.dst.Some?
    ensures var v := ViewOf(st, src, dst);
            ViewOf(Kept(st, m), src, dst) == if On(m, src, dst) then v.(held := v.held + [m]) else v
  {
    hide Of, Left, HoldOf, HoldMsg, FindHold;
    HoldMsgOf(st.holds, st.made, m.src.value, m.dst.value, m, src, dst);
  }

  // ---------------------------------------------------------------- sending

  /** The edge after an open slot has taken a message. */
  function TakenView(v: View, m: Msg, mode: Mode): View {
    if mode == Async then v.(queued := v.queued + [m]) else v.(handled := v.handled + [m])
  }

  /** An open slot takes a message: ours as ours, another's without touching us. */
  lemma TakeView(st: State, how: Mode, m: Msg, anew: bool, src: SlotId, dst: SlotId, mode: Mode)
    requires EdgeOk(st, src, dst, mode) && m.src.Some? && m.dst.Some? && (On(m, src, dst) ==> how == mode)
    ensures EdgeOk(Take(st, how, m, anew).0, src, dst, mode)
    ensures var v := ViewOf(Enter(st, m, anew), src, dst);
            ViewOf(Take(st, how, m, anew).0, src, dst) == if On(m, src, dst) then TakenView(v, m, mode) else ViewOf(st, src, dst)
  {
    hide Tidy, Of, Left, HoldOf, FindEdge, Enter;
    var st1 := Enter(st, m, anew);
    EnterTidy(st, m, anew);
    EnterView(st, m, anew, src, dst);
    EnterSame(st, m, anew);
    if how == Async {
      QueuedView(st1, m.dst.value, m, src, dst);
      QueuedTidy(st1, m.dst.value, m);
    } else if m.dst.value in st.handlers {
      CalledView(st1, m, src, dst);
      CalledTidy(st1, m);
    }
  }

  /** Taken into an open slot: ahead of everything held or left. */
  lemma TakeMoves(v: View, v1: View, m: Msg, mode: Mode, late: bool) returns (move: Move)
    requires (mode == Sync ==> v.queued == []) && (late <==> v.held + v.left != [])
    requires v1 == v.(accepted := v.accepted + [m], jumped := if late then v.jumped + [m] else v.jumped)
    ensures MovesBy(v, TakenView(v1, m, mode), move) && move.Insert?
  {
    var v', n := TakenView(v1, m, mode), |v.handled + v.queued|;
    move := Insert(m, n);
    assert Line(v) == (v.handled + v.queued) + (v.held + v.left);
    assert Line(v') == (v.handled + v.queued) + [m] + (v.held + v.left) by {
      assert mode == Async ==> Line(v') == v.handled + (v.queued + [m]) + v.held + v.left;
      assert mode == Sync ==> Line(v') == (v.handled + [m]) + [] + v.held + v.left;
    }
  }

  /** Held for a paused slot: ahead of everything left. */
  lemma KeepMoves(v: View, v1: View, m: Msg, late: bool) returns (move: Move)
    requires late <==> v.left != []
    requires v1 == v.(accepted := v.accepted + [m], jumped := if late then v.jumped + [m] else v.jumped)
    ensures MovesBy(v, v1.(held := v.held + [m]), move) && move.Insert?
  {
    var n := |v.handled + v.queued + v.held|;
    move := Insert(m, n);
    assert Line(v) == (v.handled + v.queued + v.held) + v.left;
    assert v.handled + v.queued + (v.held + [m]) == (v.handled + v.queued + v.held) + [m];
  }

  lemma ModeAgrees(st: State, r: Routed, src: SlotId, dst: SlotId, mode: Mode)
    requires QueueEdge(st.conns, st.handlers, src, dst, mode) && Meant(st, r) && r.verdict.TakeIt?
    ensures On(r.m, src, dst) ==> r.verdict.mode == mode
  {
    hide FindEdge, CapsAllowed;
  }

  lemma ClockOk(st: State, t: nat, src: SlotId, dst: SlotId, mode: Mode)
    requires EdgeOk(st, src, dst, mode)
    ensures EdgeOk(st.(now := t), src, dst, mode) && ViewOf(st.(now := t), src, dst) == ViewOf(st, src, dst)
  {
    hide Tidy, Of, Left, HoldOf, QueueEdge;
    TidyInboxes(st);
    SameTidy(st, st.(now := t));
  }

  /** Holding a message, new or not. */
  lemma KeepView(st: State, m: Msg, anew: bool, src: SlotId, dst: SlotId, mode: Mode)
    requires EdgeOk(st, src, dst, mode) && m.src.Some? && m.dst.Some? && st.Pause(m.dst.value) != Running
    requires CapsAllowed(st.conns, m.src.value, m.caps) && Queues(st.conns, m.src.value, m.dst.value)
    ensures var st1 := Enter(st, m, anew);
            && EdgeOk(Kept(st1, m), src, dst, mode)
            && var v1 := ViewOf(st1, src, dst);
               ViewOf(Kept(st1, m), src, dst) == if On(m, src, dst) then v1.(held := v1.held + [m]) else ViewOf(st, src, dst)
  {
    hide Tidy, Of, Left, HoldOf, HoldMsg, FindHold, FindEdge, Enter, CapsAllowed, Queues;
    var st1 := Enter(st, m, anew);
    EnterTidy(st, m, anew);
    EnterSame(st, m, anew);
    EnterView(st, m, anew, src, dst);
    KeptTidy(st1, m);
    KeptView(st1, m, src, dst);
  }

  /** Sending anything, on this edge or another, however it is redirected. */
  lemma PutMoves(st: State, env: Env, m: Msg, src: SlotId, dst: SlotId, mode: Mode) returns (move: Move)
    requires EdgeOk(st, src, dst, mode)
    ensures EdgeOk(Send(st, env, m, true).0, src, dst, mode)
    ensures MovesBy(ViewOf(st, src, dst), ViewOf(Send(st, env, m, true).0, src, dst), move)
    ensures move.Insert? ==> On(Route(st, env, m, 0, 0).m, src, dst)
  {
    hide EdgeOk, ViewOf, Route, Take, Kept, Enter, CapsAllowed, FindEdge, Late, TakenView, MovesBy;
    RouteMeans(st, env, m, 0, 0);
    var r := Route(st, env, m, 0, 0);
    var st1 := st.(now := st.now + r.hooks);
    ClockOk(st, st.now + r.hooks, src, dst, mode);
    EdgeRules(st, src, dst, mode);
    StayStays(ViewOf(st, src, dst));
    EnterView(st1, r.m, true, src, dst);
    move := Stay;
    match r.verdict {
      case Refuse(_) =>
      case HoldIt =>
        KeepView(st1, r.m, true, src, dst, mode);
        if On(r.m, src, dst) {
          LateView(st1, r.m, src, dst);
          move := KeepMoves(ViewOf(st1, src, dst), ViewOf(Enter(st1, r.m, true), src, dst), r.m, Late(st1, r.m));
        }
      case TakeIt(how) =>
        ModeAgrees(st, r, src, dst, mode);
        TakeView(st1, how, r.m, true, src, dst, mode);
        if On(r.m, src, dst) {
          LateView(st1, r.m, src, dst);
          move := TakeMoves(ViewOf(st1, src, dst), ViewOf(Enter(st1, r.m, true), src, dst), r.m, mode, Late(st1, r.m));
        }
    }
  }

  lemma StayStays(v: View)
    ensures MovesBy(v, v, Stay)
  {
  }

  // ---------------------------------------------------------------- replaying

  /** A message that is replayed is refused, taken or held, as it is; one of the edge is
      taken if the slot is open and held if it is not. */
  lemma RouteReplay(st: State, env: Env, m: Msg, src: SlotId, dst: SlotId, mode: Mode)
    requires m.src.Some? && m.dst.Some? && CapsAllowed(st.conns, m.src.value, m.caps) && Queues(st.conns, m.src.value, m.dst.value)
    requires QueueEdge(st.conns, st.handlers, src, dst, mode) && Unvetoed(env, src, dst)
    ensures var r := Route(st, env, m, 0, 0);
            && r.m == m && (On(m, src, dst) ==> r.verdict == if st.Pause(dst) == Running then TakeIt(mode) else HoldIt)
            && (r.verdict.TakeIt? ==> st.Pause(m.dst.value) == Running && r.verdict.mode == FindEdge(st.conns, m.src.value, m.dst.value).value.mode)
            && (r.verdict.HoldIt? ==> st.Pause(m.dst.value) != Running)
  {
    hide CapsAllowed, FindEdge;
  }

  /** The view while the next message to be replayed is in hand. */
  lemma ShiftView(st: State, src: SlotId, dst: SlotId)
    requires Enabled(st, Again)
    ensures var f, v := st.Top(), ViewOf(st, src, dst);
            var v1 := ViewOf(Shifted(st), src, dst);
            if f.src == src && f.dst == dst then v == v1.(left := [f.queue[0]] + v1.left) else v1 == v
  {
    hide Of, HoldOf, Left;
    var f, n := st.Top(), |st.frames| - 1;
    var st1 := Shifted(st);
    LeftTop(st.frames, src, dst);
    LeftTop(st1.frames, src, dst);
    assert st1.frames[..n] == st.frames[..n];
    var below := Left(st.frames[..n], src, dst);
    assert f.queue == [f.queue[0]] + f.queue[1..];
    assert f.queue + below == [f.queue[0]] + (f.queue[1..] + below);
  }

  /** The head of what is left goes to the end of the flow, or behind what is held: the line
      is the same. */
  lemma ReplayedLine(v: View, v1: View, m: Msg, mode: Mode)
    requires v == v1.(left := [m] + v1.left) && (mode == Sync ==> v.queued == [])
    ensures v.held == [] ==> MovesBy(v, TakenView(v1, m, mode), Stay)
    ensures MovesBy(v, v1.(held := v1.held + [m]), Stay)
  {
    assert v.handled + v.queued + v.held + ([m] + v1.left) == v.handled + v.queued + (v.held + [m]) + v1.left;
    if v.held == [] {
      assert mode == Async ==> v.handled + (v.queued + [m]) + [] + v1.left == v.handled + v.queued + [] + ([m] + v1.left);
      assert mode == Sync ==> (v.handled + [m]) + [] + [] + v1.left == v.handled + [] + [] + ([m] + v1.left);
    }
  }

  lemma AgainMoves(st: State, env: Env, src: SlotId, dst: SlotId, mode: Mode)
    requires EdgeOk(st, src, dst, mode) && Unvetoed(env, src, dst) && Enabled(st, Again)
    ensures EdgeOk(AgainOne(st, env), src, dst, mode)
    ensures MovesBy(ViewOf(st, src, dst), ViewOf(AgainOne(st, env), src, dst), Stay)
  {
    hide Tidy, ViewOf, Route, Take, Kept, Of, QueueEdge, Unvetoed, CapsAllowed, Queues, TakenView, MovesBy;
    var f, m, st1 := st.Top(), st.Top().queue[0], Shifted(st);
    ShiftTidy(st);
    ShiftView(st, src, dst);
    EdgeRules(st, src, dst, mode);
    EdgeRules(st1, src, dst, mode) by { ShiftOk(st, src, dst, mode); }
    var r := Route(st1, env, m, 0, 0);
    RouteReplay(st1, env, m, src, dst, mode);
    var st2 := st1.(now := st1.now + r.hooks);
    ClockOk(st1, st1.now + r.hooks, src, dst, mode);
    var v, v1 := ViewOf(st, src, dst), ViewOf(st1, src, dst);
    assert Enter(st2, m, false) == st2;
    StayStays(v);
    if On(m, src, dst) {
      ReplayedLine(v, v1, m, mode);
      if st.Pause(dst) == Running { TopLeftNotHeld(st); HeldIs(st, src, dst); }
    }
    if r.verdict.TakeIt? {
      TakeView(st2, r.verdict.mode, m, false, src, dst, mode);
    } else if r.verdict.HoldIt? {
      KeepView(st2, m, false, src, dst, mode);
    }
  }

  lemma HeldIs(st: State, src: SlotId, dst: SlotId)
    ensures ViewOf(st, src, dst).held == HoldOf(st.holds, src, dst)
  {
  }

  lemma ShiftOk(st: State, src: SlotId, dst: SlotId, mode: Mode)
    requires EdgeOk(st, src, dst, mode) && Enabled(st, Again)
    ensures EdgeOk(Shifted(st), src, dst, mode)
  {
    hide Tidy, QueueEdge, Of;
    ShiftTidy(st);
  }

  // ---------------------------------------------------------------- the other steps

  lemma PoppedView(st: State, s: SlotId, src: SlotId, dst: SlotId)
    requires InboxesFiled(st.inbox) && st.Inbox(s) != []
    ensures var m, v, v1 := st.Inbox(s)[0], ViewOf(st, src, dst), ViewOf(Popped(st, s), src, dst);
            v1 == v.(queued := v1.queued) && v.queued == (if On(m, src, dst) then [m] else []) + v1.queued
  {
    hide Of, Left, HoldOf;
    var q := st.Inbox(s);
    PopFiled(st.inbox, s);
    assert q == [q[0]] + q[1..];
    OfCons(q[0], q[1..], src, dst);
  }

  lemma PoppedLine(v: View, v1: View, m: Msg)
    requires v1 == v.(queued := v1.queued) && v.queued == [m] + v1.queued
    ensures Line(v1.(handled := v.handled + [m])) == Line(v)
  {
    assert v.handled + ([m] + v1.queued) == v.handled + [m] + v1.queued;
  }

  lemma QueuedIs(st: State, src: SlotId, dst: SlotId)
    ensures ViewOf(st, src, dst).queued == Of(st.Inbox(dst), src, dst)
  {
  }

  lemma PopMoves(st: State, env: Env, s: SlotId, src: SlotId, dst: SlotId, mode: Mode)
    requires EdgeOk(st, src, dst, mode) && Unvetoed(env, src, dst) && st.Inbox(s) != []
    ensures EdgeOk(PopOne(st, env, s), src, dst, mode)
    ensures MovesBy(ViewOf(st, src, dst), ViewOf(PopOne(st, env, s), src, dst), Stay)
  {
    hide Tidy, Of, FindEdge, ViewOf, Line, InboxesFiled, Filed;
    var m, st1 := st.Inbox(s)[0], Popped(st, s);
    PopTidy(st, env, s);
    TidyInboxes(st);
    PopFiled(st.inbox, s);
    PoppedView(st, s, src, dst);
    CalledView(st1, m, src, dst);
    var v, v1 := ViewOf(st, src, dst), ViewOf(st1, src, dst);
    QueuedIs(st, src, dst);
    QueuedIs(st1, src, dst);
    QueuedIs(Called(st1, m), src, dst);
    if On(m, src, dst) {
      PoppedLine(v, v1, m);
    } else {
      assert [] + v1.queued == v1.queued;
    }
  }

  /** Detaching the edge's entry puts what was held where it was in the line. */
  lemma DetachedView(st: State, src: SlotId, dst: SlotId)
    requires Tidy(st) && Enabled(st, Detach)
    ensures var v, v', e := ViewOf(st, src, dst), ViewOf(DetachOne(st), src, dst), st.holds[Reach(st.holds, st.Top().at)];
            v' == if Keyed(e, src, dst) then v.(held := [], left := v.held + v.left) else v
  {
    hide Tidy, Of, HoldOf, Left, Less, Place;
    var st', r, n := DetachOne(st), Reach(st.holds, st.Top().at), |st.frames| - 1;
    TidyHolds(st);
    LessHolds(st.conns, st.made, st.holds, r, src, dst);
    LeftTop(st.frames, src, dst);
    LeftTop(st'.frames, src, dst);
    assert st'.frames[..n] == st.frames[..n];
    assert [] + Left(st.frames[..n], src, dst) == Left(st.frames[..n], src, dst);
  }

  lemma DetachMoves(st: State, src: SlotId, dst: SlotId, mode: Mode)
    requires EdgeOk(st, src, dst, mode) && Enabled(st, Detach)
    ensures EdgeOk(DetachOne(st), src, dst, mode)
    ensures MovesBy(ViewOf(st, src, dst), ViewOf(DetachOne(st), src, dst), Stay)
  {
    hide Tidy, Of, FindEdge, ViewOf, Place, Less;
    DetachTidy(st);
    DetachedView(st, src, dst);
    var v := ViewOf(st, src, dst);
    assert v.handled + v.queued + [] + (v.held + v.left) == Line(v);
  }

  lemma FrameMoves(st: State, step: Step, env: Env, src: SlotId, dst: SlotId, mode: Mode)
    requires EdgeOk(st, src, dst, mode) && Enabled(st, step)
    requires step.Halt? || step.Open? || step.Return? || step.Pass? || step.Close?
    ensures EdgeOk(Next(st, env, step), src, dst, mode)
    ensures MovesBy(ViewOf(st, src, dst), ViewOf(Next(st, env, step), src, dst), Stay)
  {
    hide Tidy, Of, HoldOf, FindEdge, Left, Place;
    var st' := Next(st, env, step);
    match step {
      case Halt(s, to) => HaltTidy(st, s, to);
      case Open(s) =>
        OpenTidy(st, s);
        LeftSnoc(st.frames, Flushing(s, s, [], None), src, dst);
      case Pass =>
        PassTidy(st);
        LeftTop(st.frames, src, dst);
        LeftTop(st'.frames, src, dst);
        assert st'.frames[..|st.frames| - 1] == st.frames[..|st.frames| - 1];
      case Return =>
        UnframeTidy(st);
        LeftTop(st.frames, src, dst);
      case Close =>
        UnframeTidy(st);
        LeftTop(st.frames, src, dst);
    }
  }

  /** No step but a send to the edge changes its line, and a send puts its message in: at the
      end, or ahead of older ones if it is late. */
  lemma StepMoves(st: State, env: Env, step: Step, src: SlotId, dst: SlotId, mode: Mode) returns (move: Move)
    requires EdgeOk(st, src, dst, mode) && Unvetoed(env, src, dst) && Enabled(st, step)
    ensures EdgeOk(Next(st, env, step), src, dst, mode)
    ensures MovesBy(ViewOf(st, src, dst), ViewOf(Next(st, env, step), src, dst), move)
    ensures move.Insert? ==> step.Put? && On(Route(st, env, step.m, 0, 0).m, src, dst)
  {
    hide EdgeOk, ViewOf, Unvetoed, Send, Route, AgainOne, PopOne, DetachOne, PassOne, Place;
    move := Stay;
    match step {
      case Put(m) => move := PutMoves(st, env, m, src, dst, mode);
      case Pop(s) => PopMoves(st, env, s, src, dst, mode);
      case Detach => DetachMoves(st, src, dst, mode);
      case Again => AgainMoves(st, env, src, dst, mode);
      case _ => FrameMoves(st, step, env, src, dst, mode);
    }
  }

  // ---------------------------------------------------------------- order

  ghost predicate Precedes(s: seq<Msg>, x: Msg, y: Msg) {
    exists i, k :: 0 <= i < k < |s| && s[i] == x && s[k] == y
  }

  /** Two messages stand in the line the other way round than they were accepted. */
  ghost predicate Inverted(a: seq<Msg>, line: seq<Msg>) {
    exists x, y :: Precedes(a, x, y) && Precedes(line, y, x)
  }

  lemma PrecedesIn(s: seq<Msg>, i: nat, k: nat)
    requires i < k < |s|
    ensures Precedes(s, s[i], s[k])
  {
  }

  /** Putting a message in anywhere leaves the order of the others. */
  lemma PrecedesStays(a: seq<Msg>, m: Msg, b: seq<Msg>, x: Msg, y: Msg)
    requires Precedes(a + b, x, y)
    ensures Precedes(a + [m] + b, x, y)
  {
    var s, t := a + b, a + [m] + b;
    var i, k :| 0 <= i < k < |s| && s[i] == x && s[k] == y;
    PrecedesIn(t, if i < |a| then i else i + 1, if k < |a| then k else k + 1);
  }

  lemma DistinctNotInverted(a: seq<Msg>)
    requires Distinct(a)
    ensures !Inverted(a, a)
  {
  }

  /** The line has the accepted messages, no more and no fewer; it is in order exactly if
      nothing ever jumped ahead. */
  ghost predicate Exact(v: View) {
    && |Line(v)| == |v.accepted| && (forall x :: x in Line(v) <==> x in v.accepted)
    && (v.jumped == [] ==> Line(v) == v.accepted) && (v.jumped != [] ==> Inverted(v.accepted, Line(v)))
  }

  /** Once inverted, always inverted. */
  lemma InsertInverted(a: seq<Msg>, line: seq<Msg>, m: Msg, n: nat)
    requires Inverted(a, line) && n <= |line|
    ensures Inverted(a + [m], line[..n] + [m] + line[n..])
  {
    var x, y :| Precedes(a, x, y) && Precedes(line, y, x);
    assert a + [] == a && a + [m] + [] == a + [m] && line[..n] + line[n..] == line;
    PrecedesStays(a, m, [], x, y);
    PrecedesStays(line[..n], m, line[n..], y, x);
  }

  lemma JumpInverts(a: seq<Msg>, line: seq<Msg>, m: Msg, n: nat)
    requires n < |line| && forall x :: x in line ==> x in a
    ensures Inverted(a + [m], line[..n] + [m] + line[n..])
  {
    var y := line[n];
    assert y in line && y in a;
    var i :| 0 <= i < |a| && a[i] == y;
    PrecedesIn(a + [m], i, |a|);
    PrecedesIn(line[..n] + [m] + line[n..], n, n + 1);
  }

  lemma MoveExact(v: View, v': View, move: Move)
    requires Exact(v) && MovesBy(v, v', move)
    ensures Exact(v')
  {
    hide Inverted, Line;
    match move {
      case Stay =>
      case Insert(m, n) =>
        var line := Line(v);
        assert line == line[..n] + line[n..];
        assert forall x :: x in line[..n] + [m] + line[n..] <==> x in line || x == m;
        if v.jumped != [] {
          InsertInverted(v.accepted, line, m, n);
        } else if n < |line| {
          JumpInverts(v.accepted, line, m, n);
        } else {
          assert line[..n] + [m] + line[n..] == line + [m];
        }
    }
  }

  lemma FreshOk(st: State, src: SlotId, dst: SlotId, mode: Mode)
    requires Fresh(st) && QueueEdge(st.conns, st.handlers, src, dst, mode)
    ensures EdgeOk(st, src, dst, mode) && Exact(ViewOf(st, src, dst))
  {
    hide FindEdge, Tidy;
    FreshTidy(st);
  }

  lemma {:induction false} RunExact(st: State, env: Env, steps: seq<Step>, src: SlotId, dst: SlotId, mode: Mode)
    requires EdgeOk(st, src, dst, mode) && Exact(ViewOf(st, src, dst)) && Unvetoed(env, src, dst) && Run(st, env, steps).Some?
    ensures var st' := Run(st, env, steps).value;
            EdgeOk(st', src, dst, mode) && Exact(ViewOf(st', src, dst))
  {
    hide EdgeOk, ViewOf, Exact, Unvetoed, Next, Enabled, MovesBy;
    if steps != [] {
      var front, step := steps[..|steps| - 1], steps[|steps| - 1];
      RunExact(st, env, front, src, dst, mode);
      var before := Run(st, env, front).value;
      var move := StepMoves(before, env, step, src, dst, mode);
      MoveExact(ViewOf(before, src, dst), ViewOf(Next(before, env, step), src, dst), move);
    }
  }

  /** The exact law, for all runs: the edge is first in, first out if and only if no message
      of it came late, that is, while older ones of it were detached and not yet replayed, or
      held for the slot that was open already. */
  lemma OrderExactly(st: State, env: Env, steps: seq<Step>, src: SlotId, dst: SlotId, mode: Mode)
    requires Fresh(st) && QueueEdge(st.conns, st.handlers, src, dst, mode) && Unvetoed(env, src, dst) && Run(st, env, steps).Some?
    requires Distinct(Of(Run(st, env, steps).value.accepted, src, dst))
    ensures var v := ViewOf(Run(st, env, steps).value, src, dst);
            Line(v) == v.accepted <==> v.jumped == []
  {
    hide EdgeOk, ViewOf, QueueEdge, Unvetoed, Run, Line;
    FreshOk(st, src, dst, mode);
    RunExact(st, env, steps, src, dst, mode);
    var v := ViewOf(Run(st, env, steps).value, src, dst);
    ViewAccepted(Run(st, env, steps).value, src, dst);
    DistinctNotInverted(v.accepted);
  }

  lemma ViewAccepted(st: State, src: SlotId, dst: SlotId)
    ensures ViewOf(st, src, dst).accepted == Of(st.accepted, src, dst)
  {
  }

  /** In order or not, nothing is lost and nothing is doubled: each accepted message is in
      exactly one of the four places. */
  lemma NothingLost(st: State, env: Env, steps: seq<Step>, src: SlotId, dst: SlotId, mode: Mode, m: Msg)
    requires Fresh(st) && QueueEdge(st.conns, st.handlers, src, dst, mode) && Unvetoed(env, src, dst) && Run(st, env, steps).Some?
    requires Distinct(Of(Run(st, env, steps).value.accepted, src, dst)) && m in Of(Run(st, env, steps).value.accepted, src, dst)
    ensures var v := ViewOf(Run(st, env, steps).value, src, dst);
            multiset(v.handled)[m] + multiset(v.queued)[m] + multiset(v.held)[m] + multiset(v.left)[m] == 1
  {
    hide EdgeOk, ViewOf, QueueEdge, Unvetoed, Run, Inverted;
    FreshOk(st, src, dst, mode);
    RunExact(st, env, steps, src, dst, mode);
    var v := ViewOf(Run(st, env, steps).value, src, dst);
    ViewAccepted(Run(st, env, steps).value, src, dst);
    SameMembersOnce(v.accepted, Line(v), m);
    assert multiset(Line(v)) == multiset(v.handled) + multiset(v.queued) + multiset(v.held) + multiset(v.left);
  }

  /** As many entries as distinct members: each member is there once. */
  lemma SameMembersOnce(a: seq<Msg>, line: seq<Msg>, m: Msg)
    requires Distinct(a) && |line| == |a| && (forall x :: x in line <==> x in a) && m in a
    ensures multiset(line)[m] == 1
  {
    DistinctCard(a);
    assert Elements(line) == Elements(a);
    CardDistinct(line);
    DistinctOnce(line, m);
  }

  lemma {:induction false} CardDistinct(s: seq<Msg>)
    ensures |Elements(s)| <= |s| && (|Elements(s)| == |s| ==> Distinct(s))
  {
    if s != [] {
      var front, last := s[..|s| - 1], s[|s| - 1];
      CardDistinct(front);
      assert Elements(s) == Elements(front) + {last};
      assert last in front ==> Elements(s) == Elements(front);
    }
  }

  lemma {:induction false} DistinctOnce(s: seq<Msg>, m: Msg)
    requires Distinct(s)
    ensures multiset(s)[m] == if m in s then 1 else 0
  {
    if s != [] {
      var front, last := s[..|s| - 1], s[|s| - 1];
      assert s == front + [last] && last !in front;
      DistinctOnce(front, m);
    }
  }

  // ---------------------------------------------------------------- conditions a caller can see to

  /** No send to the edge while a flush of its destination is on the stack. */
  ghost predicate Quiet(st: State, env: Env, step: Step, src: SlotId, dst: SlotId) {
    step.Put? && BeingFlushed(st, dst) ==> !On(Route(st, env, step.m, 0, 0).m, src, dst)
  }

  ghost predicate QuietRun(st: State, env: Env, steps: seq<Step>, src: SlotId, dst: SlotId) {
    forall i | 0 <= i < |steps| && Run(st, env, steps[..i]).Some? :: Quiet(Run(st, env, steps[..i]).value, env, steps[i], src, dst)
  }

  /** Nothing waits for a slot that is not being flushed but what is held while it is paused. */
  lemma QuietStays(st: State, env: Env, step: Step, src: SlotId, dst: SlotId, mode: Mode)
    requires EdgeOk(st, src, dst, mode) && Unvetoed(env, src, dst) && Enabled(st, step) && Quiet(st, env, step, src, dst)
    requires ViewOf(st, src, dst).jumped == []
    ensures ViewOf(Next(st, env, step), src, dst).jumped == []
  {
    hide EdgeOk, Unvetoed, Route, ViewOf, Enabled, BeingFlushed, Send, MovesBy;
    EdgeRules(st, src, dst, mode);
    if step.Put? && On(Route(st, env, step.m, 0, 0).m, src, dst) {
      var r := Route(st, env, step.m, 0, 0);
      NotLate(st, r.m);
      SentLedger(st, env, step.m, src, dst);
    } else {
      var move := StepMoves(st, env, step, src, dst, mode);
      StaySame(ViewOf(st, src, dst), ViewOf(Next(st, env, step), src, dst), move);
    }
  }

  lemma StaySame(v: View, v': View, move: Move)
    requires MovesBy(v, v', move) && move == Stay
    ensures v'.jumped == v.jumped
  {
  }

  lemma NotLate(st: State, m: Msg)
    requires Tidy(st) && (m.dst.Some? ==> !BeingFlushed(st, m.dst.value))
    ensures !Late(st, m)
  {
    hide Tidy, BeingFlushed;
    if Late(st, m) {
      LateIsFlush(st, m);
      assert false;
    }
  }

  /** Only a late message goes into the ledger of those that jumped. */
  lemma SentLedger(st: State, env: Env, m: Msg, src: SlotId, dst: SlotId)
    requires var r := Route(st, env, m, 0, 0); On(r.m, src, dst) && !Late(st, r.m)
    ensures ViewOf(Send(st, env, m, true).0, src, dst).jumped == ViewOf(st, src, dst).jumped
  {
    hide Route, Left, HoldOf, HoldMsg, FindHold, Of;
    var r := Route(st, env, m, 0, 0);
    assert Late(st.(now := st.now + r.hooks), r.m) == Late(st, r.m);
  }

  lemma QuietFront(st: State, env: Env, steps: seq<Step>, src: SlotId, dst: SlotId)
    requires steps != [] && QuietRun(st, env, steps, src, dst)
    ensures var n := |steps| - 1;
            && QuietRun(st, env, steps[..n], src, dst)
            && (Run(st, env, steps[..n]).Some? ==> Quiet(Run(st, env, steps[..n]).value, env, steps[n], src, dst))
  {
    hide Run, Quiet;
    var n := |steps| - 1;
    forall i | 0 <= i < n && Run(st, env, steps[..n][..i]).Some?
      ensures Quiet(Run(st, env, steps[..n][..i]).value, env, steps[..n][i], src, dst)
    {
      assert steps[..n][..i] == steps[..i];
    }
  }

  lemma {:induction false} QuietRunStays(st: State, env: Env, steps: seq<Step>, src: SlotId, dst: SlotId, mode: Mode)
    requires EdgeOk(st, src, dst, mode) && Exact(ViewOf(st, src, dst)) && Unvetoed(env, src, dst)
    requires Run(st, env, steps).Some? && QuietRun(st, env, steps, src, dst) && ViewOf(st, src, dst).jumped == []
    ensures ViewOf(Run(st, env, steps).value, src, dst).jumped == []
  {
    hide EdgeOk, ViewOf, Exact, Unvetoed, Next, Enabled, QuietRun, Quiet;
    if steps != [] {
      var front, step := steps[..|steps| - 1], steps[|steps| - 1];
      QuietFront(st, env, steps, src, dst);
      QuietRunStays(st, env, front, src, dst, mode);
      RunExact(st, env, front, src, dst, mode);
      QuietStays(Run(st, env, front).value, env, step, src, dst, mode);
    }
  }

  /** First in, first out: the handler has seen a prefix of what was accepted; the rest
      waits, in order, in the inbox, in the hold queue, and in the replays under way. */
  ghost predicate InOrder(v: View) {
    v.accepted == v.handled + v.queued + v.held + v.left && v.handled <= v.accepted
  }

  lemma InOrderIs(v: View)
    requires Line(v) == v.accepted
    ensures InOrder(v)
  {
    assert Line(v) == v.handled + (v.queued + v.held + v.left);
  }

  /** However handlers send, drain, pause and reopen, and whatever other traffic does: while
      nobody sends to the edge from within a replay of its destination, its messages reach
      the handler once each, in the order they were accepted. */
  lemma NeverLostNorReordered(st: State, env: Env, steps: seq<Step>, src: SlotId, dst: SlotId, mode: Mode)
    requires Fresh(st) && QueueEdge(st.conns, st.handlers, src, dst, mode) && Unvetoed(env, src, dst)
    requires Run(st, env, steps).Some? && QuietRun(st, env, steps, src, dst)
    ensures InOrder(ViewOf(Run(st, env, steps).value, src, dst))
  {
    hide EdgeOk, QueueEdge, Unvetoed, Run, Line, QuietRun, InOrder, Of, Left, HoldOf;
    FreshOk(st, src, dst, mode);
    NothingJumped(st, src, dst);
    QuietRunStays(st, env, steps, src, dst, mode);
    RunExact(st, env, steps, src, dst, mode);
    InOrderIs(ViewOf(Run(st, env, steps).value, src, dst));
  }

  lemma NothingJumped(st: State, src: SlotId, dst: SlotId)
    requires st.jumped == []
    ensures ViewOf(st, src, dst).jumped == []
  {
  }

  // ---------------------------------------------------------------- destinations with async edges only

  ghost predicate AllAsync(conns: seq<Connection>, dst: SlotId) {
    forall c | c in conns && c.to == dst :: c.mode == Async
  }

  /** A flush of `dst` has nothing above it on the stack. */
  ghost predicate OnTop(frames: seq<Frame>, dst: SlotId) {
    forall i | 0 <= i < |frames| - 1 :: !FlushOf(frames[i], dst)
  }

  lemma {:induction false} FoundEdge(conns: seq<Connection>, src: SlotId, dst: SlotId)
    ensures FindEdge(conns, src, dst).Some? ==> FindEdge(conns, src, dst).value in conns && FindEdge(conns, src, dst).value.to == dst
  {
    if conns != [] {
      FoundEdge(conns[1..], src, dst);
    }
  }

  lemma UserNotFlushing(st: State, dst: SlotId)
    requires OnTop(st.frames, dst) && st.UserRuns()
    ensures !BeingFlushed(st, dst)
  {
    forall f | f in st.frames ensures !FlushOf(f, dst) {
      var i :| 0 <= i < |st.frames| && st.frames[i] == f;
      assert i < |st.frames| - 1 ==> !FlushOf(st.frames[i], dst);
    }
  }

  lemma PushOnTop(frames: seq<Frame>, f: Frame, dst: SlotId)
    requires OnTop(frames, dst) && (frames == [] || !FlushOf(frames[|frames| - 1], dst))
    ensures OnTop(frames + [f], dst)
  {
    forall i | 0 <= i < |frames| ensures !FlushOf((frames + [f])[i], dst) {
      assert i < |frames| - 1 ==> !FlushOf(frames[i], dst);
    }
  }

  /** A send leaves the stack as it is, or puts a handler on it. */
  lemma SendFrames(st: State, env: Env, m: Msg, anew: bool)
    ensures var r, st' := Route(st, env, m, 0, 0), Send(st, env, m, anew).0;
            && (st'.frames == st.frames || st'.frames == st.frames + [Handling]) && st'.conns == st.conns
            && (r.verdict != TakeIt(Sync) ==> st'.frames == st.frames)
  {
    hide Route, HoldMsg, Late, FindHold;
  }

  lemma AgainOnTop(st: State, env: Env, dst: SlotId)
    requires Tidy(st) && AllAsync(st.conns, dst) && OnTop(st.frames, dst) && Enabled(st, Again)
    ensures OnTop(AgainOne(st, env).frames, dst) && AgainOne(st, env).conns == st.conns
  {
    hide Tidy, Route, Send, FindEdge, CapsAllowed;
    var f, m, st1 := st.Top(), st.Top().queue[0], Shifted(st);
    ShiftTidy(st);
    SendFrames(st1, env, m, false);
    ReplayedBy(st1, env, m);
    FoundEdge(st.conns, f.src, f.dst);
    forall i | 0 <= i < |st1.frames| - 1 ensures !FlushOf(st1.frames[i], dst) { assert st1.frames[i] == st.frames[i]; }
    if f.dst != dst { PushOnTop(st1.frames, Handling, dst); }
  }

  /** A message over a QUEUE edge goes to no other slot, and is taken over that edge. */
  lemma ReplayedBy(st: State, env: Env, m: Msg)
    requires m.src.Some? && m.dst.Some? && Queues(st.conns, m.src.value, m.dst.value)
    ensures var v := Route(st, env, m, 0, 0).verdict;
            v.TakeIt? ==> v.mode == FindEdge(st.conns, m.src.value, m.dst.value).value.mode
  {
    hide FindEdge, CapsAllowed;
  }

  lemma StepOnTop(st: State, env: Env, step: Step, dst: SlotId)
    requires Tidy(st) && AllAsync(st.conns, dst) && OnTop(st.frames, dst) && Enabled(st, step)
    ensures OnTop(Next(st, env, step).frames, dst) && Next(st, env, step).conns == st.conns
  {
    hide Tidy, Route, AllAsync, Send, AgainOne, Less, Place;
    match step {
      case Put(m) =>
        SendFrames(st, env, m, true);
        PushOnTop(st.frames, Handling, dst);
      case Pop(s) => PushOnTop(st.frames, Handling, dst);
      case Open(s) => PushOnTop(st.frames, Flushing(s, s, [], None), dst);
      case Again => AgainOnTop(st, env, dst);
      case Pass =>
      case Detach =>
      case Halt(_, _) =>
      case Return =>
      case Close =>
    }
  }

  lemma {:induction false} RunOnTop(st: State, env: Env, steps: seq<Step>, dst: SlotId)
    requires Tidy(st) && AllAsync(st.conns, dst) && OnTop(st.frames, dst) && Run(st, env, steps).Some?
    ensures OnTop(Run(st, env, steps).value.frames, dst) && Run(st, env, steps).value.conns == st.conns
  {
    hide Tidy, Next, Enabled, AllAsync, OnTop;
    if steps != [] {
      var front, step := steps[..|steps| - 1], steps[|steps| - 1];
      RunOnTop(st, env, front, dst);
      RunTidy(st, env, front);
      StepOnTop(Run(st, env, front).value, env, step, dst);
    }
  }

  /** If all edges into the destination are async, no handler runs during its flush, so the
      order holds on every run, whatever handlers send. */
  lemma AsyncNeverReordered(st: State, env: Env, steps: seq<Step>, src: SlotId, dst: SlotId)
    requires Fresh(st) && QueueEdge(st.conns, st.handlers, src, dst, Async) && Unvetoed(env, src, dst)
    requires AllAsync(st.conns, dst) && Run(st, env, steps).Some?
    ensures InOrder(ViewOf(Run(st, env, steps).value, src, dst))
  {
    hide Tidy, QueueEdge, Unvetoed, Run, InOrder, AllAsync, ViewOf, BeingFlushed;
    FreshTidy(st);
    forall i | 0 <= i < |steps| && Run(st, env, steps[..i]).Some?
      ensures Quiet(Run(st, env, steps[..i]).value, env, steps[i], src, dst)
    {
      RunOnTop(st, env, steps[..i], dst);
      RunFront(st, env, steps, i);
      if steps[i].Put? { UserNotFlushing(Run(st, env, steps[..i]).value, dst); }
    }
    NeverLostNorReordered(st, env, steps, src, dst, Async);
  }
}
