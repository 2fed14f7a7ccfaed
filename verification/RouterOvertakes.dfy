/** Two runs on which the router delivers out of order: a handler, run by a replay, leads
    back to a send on the edge whose older messages are still waiting. */
module RouterOvertakes {
  import opened Composition
  import opened Sequences
  import opened Router
  import opened RouterTidy
  import opened RouterOrder

  const A: SlotId := 0
  const B: SlotId := 1
  const X: SlotId := 2

  function Message(id: nat, src: SlotId, dst: SlotId): Msg {
    Msg(id, Some(src), Some(dst), [])
  }

  function Edge(src: SlotId, dst: SlotId, mode: Mode): Connection {
    Connection(Some(src), dst, mode, false, Queue)
  }

  /** Hooks that let everything pass. */
  function Passing(): Env {
    Env((t, m) => false)
  }

  function Router0(conns: seq<Connection>): State {
    State(conns, map[], map[], {A, B, X}, map[], [], 0, [], 0, [], [], [])
  }

  predicate Goes(st: State, step: Step, next: State) {
    Enabled(st, step) && Next(st, Passing(), step) == next
  }

  lemma Extend(st: State, steps: seq<Step>, mid: State, step: Step, next: State)
    requires Run(st, Passing(), steps) == Some(mid) && Goes(mid, step, next)
    ensures Run(st, Passing(), steps + [step]) == Some(next)
  {
    assert (steps + [step])[..|steps|] == steps;
  }

  /** A message without capabilities over a known edge. */
  lemma Routes(st: State, m: Msg, e: Connection)
    requires m.src.Some? && m.dst.Some? && m.caps == [] && e.policy == Queue
    requires FindEdge(st.conns, m.src.value, m.dst.value) == Some(e)
    ensures Route(st, Passing(), m, 0, 0) ==
            Routed(m, if st.Pause(m.dst.value) == Running then TakeIt(e.mode) else HoldIt, 1)
  {
  }

  // ---------------------------------------------------------------- a sync edge

  const LOOP: seq<Connection> := [Edge(A, B, Sync), Edge(B, A, Sync)]

  lemma LoopEdges()
    ensures FindEdge(LOOP, A, B) == Some(Edge(A, B, Sync)) && FindEdge(LOOP, B, A) == Some(Edge(B, A, Sync))
  {
    assert LOOP[1..] == [Edge(B, A, Sync)];
  }

  const M1 := Message(1, A, B)
  const M2 := Message(2, A, B)
  const M3 := Message(3, A, B)
  const CALL := Message(9, B, A)

  /** B is paused, and two messages from A are held. */
  function Paused1(): State {
    Router0(LOOP).(pause := map[B := Cutting])
  }

  function Held1(): State {
    Paused1().(holds := [Hold(0, A, B, [M1])], made := 1, now := 1, accepted := [M1])
  }

  function Held2(): State {
    Paused1().(holds := [Hold(0, A, B, [M1, M2])], made := 1, now := 2, accepted := [M1, M2])
  }

  /** B is reopened and the entry detached; replaying its first message runs B's handler. */
  function Flush0(): State {
    Held2().(pause := map[B := Running], frames := [Flushing(B, B, [], None)])
  }

  function Flush1(): State {
    Flush0().(holds := [], frames := [Flushing(A, B, [M1, M2], None)])
  }

  function InB(): State {
    Flush1().(frames := [Flushing(A, B, [M2], None), Handling], now := 3, delivered := [M1])
  }

  /** B's handler calls A, whose handler sends a third message to B. */
  function InA(): State {
    InB().(frames := [Flushing(A, B, [M2], None), Handling, Handling], now := 4, accepted := [M1, M2, CALL], delivered := [M1, CALL])
  }

  function Overtaken(): State {
    InA().(frames := [Flushing(A, B, [M2], None), Handling, Handling, Handling], now := 5,
           accepted := [M1, M2, CALL, M3], delivered := [M1, CALL, M3], jumped := [M3])
  }

  lemma GoesHeld()
    ensures Goes(Router0(LOOP), Halt(B, Cutting), Paused1()) && Goes(Paused1(), Put(M1), Held1()) && Goes(Held1(), Put(M2), Held2())
  {
    LoopEdges();
    Routes(Paused1(), M1, Edge(A, B, Sync));
    Routes(Held1(), M2, Edge(A, B, Sync));
    assert HoldMsg(Held1().holds, 1, A, B, M2) == [Hold(0, A, B, [M1, M2])] by { assert [M1] + [M2] == [M1, M2]; }
  }

  lemma GoesFlush()
    ensures Goes(Held2(), Open(B), Flush0()) && Goes(Flush0(), Detach, Flush1())
  {
    var holds := Held2().holds;
    assert holds[..0] + holds[1..] == [];
    assert [Flushing(B, B, [], None)][0 := Flushing(A, B, [M1, M2], None)] == [Flushing(A, B, [M1, M2], None)];
  }

  lemma GoesB()
    ensures Goes(Flush1(), Again, InB())
  {
    LoopEdges();
    var st := Retop(Flush1(), Flushing(A, B, [M2], None));
    assert [M1, M2][1..] == [M2] && st.frames == [Flushing(A, B, [M2], None)];
    Routes(st, M1, Edge(A, B, Sync));
    assert st.frames + [Handling] == InB().frames;
  }

  lemma LeftB()
    ensures Left(InB().frames, B, A) == [] && Left(InB().frames, A, B) == [M2] && Left(InA().frames, A, B) == [M2]
  {
    var one, two, three := [Flushing(A, B, [M2], None)], InB().frames, InA().frames;
    assert one[..0] == [] && two[..1] == one && three[..2] == two;
    LeftTop(one, A, B);
    LeftTop(one, B, A);
    LeftTop(two, A, B);
    LeftTop(two, B, A);
    LeftTop(three, A, B);
  }

  lemma GoesA()
    ensures Goes(InB(), Put(CALL), InA())
  {
    LoopEdges();
    LeftB();
    Routes(InB(), CALL, Edge(B, A, Sync));
    assert InB().frames + [Handling] == InA().frames && [M1, M2] + [CALL] == [M1, M2, CALL] && [M1] + [CALL] == [M1, CALL];
  }

  lemma GoesAhead()
    ensures Goes(InA(), Put(M3), Overtaken())
  {
    LoopEdges();
    LeftB();
    Routes(InA(), M3, Edge(A, B, Sync));
    assert InA().frames + [Handling] == Overtaken().frames;
    assert [M1, M2, CALL] + [M3] == [M1, M2, CALL, M3] && [M1, CALL] + [M3] == [M1, CALL, M3];
  }

  const INTO_B: seq<Step> := [] + [Halt(B, Cutting)] + [Put(M1)] + [Put(M2)] + [Open(B)] + [Detach] + [Again]
  const LOOPING: seq<Step> := INTO_B + [Put(CALL)] + [Put(M3)]

  lemma Reenters()
    ensures Run(Router0(LOOP), Passing(), INTO_B) == Some(InB())
  {
    hide Goes, Router0, Paused1, Held1, Held2, Flush0, Flush1, InB;
    GoesHeld();
    GoesFlush();
    GoesB();
    var st0 := Router0(LOOP);
    Extend(st0, [], st0, Halt(B, Cutting), Paused1());
    Extend(st0, [] + [Halt(B, Cutting)], Paused1(), Put(M1), Held1());
    Extend(st0, [] + [Halt(B, Cutting)] + [Put(M1)], Held1(), Put(M2), Held2());
    Extend(st0, [] + [Halt(B, Cutting)] + [Put(M1)] + [Put(M2)], Held2(), Open(B), Flush0());
    Extend(st0, [] + [Halt(B, Cutting)] + [Put(M1)] + [Put(M2)] + [Open(B)], Flush0(), Detach, Flush1());
    Extend(st0, [] + [Halt(B, Cutting)] + [Put(M1)] + [Put(M2)] + [Open(B)] + [Detach], Flush1(), Again, InB());
  }

  lemma Calls()
    ensures Run(Router0(LOOP), Passing(), LOOPING) == Some(Overtaken())
  {
    hide Goes, Run, Router0, InB, InA, Overtaken;
    Reenters();
    GoesA();
    GoesAhead();
    Extend(Router0(LOOP), INTO_B, InB(), Put(CALL), InA());
    Extend(Router0(LOOP), INTO_B + [Put(CALL)], InA(), Put(M3), Overtaken());
  }

  /** Accepted one, two, three; handled one, three, while two waits. */
  lemma SyncOvertakes()
    ensures Fresh(Router0(LOOP)) && QueueEdge(LOOP, {A, B, X}, A, B, Sync) && Unvetoed(Passing(), A, B)
    ensures var r := Run(Router0(LOOP), Passing(), LOOPING);
            r.Some? && Of(r.value.accepted, A, B) == [M1, M2, M3] && Of(r.value.delivered, A, B) == [M1, M3]
  {
    LoopEdges();
    Calls();
    OfFour(M1, M2, CALL, M3);
    OfThree(M1, CALL, M3);
  }

  lemma OfThree(x: Msg, y: Msg, z: Msg)
    ensures Of([x, y, z], A, B) ==
            (if On(x, A, B) then [x] else []) + (if On(y, A, B) then [y] else []) + (if On(z, A, B) then [z] else [])
  {
    assert [x, y, z] == [] + [x] + [y] + [z];
    OfSnoc([], x, A, B);
    OfSnoc([] + [x], y, A, B);
    OfSnoc([] + [x] + [y], z, A, B);
  }

  lemma OfFour(w: Msg, x: Msg, y: Msg, z: Msg)
    ensures Of([w, x, y, z], A, B) ==
            (if On(w, A, B) then [w] else []) + (if On(x, A, B) then [x] else []) + (if On(y, A, B) then [y] else [])
            + (if On(z, A, B) then [z] else [])
  {
    OfThree(w, x, y);
    assert [w, x, y, z] == [w, x, y] + [z];
    OfSnoc([w, x, y], z, A, B);
  }

  // ---------------------------------------------------------------- an async edge

  const MIXED: seq<Connection> := [Edge(A, B, Async), Edge(X, B, Sync), Edge(B, A, Sync)]
  const OTHER := Message(5, X, B)

  lemma MixedEdges()
    ensures FindEdge(MIXED, A, B) == Some(Edge(A, B, Async)) && FindEdge(MIXED, X, B) == Some(Edge(X, B, Sync))
    ensures FindEdge(MIXED, B, A) == Some(Edge(B, A, Sync))
  {
    var rest, last := MIXED[1..], [Edge(B, A, Sync)];
    assert rest == [Edge(X, B, Sync), Edge(B, A, Sync)] && rest[1..] == last;
    assert FindEdge(last, B, A) == Some(Edge(B, A, Sync)) && FindEdge(rest, B, A) == FindEdge(last, B, A);
  }

  /** The messages of A and X held for B, X's entry in front. */
  function Stopped(): State {
    Router0(MIXED).(pause := map[B := Cutting])
  }

  function One(): State {
    Stopped().(holds := [Hold(0, A, B, [M1])], made := 1, now := 1, accepted := [M1])
  }

  function Two(): State {
    One().(holds := [Hold(1, X, B, [OTHER]), Hold(0, A, B, [M1])], made := 2, now := 2, accepted := [M1, OTHER])
  }

  /** B reopened, X's entry detached, its message replayed: B's handler runs. */
  function OpenedB(): State {
    Two().(pause := map[B := Running], frames := [Flushing(B, B, [], None)])
  }

  function Detached(): State {
    OpenedB().(holds := [Hold(0, A, B, [M1])], frames := [Flushing(X, B, [OTHER], None)])
  }

  function Entered(): State {
    Detached().(frames := [Flushing(X, B, [], None), Handling], now := 3, delivered := [OTHER])
  }

  /** B's handler calls A, A's handler sends to B, both return. */
  function Inside(): State {
    Entered().(frames := [Flushing(X, B, [], None), Handling, Handling], now := 4, accepted := [M1, OTHER, CALL], delivered := [OTHER, CALL])
  }

  function Sent(): State {
    Inside().(inbox := map[B := [M3]], now := 5, accepted := [M1, OTHER, CALL, M3], jumped := [M3])
  }

  function Back(): State {
    Sent().(frames := [Flushing(X, B, [], None), Handling])
  }

  function Home(): State {
    Sent().(frames := [Flushing(X, B, [], None)])
  }

  /** A's entry is detached and its older message goes to the inbox behind the newer. */
  function Last(): State {
    Home().(holds := [], frames := [Flushing(A, B, [M1], None)])
  }

  function Behind(): State {
    Last().(frames := [Flushing(A, B, [], None)], inbox := map[B := [M3, M1]], now := 6)
  }

  lemma Holds()
    ensures Goes(Router0(MIXED), Halt(B, Cutting), Stopped()) && Goes(Stopped(), Put(M1), One()) && Goes(One(), Put(OTHER), Two())
  {
    MixedEdges();
    Routes(Stopped(), M1, Edge(A, B, Async));
    Routes(One(), OTHER, Edge(X, B, Sync));
    assert HoldMsg(One().holds, 1, X, B, OTHER) == Two().holds by { assert One().holds[1..] == []; }
  }

  lemma Opens()
    ensures Goes(Two(), Open(B), OpenedB()) && Goes(OpenedB(), Detach, Detached())
  {
    var holds := Two().holds;
    assert holds[..0] + holds[1..] == [Hold(0, A, B, [M1])];
    assert [Flushing(B, B, [], None)][0 := Flushing(X, B, [OTHER], None)] == [Flushing(X, B, [OTHER], None)];
  }

  lemma Runs()
    ensures Goes(Detached(), Again, Entered())
  {
    MixedEdges();
    var st := Retop(Detached(), Flushing(X, B, [], None));
    assert [OTHER][1..] == [] && st.frames == [Flushing(X, B, [], None)];
    Routes(st, OTHER, Edge(X, B, Sync));
  }

  lemma CallsA()
    ensures Goes(Entered(), Put(CALL), Inside())
  {
    MixedEdges();
    NoneHere(Entered().frames);
    Routes(Entered(), CALL, Edge(B, A, Sync));
    assert Entered().holds[1..] == [] && FindHold([], B, A) == 0 && HoldOf(Entered().holds, B, A) == [];
    assert [M1, OTHER] + [CALL] == [M1, OTHER, CALL] && [OTHER] + [CALL] == [OTHER, CALL];
    assert Entered().frames + [Handling] == Inside().frames;
  }

  lemma Sends()
    ensures Goes(Inside(), Put(M3), Sent())
  {
    MixedEdges();
    Routes(Inside(), M3, Edge(A, B, Async));
    assert HoldOf(Inside().holds, A, B) == [M1];
    assert Late(Inside(), M3);
    assert [M1, OTHER, CALL] + [M3] == [M1, OTHER, CALL, M3] && [] + [M3] == [M3] && Inside().Inbox(B) == [];
  }

  lemma Returns()
    ensures Goes(Sent(), Return, Back()) && Goes(Back(), Return, Home())
  {
    assert Sent().frames[..2] == Back().frames && Back().frames[..1] == Home().frames;
  }

  lemma TakesLast()
    ensures Goes(Home(), Detach, Last())
  {
    var holds := Home().holds;
    assert holds[..0] + holds[1..] == [] && [Flushing(X, B, [], None)][0 := Flushing(A, B, [M1], None)] == [Flushing(A, B, [M1], None)];
  }

  lemma Follows()
    ensures Goes(Last(), Again, Behind())
  {
    MixedEdges();
    var st := Retop(Last(), Flushing(A, B, [], None));
    assert [M1][1..] == [] && st.frames == [Flushing(A, B, [], None)] && [M3] + [M1] == [M3, M1];
    Routes(st, M1, Edge(A, B, Async));
  }

  const BOTH: seq<Step> := [] + [Halt(B, Cutting)] + [Put(M1)] + [Put(OTHER)] + [Open(B)] + [Detach] + [Again]
  const BEHIND: seq<Step> := BOTH + [Put(CALL)] + [Put(M3)] + [Return] + [Return] + [Detach] + [Again]

  lemma Enters()
    ensures Run(Router0(MIXED), Passing(), BOTH) == Some(Entered())
  {
    hide Goes, Router0, Stopped, One, Two, OpenedB, Detached, Entered;
    Holds();
    Opens();
    Runs();
    var st0 := Router0(MIXED);
    Extend(st0, [], st0, Halt(B, Cutting), Stopped());
    Extend(st0, [] + [Halt(B, Cutting)], Stopped(), Put(M1), One());
    Extend(st0, [] + [Halt(B, Cutting)] + [Put(M1)], One(), Put(OTHER), Two());
    Extend(st0, [] + [Halt(B, Cutting)] + [Put(M1)] + [Put(OTHER)], Two(), Open(B), OpenedB());
    Extend(st0, [] + [Halt(B, Cutting)] + [Put(M1)] + [Put(OTHER)] + [Open(B)], OpenedB(), Detach, Detached());
    Extend(st0, [] + [Halt(B, Cutting)] + [Put(M1)] + [Put(OTHER)] + [Open(B)] + [Detach], Detached(), Again, Entered());
  }

  lemma Falls()
    ensures Run(Router0(MIXED), Passing(), BEHIND) == Some(Behind())
  {
    hide Goes, Run, Entered, Inside, Sent, Back, Home, Last, Behind;
    Enters();
    CallsA();
    Sends();
    Returns();
    TakesLast();
    Follows();
    var st0 := Router0(MIXED);
    Extend(st0, BOTH, Entered(), Put(CALL), Inside());
    Extend(st0, BOTH + [Put(CALL)], Inside(), Put(M3), Sent());
    Extend(st0, BOTH + [Put(CALL)] + [Put(M3)], Sent(), Return, Back());
    Extend(st0, BOTH + [Put(CALL)] + [Put(M3)] + [Return], Back(), Return, Home());
    Extend(st0, BOTH + [Put(CALL)] + [Put(M3)] + [Return] + [Return], Home(), Detach, Last());
    Extend(st0, BOTH + [Put(CALL)] + [Put(M3)] + [Return] + [Return] + [Detach], Last(), Again, Behind());
  }

  lemma NoneHere(frames: seq<Frame>)
    requires frames == [Flushing(X, B, [], None), Handling]
    ensures Left(frames, B, A) == []
  {
    LeftTop(frames, B, A);
    assert frames[..1] == [Flushing(X, B, [], None)];
    LeftTop(frames[..1], B, A);
    assert frames[..1][..0] == [];
  }

  /** Accepted one, three; B's inbox has three, one. */
  lemma AsyncOvertakes()
    ensures Fresh(Router0(MIXED)) && QueueEdge(MIXED, {A, B, X}, A, B, Async) && Unvetoed(Passing(), A, B)
    ensures var r := Run(Router0(MIXED), Passing(), BEHIND);
            r.Some? && Of(r.value.accepted, A, B) == [M1, M3] && Of(r.value.delivered, A, B) == [] && r.value.Inbox(B) == [M3, M1]
  {
    MixedEdges();
    Falls();
    OfFour(M1, OTHER, CALL, M3);
    OfNone([OTHER, CALL], A, B);
  }
}
