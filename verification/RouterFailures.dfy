/** Three runs of a flush under which the ground shifts: its slot is paused again, or the entry
    its pointer leads through goes away. */
module RouterFailures {
  import opened Composition
  import opened Sequences
  import opened Router
  import opened RouterTidy
  import opened RouterOrder
  import opened RouterOvertakes
  import opened RouterCursor
  import opened RouterEndless

  const C: SlotId := 3
  const PAIRS: seq<Connection> := [Edge(A, B, Sync), Edge(X, C, Async)]
  const MX := Message(7, X, C)

  lemma PairEdges()
    ensures FindEdge(PAIRS, A, B) == Some(Edge(A, B, Sync)) && FindEdge(PAIRS, X, C) == Some(Edge(X, C, Async))
  {
    assert PAIRS[1..] == [Edge(X, C, Async)];
  }

  // ---------------------------------------------------------------- into the handler of B

  /** B and C are paused; two messages are held for B, then one for C, whose entry is in front. */
  function Closed1(): State {
    Router0(PAIRS).(pause := map[B := Cutting])
  }

  function Closed2(): State {
    Router0(PAIRS).(pause := map[B := Cutting, C := Cutting])
  }

  function First(): State {
    Closed2().(holds := [Hold(0, A, B, [M1])], made := 1, now := 1, accepted := [M1])
  }

  function Second(): State {
    Closed2().(holds := [Hold(0, A, B, [M1, M2])], made := 1, now := 2, accepted := [M1, M2])
  }

  function Third(): State {
    Closed2().(holds := [Hold(1, X, C, [MX]), Hold(0, A, B, [M1, M2])], made := 2, now := 3, accepted := [M1, M2, MX])
  }

  /** B is reopened: its flush goes past the entry for C and detaches the one for B. */
  function Started(): State {
    Third().(pause := map[B := Running, C := Cutting], frames := [Flushing(B, B, [], None)])
  }

  function Further(): State {
    Started().(frames := [Flushing(B, B, [], Some(1))])
  }

  function Taken(): State {
    Started().(holds := [Hold(1, X, C, [MX])], frames := [Flushing(A, B, [M1, M2], Some(1))])
  }

  /** Replaying the first message runs the handler of B. */
  function Handler(): State {
    Taken().(frames := [Flushing(A, B, [M2], Some(1)), Handling], now := 4, delivered := [M1])
  }

  lemma GoesClosed()
    ensures Goes(Router0(PAIRS), Halt(B, Cutting), Closed1()) && Goes(Closed1(), Halt(C, Cutting), Closed2())
    ensures Goes(Closed2(), Put(M1), First()) && Goes(First(), Put(M2), Second())
  {
    PairEdges();
    Routes(Closed2(), M1, Edge(A, B, Sync));
    Routes(First(), M2, Edge(A, B, Sync));
    assert HoldMsg(First().holds, 1, A, B, M2) == [Hold(0, A, B, [M1, M2])] by { assert [M1] + [M2] == [M1, M2]; }
  }

  lemma GoesThird()
    ensures Goes(Second(), Put(MX), Third())
  {
    PairEdges();
    Routes(Second(), MX, Edge(X, C, Async));
    assert Second().holds[1..] == [];
    assert HoldMsg(Second().holds, 1, X, C, MX) == Third().holds;
  }

  lemma Places(q: seq<Msg>, r: seq<Msg>)
    ensures Place([Hold(1, X, C, q), Hold(0, A, B, r)], 1) == 0 && Place([Hold(1, X, C, q)], 1) == 0
    ensures Place([Hold(2, A, B, q), Hold(1, X, C, r)], 1) == 1
  {
    assert [Hold(2, A, B, q), Hold(1, X, C, r)][1..] == [Hold(1, X, C, r)];
  }

  lemma GoesIn()
    ensures Goes(Third(), Open(B), Started()) && Goes(Started(), Pass, Further()) && Goes(Further(), Detach, Taken())
  {
    Places([MX], [M1, M2]);
    var holds := Third().holds;
    assert Third().pause[B := Running] == Started().pause;
    assert Less(holds, 1) == [Hold(1, X, C, [MX])];
    assert [Flushing(B, B, [], None)][0 := Flushing(B, B, [], Some(1))] == Further().frames;
    assert [Flushing(B, B, [], Some(1))][0 := Flushing(A, B, [M1, M2], Some(1))] == Taken().frames;
  }

  lemma GoesHandler()
    ensures Goes(Taken(), Again, Handler())
  {
    PairEdges();
    var st := Shifted(Taken());
    assert [M1, M2][1..] == [M2] && st.frames == [Flushing(A, B, [M2], Some(1))];
    Routes(st, M1, Edge(A, B, Sync));
    assert st.frames + [Handling] == Handler().frames;
  }

  const HELD: seq<Step> := [] + [Halt(B, Cutting)] + [Halt(C, Cutting)] + [Put(M1)] + [Put(M2)] + [Put(MX)]
  const INSIDE: seq<Step> := HELD + [Open(B)] + [Pass] + [Detach] + [Again]

  lemma GetsInside()
    ensures Run(Router0(PAIRS), Passing(), INSIDE) == Some(Handler())
  {
    hide Goes, Router0, Closed1, Closed2, First, Second, Third, Started, Further, Taken, Handler;
    GoesClosed();
    GoesThird();
    GoesIn();
    GoesHandler();
    var st0 := Router0(PAIRS);
    Extend(st0, [], st0, Halt(B, Cutting), Closed1());
    Extend(st0, [] + [Halt(B, Cutting)], Closed1(), Halt(C, Cutting), Closed2());
    Extend(st0, [] + [Halt(B, Cutting)] + [Halt(C, Cutting)], Closed2(), Put(M1), First());
    Extend(st0, [] + [Halt(B, Cutting)] + [Halt(C, Cutting)] + [Put(M1)], First(), Put(M2), Second());
    Extend(st0, [] + [Halt(B, Cutting)] + [Halt(C, Cutting)] + [Put(M1)] + [Put(M2)], Second(), Put(MX), Third());
    Extend(st0, HELD, Third(), Open(B), Started());
    Extend(st0, HELD + [Open(B)], Started(), Pass, Further());
    Extend(st0, HELD + [Open(B)] + [Pass], Further(), Detach, Taken());
    Extend(st0, HELD + [Open(B)] + [Pass] + [Detach], Taken(), Again, Handler());
  }

  // ---------------------------------------------------------------- the slot is paused again

  /** The handler pauses its own slot, a third message is held, the second is held behind it. */
  function Again1(): State {
    Handler().(pause := map[B := Cutting, C := Cutting])
  }

  function Again2(): State {
    Again1().(holds := [Hold(2, A, B, [M3]), Hold(1, X, C, [MX])], made := 3, now := 5,
              accepted := [M1, M2, MX, M3], jumped := [M3])
  }

  function Again3(): State {
    Again2().(frames := [Flushing(A, B, [M2], Some(1))])
  }

  function Again4(): State {
    Again2().(holds := [Hold(2, A, B, [M3, M2]), Hold(1, X, C, [MX])], frames := [Flushing(A, B, [], Some(1))], now := 6)
  }

  function Again5(): State {
    Again4().(frames := [])
  }

  lemma LeftInHandler(frames: seq<Frame>, at: Option<nat>)
    requires frames == [Flushing(A, B, [M2], at), Handling]
    ensures Left(frames, A, B) == [M2]
  {
    assert frames[..1] == [Flushing(A, B, [M2], at)] && frames[..1][..0] == [];
    LeftTop(frames, A, B);
    LeftTop(frames[..1], A, B);
  }

  lemma GoesBehind()
    ensures Goes(Handler(), Halt(B, Cutting), Again1()) && Goes(Again1(), Put(M3), Again2())
  {
    PairEdges();
    assert Handler().pause[B := Cutting] == Again1().pause;
    Routes(Again1(), M3, Edge(A, B, Sync));
    LeftInHandler(Again1().frames, Some(1));
    assert Again1().holds[1..] == [];
    assert HoldMsg(Again1().holds, 2, A, B, M3) == Again2().holds;
    assert [M1, M2, MX] + [M3] == [M1, M2, MX, M3];
  }

  lemma GoesOver()
    ensures Goes(Again2(), Return, Again3()) && Goes(Again3(), Again, Again4()) && Goes(Again4(), Close, Again5())
  {
    PairEdges();
    assert Again2().frames[..1] == Again3().frames && Again4().frames[..0] == [];
    var st := Shifted(Again3());
    assert [M2][1..] == [] && st.frames == [Flushing(A, B, [], Some(1))];
    Routes(st, M2, Edge(A, B, Sync));
    assert [M3] + [M2] == [M3, M2];
    assert HoldMsg(st.holds, 3, A, B, M2) == Again4().holds;
    Places([M3, M2], [MX]);
  }

  const TURNED: seq<Step> := INSIDE + [Halt(B, Cutting)] + [Put(M3)] + [Return] + [Again] + [Close]

  lemma Turns()
    ensures Run(Router0(PAIRS), Passing(), TURNED) == Some(Again5())
  {
    hide Goes, Run, Router0, Handler, Again1, Again2, Again3, Again4, Again5;
    GetsInside();
    GoesBehind();
    GoesOver();
    var st0 := Router0(PAIRS);
    Extend(st0, INSIDE, Handler(), Halt(B, Cutting), Again1());
    Extend(st0, INSIDE + [Halt(B, Cutting)], Again1(), Put(M3), Again2());
    Extend(st0, INSIDE + [Halt(B, Cutting)] + [Put(M3)], Again2(), Return, Again3());
    Extend(st0, INSIDE + [Halt(B, Cutting)] + [Put(M3)] + [Return], Again3(), Again, Again4());
    Extend(st0, INSIDE + [Halt(B, Cutting)] + [Put(M3)] + [Return] + [Again], Again4(), Close, Again5());
  }

  /** Accepted one, two, three; handled one; held three, two.  No message went to an open slot
      ahead of others, and all calls have returned. */
  lemma HeldOvertakes()
    ensures Fresh(Router0(PAIRS)) && QueueEdge(PAIRS, {A, B, X}, A, B, Sync) && Unvetoed(Passing(), A, B)
    ensures var r := Run(Router0(PAIRS), Passing(), TURNED);
            && r.Some? && r.value.frames == [] && Of(r.value.accepted, A, B) == [M1, M2, M3]
            && Of(r.value.delivered, A, B) == [M1] && HoldOf(r.value.holds, A, B) == [M3, M2]
  {
    PairEdges();
    Turns();
    OfFour(M1, M2, MX, M3);
    assert [M1][..0] == [];
  }

  // ---------------------------------------------------------------- the entry goes away

  /** The handler reopens C: that flush takes the entry the outer one stands behind. */
  function Nested0(): State {
    Handler().(pause := map[B := Running, C := Running],
               frames := [Flushing(A, B, [M2], Some(1)), Handling, Flushing(C, C, [], None)])
  }

  function Nested1(): State {
    Nested0().(holds := [], frames := [Flushing(A, B, [M2], Some(1)), Handling, Flushing(X, C, [MX], None)])
  }

  function Nested2(): State {
    Nested1().(inbox := map[C := [MX]], now := 5, frames := [Flushing(A, B, [M2], Some(1)), Handling, Flushing(X, C, [], None)])
  }

  function Nested3(): State {
    Nested2().(frames := [Flushing(A, B, [M2], Some(1)), Handling])
  }

  function Nested4(): State {
    Nested2().(frames := [Flushing(A, B, [M2], Some(1))])
  }

  function Nested5(): State {
    Nested2().(frames := [Flushing(A, B, [], Some(1)), Handling], now := 6, delivered := [M1, M2])
  }

  /** The outer flush is done with its own entry and turns to the list. */
  function Adrift(): State {
    Nested5().(frames := [Flushing(A, B, [], Some(1))])
  }

  lemma GoesNested()
    ensures Goes(Handler(), Open(C), Nested0()) && Goes(Nested0(), Detach, Nested1())
  {
    assert Handler().pause[C := Running] == Nested0().pause;
    assert Handler().frames + [Flushing(C, C, [], None)] == Nested0().frames;
    assert Less(Nested0().holds, 0) == [];
    assert Nested0().frames[2 := Flushing(X, C, [MX], None)] == Nested1().frames;
  }

  lemma GoesInbox()
    ensures Goes(Nested1(), Again, Nested2())
  {
    PairEdges();
    var st := Shifted(Nested1());
    assert [MX][1..] == [] && st.frames == Nested2().frames && [] + [MX] == [MX];
    Routes(st, MX, Edge(X, C, Async));
  }

  lemma GoesAdrift()
    ensures Goes(Nested2(), Close, Nested3()) && Goes(Nested3(), Return, Nested4())
    ensures Goes(Nested4(), Again, Nested5()) && Goes(Nested5(), Return, Adrift())
  {
    PairEdges();
    assert Nested2().frames[..2] == Nested3().frames && Nested3().frames[..1] == Nested4().frames;
    assert Nested5().frames[..1] == Adrift().frames;
    var st := Shifted(Nested4());
    assert [M2][1..] == [] && st.frames == [Flushing(A, B, [], Some(1))];
    Routes(st, M2, Edge(A, B, Sync));
    assert st.frames + [Handling] == Nested5().frames && [M1] + [M2] == [M1, M2];
  }

  const ADRIFT: seq<Step> := INSIDE + [Open(C)] + [Detach] + [Again] + [Close] + [Return] + [Again] + [Return]

  lemma Drifts()
    ensures Run(Router0(PAIRS), Passing(), ADRIFT) == Some(Adrift())
  {
    hide Goes, Run, Router0, Handler, Nested0, Nested1, Nested2, Nested3, Nested4, Nested5, Adrift;
    GetsInside();
    GoesNested();
    GoesInbox();
    GoesAdrift();
    var st0 := Router0(PAIRS);
    Extend(st0, INSIDE, Handler(), Open(C), Nested0());
    Extend(st0, INSIDE + [Open(C)], Nested0(), Detach, Nested1());
    Extend(st0, INSIDE + [Open(C)] + [Detach], Nested1(), Again, Nested2());
    Extend(st0, INSIDE + [Open(C)] + [Detach] + [Again], Nested2(), Close, Nested3());
    Extend(st0, INSIDE + [Open(C)] + [Detach] + [Again] + [Close], Nested3(), Return, Nested4());
    Extend(st0, INSIDE + [Open(C)] + [Detach] + [Again] + [Close] + [Return], Nested4(), Again, Nested5());
    Extend(st0, INSIDE + [Open(C)] + [Detach] + [Again] + [Close] + [Return] + [Again], Nested5(), Return, Adrift());
  }

  /** A flush comes back to a pointer into a freed entry, and there is no step to take. */
  lemma FlushDangles()
    ensures Fresh(Router0(PAIRS))
    ensures var r := Run(Router0(PAIRS), Passing(), ADRIFT);
            r.Some? && Loose(r.value, 0) && forall step :: !Enabled(r.value, step)
  {
    Drifts();
  }

  // ---------------------------------------------------------------- round and round

  function Paused0(): State {
    InB().(pause := map[B := Cutting])
  }

  function Around(): State {
    Paused0().(frames := [Flushing(A, B, [M2], None)])
  }

  lemma GoesAround()
    ensures Goes(InB(), Halt(B, Cutting), Paused0()) && Goes(Paused0(), Return, Around())
  {
    assert InB().pause[B := Cutting] == Paused0().pause;
    assert Paused0().frames[..1] == Around().frames;
  }

  const ROUND: seq<Step> := INTO_B + [Halt(B, Cutting)] + [Return]

  /** The handler of a message replayed from the head of the list pauses its slot: the flush
      detaches and holds again for ever. */
  lemma FlushEndless()
    ensures Fresh(Router0(LOOP))
    ensures var r := Run(Router0(LOOP), Passing(), ROUND);
            && r.Some? && Stranded(r.value) && Admits(Passing(), B) && Circles(r.value)
            && forall n: nat :: !Closes(r.value, Passing(), n)
  {
    hide Goes, InB, Closes, Tidy, Run;
    Reenters();
    GoesAround();
    var st0 := Router0(LOOP);
    Extend(st0, INTO_B, InB(), Halt(B, Cutting), Paused0());
    Extend(st0, INTO_B + [Halt(B, Cutting)], Paused0(), Return, Around());
    FreshTidy(st0);
    RunTidy(st0, Passing(), ROUND);
    AroundIs();
    forall n: nat ensures !Closes(Around(), Passing(), n) { NeverCloses(Around(), Passing(), n); }
  }

  lemma AroundIs()
    ensures var st := Around(); st.frames == [Flushing(A, B, [M2], None)] && st.holds == [] && st.Pause(B) == Cutting
  {
  }
}
