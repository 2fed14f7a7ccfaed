/** framework/dispatcher.c on the kernel build, step by step: any number of producers
    somewhere inside `nx_dispatcher_enqueue`, the dispatcher thread somewhere inside
    `nx_dispatcher_pump_once`, each atomic operation a step of its own. */
module Dispatcher {
  import opened Composition
  import opened Sequences
  import opened Sums

  /** `pool`: the reply-pool entry a dispatcher-built reply lives in. */
  datatype Msg = Msg(id: nat, src: Option<SlotId>, dst: SlotId, wantsReply: bool, isReply: bool, pool: Option<nat>, rc: Status)

  /** How far an enqueue has come: nothing done, `in_flight_calls` bumped, `g_disp_pending`
      bumped too.  The push ends it. */
  datatype Phase = Fresh | Counted | Announced

  datatype Producer = Producer(m: Msg, phase: Phase)

  /** Where the dispatcher thread is: popped, pending count dropped, hook and handler done,
      in-flight count dropped, reply leg done. */
  datatype Consumer =
    | Idle
    | Popped(m: Msg)
    | Busy(m: Msg)
    | Handled(m: Msg, rc: Status)
    | Released(m: Msg, rc: Status)
    | Replied(m: Msg)

  /** A message dealt with, and the status its handler (or its veto) came to. */
  datatype Dealing = Dealing(m: Msg, rc: Status)

  datatype State = State(
    queue: seq<Msg>,
    inFlight: map<SlotId, int>,
    pending: int,
    used: set<nat>,
    poolSize: nat,
    producers: seq<Producer>,
    consumer: Consumer,
    pushed: seq<Msg>,
    finished: seq<Dealing>)
  {
    function InFlight(s: SlotId): int {
      if s in inFlight then inFlight[s] else 0
    }

    function Bump(s: SlotId, delta: int): map<SlotId, int> {
      inFlight[s := InFlight(s) + delta]
    }
  }

  // ---------------------------------------------------------------- steps

  /** `Finish` covers the hook's veto (status NX_EABORT) and the handler's return. */
  datatype Step =
    | Submit(m: Msg) | Count(k: nat) | Announce(k: nat) | Push(k: nat)
    | Pop | Uncount | Finish(rc: Status) | Release | Answer(idx: nat) | Free

  predicate Asks(m: Msg) {
    m.wantsReply && m.src.Some?
  }

  /** `build_reply`: source and destination swapped, the status in the header. */
  function ReplyTo(m: Msg, rc: Status, idx: nat): Msg
    requires m.src.Some?
  {
    Msg(m.id, Some(m.dst), m.src.value, false, true, Some(idx), rc)
  }

  predicate Enabled(st: State, step: Step) {
    match step
    case Submit(m) => m.pool.None?
    case Count(k) => k < |st.producers| && st.producers[k].phase == Fresh
    case Announce(k) => k < |st.producers| && st.producers[k].phase == Counted
    case Push(k) => k < |st.producers| && st.producers[k].phase == Announced
    case Pop => st.consumer.Idle? && st.queue != []
    case Uncount => st.consumer.Popped?
    case Finish(_) => st.consumer.Busy?
    case Release => st.consumer.Handled?
    case Answer(idx) => st.consumer.Released? && (Asks(st.consumer.m) ==> idx < st.poolSize && idx !in st.used)
    case Free => st.consumer.Replied?
  }

  function Next(st: State, step: Step): State
    requires Enabled(st, step)
  {
    match step
    case Submit(m) => st.(producers := st.producers + [Producer(m, Fresh)])
    case Count(k) =>
      var p := st.producers[k];
      st.(inFlight := st.Bump(p.m.dst, 1), producers := st.producers[k := p.(phase := Counted)])
    case Announce(k) =>
      st.(pending := st.pending + 1, producers := st.producers[k := st.producers[k].(phase := Announced)])
    case Push(k) =>
      var m := st.producers[k].m;
      st.(queue := st.queue + [m], pushed := st.pushed + [m], producers := st.producers[..k] + st.producers[k + 1..])
    case Pop => st.(queue := st.queue[1..], consumer := Popped(st.queue[0]))
    case Uncount => st.(pending := st.pending - 1, consumer := Busy(st.consumer.m))
    case Finish(rc) => st.(consumer := Handled(st.consumer.m, rc))
    case Release => st.(inFlight := st.Bump(st.consumer.m.dst, -1), consumer := Released(st.consumer.m, st.consumer.rc))
    case Answer(idx) => Answered(st, idx)
    case Free =>
      var m := st.consumer.m;
      st.(used := if m.isReply && m.pool.Some? then st.used - {m.pool.value} else st.used, consumer := Idle)
  }

  function Answered(st: State, idx: nat): State
    requires st.consumer.Released?
  {
    var m, rc := st.consumer.m, st.consumer.rc;
    var st1 := st.(consumer := Replied(m), finished := st.finished + [Dealing(m, rc)]);
    if Asks(m)
    then st1.(used := st.used + {idx}, producers := st.producers + [Producer(ReplyTo(m, rc, idx), Fresh)])
    else st1
  }

  // ---------------------------------------------------------------- what is counted

  /** Who holds an in-flight token for slot `s`: counted producers, queued messages, and
      the dispatcher until it releases. */
  function TokenMsg(s: SlotId): Msg -> int {
    (m: Msg) => if m.dst == s then 1 else 0
  }

  function TokenProducer(s: SlotId): Producer -> int {
    (p: Producer) => if p.phase != Fresh && p.m.dst == s then 1 else 0
  }

  function TokenHand(c: Consumer, s: SlotId): int {
    if (c.Popped? || c.Busy? || c.Handled?) && c.m.dst == s then 1 else 0
  }

  function Tokens(st: State, s: SlotId): int {
    Sum(st.queue, TokenMsg(s)) + Sum(st.producers, TokenProducer(s)) + TokenHand(st.consumer, s)
  }

  function AnnouncedProducer(): Producer -> int {
    (p: Producer) => if p.phase == Announced then 1 else 0
  }

  /** Where the pool entry `i` is. */
  function EntryMsg(i: nat): Msg -> int {
    (m: Msg) => if m.pool == Some(i) then 1 else 0
  }

  function EntryProducer(i: nat): Producer -> int {
    (p: Producer) => if p.m.pool == Some(i) then 1 else 0
  }

  function EntryHand(c: Consumer, i: nat): int {
    if !c.Idle? && c.m.pool == Some(i) then 1 else 0
  }

  function Entries(st: State, i: nat): int {
    Sum(st.queue, EntryMsg(i)) + Sum(st.producers, EntryProducer(i)) + EntryHand(st.consumer, i)
  }

  /** A reply as its receiver sees it. */
  datatype Slip = Slip(id: nat, to: SlotId, from: SlotId, rc: Status)

  predicate Carries(m: Msg, x: Slip) {
    m.pool.Some? && m.id == x.id && m.dst == x.to && m.src == Some(x.from) && m.rc == x.rc
  }

  function SlipMsg(x: Slip): Msg -> int {
    (m: Msg) => if Carries(m, x) then 1 else 0
  }

  function SlipProducer(x: Slip): Producer -> int {
    (p: Producer) => if Carries(p.m, x) then 1 else 0
  }

  /** The reply a request dealt with is owed. */
  predicate Owes(d: Dealing, x: Slip) {
    d.m.wantsReply && d.m.src == Some(x.to) && d.m.id == x.id && d.m.dst == x.from && d.rc == x.rc
  }

  function SlipOwed(x: Slip): Dealing -> int {
    (d: Dealing) => if Owes(d, x) then 1 else 0
  }

  function InHand(c: Consumer): seq<Msg> {
    if c.Idle? || c.Replied? then [] else [c.m]
  }

  function Dealt(finished: seq<Dealing>): seq<Msg> {
    seq(|finished|, i requires 0 <= i < |finished| => finished[i].m)
  }

  /** Pool messages are replies and ask for none. */
  predicate WellMade(m: Msg) {
    m.pool.Some? ==> m.isReply && !m.wantsReply && m.src.Some?
  }

  // ---------------------------------------------------------------- the invariant

  ghost predicate Flights(st: State) {
    forall s {:trigger st.InFlight(s)} :: st.InFlight(s) == Tokens(st, s)
  }

  ghost predicate Pending(st: State) {
    st.pending == |st.queue| + Sum(st.producers, AnnouncedProducer()) + if st.consumer.Popped? then 1 else 0
  }

  ghost predicate Pooled(st: State) {
    && (forall i: nat {:trigger Entries(st, i)} :: Entries(st, i) == if i in st.used then 1 else 0)
    && forall i | i in st.used :: i < st.poolSize
  }

  ghost predicate Fifo(st: State) {
    st.pushed == Dealt(st.finished) + InHand(st.consumer) + st.queue
  }

  ghost predicate OwedAt(st: State, x: Slip) {
    Sum(st.pushed, SlipMsg(x)) + Sum(st.producers, SlipProducer(x)) == Sum(st.finished, SlipOwed(x))
  }

  ghost predicate Owed(st: State) {
    forall x :: OwedAt(st, x)
  }

  ghost predicate AllWellMade(st: State) {
    && (forall m | m in st.queue :: WellMade(m))
    && (forall p | p in st.producers :: WellMade(p.m))
    && (!st.consumer.Idle? ==> WellMade(st.consumer.m))
  }

  ghost predicate Inv(st: State) {
    Flights(st) && Pending(st) && Pooled(st) && Fifo(st) && Owed(st) && AllWellMade(st)
  }

  // ---------------------------------------------------------------- preservation, part by part

  /** How any measure of the producers moves in a step. */
  lemma ProducersMove(st: State, step: Step, f: Producer -> int)
    requires Enabled(st, step)
    ensures Sum(Next(st, step).producers, f) == Sum(st.producers, f) +
            match step {
              case Submit(m) => f(Producer(m, Fresh))
              case Count(k) => f(st.producers[k].(phase := Counted)) - f(st.producers[k])
              case Announce(k) => f(st.producers[k].(phase := Announced)) - f(st.producers[k])
              case Push(k) => -f(st.producers[k])
              case Answer(idx) =>
                if Asks(st.consumer.m) then f(Producer(ReplyTo(st.consumer.m, st.consumer.rc, idx), Fresh)) else 0
              case _ => 0
            }
  {
    hide Sum;
    match step {
      case Submit(m) => SumSnoc(st.producers, Producer(m, Fresh), f);
      case Count(k) => SumUpdate(st.producers, k, st.producers[k].(phase := Counted), f);
      case Announce(k) => SumUpdate(st.producers, k, st.producers[k].(phase := Announced), f);
      case Push(k) => SumRemove(st.producers, k, f);
      case Answer(idx) =>
        if Asks(st.consumer.m) {
          SumSnoc(st.producers, Producer(ReplyTo(st.consumer.m, st.consumer.rc, idx), Fresh), f);
        }
      case _ =>
    }
  }

  lemma QueueMoves(st: State, step: Step, f: Msg -> int)
    requires Enabled(st, step)
    ensures Sum(Next(st, step).queue, f) == Sum(st.queue, f) +
            match step {
              case Push(k) => f(st.producers[k].m)
              case Pop => -f(st.queue[0])
              case _ => 0
            }
  {
    hide Sum;
    match step {
      case Push(k) => SumSnoc(st.queue, st.producers[k].m, f);
      case Pop => SumHead(st.queue, f);
      case _ =>
    }
  }

  lemma FlightKept(st: State, step: Step, s: SlotId)
    requires Enabled(st, step) && st.InFlight(s) == Tokens(st, s)
    ensures Next(st, step).InFlight(s) == Tokens(Next(st, step), s)
  {
    hide Sum;
    ProducersMove(st, step, TokenProducer(s));
    QueueMoves(st, step, TokenMsg(s));
  }

  lemma FlightsKept(st: State, step: Step)
    requires Enabled(st, step) && Flights(st)
    ensures Flights(Next(st, step))
  {
    hide Next, Tokens;
    forall s ensures Next(st, step).InFlight(s) == Tokens(Next(st, step), s) {
      assert st.InFlight(s) == Tokens(st, s);
      FlightKept(st, step, s);
    }
  }

  lemma PendingKept(st: State, step: Step)
    requires Enabled(st, step) && Pending(st)
    ensures Pending(Next(st, step))
  {
    hide Sum;
    ProducersMove(st, step, AnnouncedProducer());
  }

  lemma EntryKept(st: State, step: Step, i: nat)
    requires Enabled(st, step) && AllWellMade(st) && Entries(st, i) == if i in st.used then 1 else 0
    ensures Entries(Next(st, step), i) == if i in Next(st, step).used then 1 else 0
  {
    hide Sum;
    ProducersMove(st, step, EntryProducer(i));
    QueueMoves(st, step, EntryMsg(i));
    SumNonNegative(st.queue, EntryMsg(i));
    SumNonNegative(st.producers, EntryProducer(i));
  }

  lemma PooledKept(st: State, step: Step)
    requires Enabled(st, step) && Pooled(st) && AllWellMade(st)
    ensures Pooled(Next(st, step))
  {
    hide Entries, AllWellMade;
    forall i: nat ensures Entries(Next(st, step), i) == if i in Next(st, step).used then 1 else 0 {
      assert Entries(st, i) == if i in st.used then 1 else 0;
      EntryKept(st, step, i);
    }
  }

  lemma FifoKept(st: State, step: Step)
    requires Enabled(st, step) && Fifo(st)
    ensures Fifo(Next(st, step))
  {
    var st' := Next(st, step);
    match step {
      case Push(k) =>
      case Pop => assert st.queue == [st.queue[0]] + st.queue[1..];
      case Answer(idx) => assert Dealt(st'.finished) == Dealt(st.finished) + [st.consumer.m];
      case _ => assert InHand(st'.consumer) == InHand(st.consumer);
    }
  }

  lemma OwedKeptAt(st: State, step: Step, x: Slip)
    requires Enabled(st, step) && OwedAt(st, x)
    ensures OwedAt(Next(st, step), x)
  {
    hide Sum;
    ProducersMove(st, step, SlipProducer(x));
    match step {
      case Push(k) => SumSnoc(st.pushed, st.producers[k].m, SlipMsg(x));
      case Answer(idx) => SumSnoc(st.finished, Dealing(st.consumer.m, st.consumer.rc), SlipOwed(x));
      case _ =>
    }
  }

  lemma OwedKept(st: State, step: Step)
    requires Enabled(st, step) && Owed(st)
    ensures Owed(Next(st, step))
  {
    hide Next, OwedAt;
    forall x ensures OwedAt(Next(st, step), x) {
      OwedKeptAt(st, step, x);
    }
  }

  lemma WellMadeKept(st: State, step: Step)
    requires Enabled(st, step) && AllWellMade(st)
    ensures AllWellMade(Next(st, step))
  {
  }

  lemma InvKept(st: State, step: Step)
    requires Enabled(st, step) && Inv(st)
    ensures Inv(Next(st, step))
  {
    hide Next, Flights, Pending, Pooled, Fifo, Owed, AllWellMade;
    FlightsKept(st, step);
    PendingKept(st, step);
    PooledKept(st, step);
    FifoKept(st, step);
    OwedKept(st, step);
    WellMadeKept(st, step);
  }

  // ---------------------------------------------------------------- runs

  function Start(poolSize: nat): State {
    State([], map[], 0, {}, poolSize, [], Idle, [], [])
  }

  /** The state after `steps` from a dispatcher just initialised, if they can all be taken. */
  function Run(poolSize: nat, steps: seq<Step>): Option<State> {
    if steps == [] then Some(Start(poolSize))
    else
      var before, step := Run(poolSize, steps[..|steps| - 1]), steps[|steps| - 1];
      if before.Some? && Enabled(before.value, step) then Some(Next(before.value, step)) else None
  }

  lemma StartInv(poolSize: nat)
    ensures Inv(Start(poolSize))
  {
  }

  lemma {:induction false} AlwaysInv(poolSize: nat, steps: seq<Step>)
    ensures Run(poolSize, steps).Some? ==> Inv(Run(poolSize, steps).value)
  {
    hide Inv, Next, Enabled, Start;
    if steps == [] {
      StartInv(poolSize);
    } else {
      AlwaysInv(poolSize, steps[..|steps| - 1]);
      var before, step := Run(poolSize, steps[..|steps| - 1]), steps[|steps| - 1];
      if before.Some? && Enabled(before.value, step) {
        InvKept(before.value, step);
      }
    }
  }

  // ---------------------------------------------------------------- what the counters tell

  /** A zero `in_flight_calls` means what the pause drain takes it for: nothing queued for
      the slot, nothing past the count on its way to it, no handler of it running. */
  lemma DrainedIsQuiet(st: State, s: SlotId)
    requires Inv(st) && st.InFlight(s) == 0
    ensures forall m | m in st.queue :: m.dst != s
    ensures forall p | p in st.producers && p.phase != Fresh :: p.m.dst != s
    ensures TokenHand(st.consumer, s) == 0
  {
    hide Sum;
    SumNonNegative(st.queue, TokenMsg(s));
    SumNonNegative(st.producers, TokenProducer(s));
    forall m | m in st.queue ensures m.dst != s { SumZero(st.queue, TokenMsg(s), m); }
    forall p | p in st.producers && p.phase != Fresh ensures p.m.dst != s { SumZero(st.producers, TokenProducer(s), p); }
  }

  /** The sleep predicate never misses a message: whatever is queued is counted. */
  lemma QueuedIsPending(st: State)
    requires Inv(st)
    ensures st.pending >= |st.queue|
  {
    hide Sum;
    SumNonNegative(st.producers, AnnouncedProducer());
  }

  ghost predicate AtRest(st: State) {
    st.producers == [] && st.consumer.Idle?
  }

  /** Between calls the counters are exact: per slot, overall, and in the pool bitmap. */
  lemma RestIsExact(st: State)
    requires Inv(st) && AtRest(st)
    ensures st.pending == |st.queue|
    ensures forall s :: st.InFlight(s) == Sum(st.queue, TokenMsg(s))
    ensures forall i: nat :: Sum(st.queue, EntryMsg(i)) == if i in st.used then 1 else 0
  {
    forall s ensures st.InFlight(s) == Sum(st.queue, TokenMsg(s)) {
      assert st.InFlight(s) == Tokens(st, s);
    }
    forall i: nat ensures Sum(st.queue, EntryMsg(i)) == if i in st.used then 1 else 0 {
      assert Entries(st, i) == if i in st.used then 1 else 0;
    }
  }

  /** Once the queue is empty every request has had exactly the replies it is owed: for
      each reply, as many delivered as requests that came to it. */
  lemma AnsweredExactly(st: State, x: Slip)
    requires Inv(st) && AtRest(st) && st.queue == []
    ensures Sum(Dealt(st.finished), SlipMsg(x)) == Sum(st.finished, SlipOwed(x))
    ensures st.used == {}
  {
    assert OwedAt(st, x);
    assert st.pushed == Dealt(st.finished);
    forall i: nat ensures i !in st.used { assert Entries(st, i) == if i in st.used then 1 else 0; }
  }

  // ---------------------------------------------------------------- whole calls

  function Take(st: State, steps: seq<Step>): Option<State>
    decreases |steps|
  {
    if steps == [] then Some(st)
    else if Enabled(st, steps[0]) then Take(Next(st, steps[0]), steps[1..])
    else None
  }

  lemma {:induction false} TakeInv(st: State, steps: seq<Step>)
    requires Inv(st)
    ensures Take(st, steps).Some? ==> Inv(Take(st, steps).value)
    decreases |steps|
  {
    hide Inv, Next, Enabled;
    if steps != [] && Enabled(st, steps[0]) {
      InvKept(st, steps[0]);
      TakeInv(Next(st, steps[0]), steps[1..]);
    }
  }

  /** `nx_dispatcher_enqueue` run to its end. */
  function Enqueued(st: State, m: Msg): State {
    st.(queue := st.queue + [m], inFlight := st.Bump(m.dst, 1), pending := st.pending + 1, pushed := st.pushed + [m])
  }

  lemma EnqueueIsSteps(st: State, m: Msg)
    requires AtRest(st) && m.pool.None?
    ensures Take(st, [Submit(m), Count(0), Announce(0), Push(0)]) == Some(Enqueued(st, m))
  {
    var a := Next(st, Submit(m));
    var b := Next(a, Count(0));
    var c := Next(b, Announce(0));
    var d := Next(c, Push(0));
    assert d == Enqueued(st, m);
    assert Take(d, []) == Some(d);
    assert [Push(0)][1..] == [];
    assert Take(c, [Push(0)]) == Some(d);
    assert [Announce(0), Push(0)][1..] == [Push(0)];
    assert Take(b, [Announce(0), Push(0)]) == Some(d);
    assert [Count(0), Announce(0), Push(0)][1..] == [Announce(0), Push(0)];
    assert Take(a, [Count(0), Announce(0), Push(0)]) == Some(d);
    assert [Submit(m), Count(0), Announce(0), Push(0)][1..] == [Count(0), Announce(0), Push(0)];
  }

  /** `nx_dispatcher_pump_once` on a non-empty queue, run to its end; the hook or handler
      came to `rc`, and a reply got pool entry `idx`. */
  function Pumped(st: State, rc: Status, idx: nat): State
    requires st.queue != []
  {
    var m := st.queue[0];
    var st1 := st.(queue := st.queue[1..], inFlight := st.Bump(m.dst, -1), pending := st.pending - 1,
                   finished := st.finished + [Dealing(m, rc)]);
    var st2 := if Asks(m) then Enqueued(st1.(used := st1.used + {idx}), ReplyTo(m, rc, idx)) else st1;
    if m.isReply && m.pool.Some? then st2.(used := st2.used - {m.pool.value}) else st2
  }

  function PumpSteps(m: Msg, rc: Status, idx: nat): seq<Step> {
    [Pop, Uncount, Finish(rc), Release, Answer(idx)] + (if Asks(m) then [Count(0), Announce(0), Push(0)] else []) + [Free]
  }

  lemma TakeStep(st: State, step: Step, rest: seq<Step>)
    requires Enabled(st, step)
    ensures Take(st, [step] + rest) == Take(Next(st, step), rest)
  {
    assert ([step] + rest)[1..] == rest;
  }

  lemma PumpIsSteps(st: State, rc: Status, idx: nat)
    requires AtRest(st) && st.queue != [] && (Asks(st.queue[0]) ==> idx < st.poolSize && idx !in st.used)
    ensures Take(st, PumpSteps(st.queue[0], rc, idx)) == Some(Pumped(st, rc, idx))
  {
    hide Take;
    var m := st.queue[0];
    var tail := (if Asks(m) then [Count(0), Announce(0), Push(0)] else []) + [Free];
    var c, e := Next(Next(Next(st, Pop), Uncount), Finish(rc)), Answered(Unloaded(st, rc), idx);
    PumpHead(st, rc, [Release, Answer(idx)] + tail);
    TakeStep(c, Release, [Answer(idx)] + tail);
    TakeStep(Unloaded(st, rc), Answer(idx), tail);
    assert [Release, Answer(idx)] + tail == [Release] + ([Answer(idx)] + tail);
    assert PumpSteps(m, rc, idx) == [Pop, Uncount, Finish(rc)] + ([Release, Answer(idx)] + tail);
    PumpTail(st, rc, idx, e);
  }

  /** Popped, uncounted, handled and released; still to answer. */
  function Unloaded(st: State, rc: Status): State
    requires st.queue != []
  {
    var m := st.queue[0];
    st.(queue := st.queue[1..], inFlight := st.Bump(m.dst, -1), pending := st.pending - 1, consumer := Released(m, rc))
  }

  lemma PumpHead(st: State, rc: Status, rest: seq<Step>)
    requires AtRest(st) && st.queue != []
    ensures var c := Next(Next(Next(st, Pop), Uncount), Finish(rc));
            && Take(st, [Pop, Uncount, Finish(rc)] + rest) == Take(c, rest)
            && Enabled(c, Release) && Next(c, Release) == Unloaded(st, rc)
  {
    hide Take;
    var a := Next(st, Pop);
    var b := Next(a, Uncount);
    TakeStep(st, Pop, [Uncount, Finish(rc)] + rest);
    TakeStep(a, Uncount, [Finish(rc)] + rest);
    TakeStep(b, Finish(rc), rest);
    assert [Pop, Uncount, Finish(rc)] + rest == [Pop] + ([Uncount, Finish(rc)] + rest);
    assert [Uncount, Finish(rc)] + rest == [Uncount] + ([Finish(rc)] + rest);
  }

  lemma PumpTail(st: State, rc: Status, idx: nat, e: State)
    requires AtRest(st) && st.queue != [] && (Asks(st.queue[0]) ==> idx < st.poolSize && idx !in st.used)
    requires e == Answered(Unloaded(st, rc), idx)
    ensures Take(e, (if Asks(st.queue[0]) then [Count(0), Announce(0), Push(0)] else []) + [Free]) == Some(Pumped(st, rc, idx))
  {
    hide Take;
    var m := st.queue[0];
    if Asks(m) {
      var f := Next(e, Count(0));
      var g := Next(f, Announce(0));
      var h := Next(g, Push(0));
      TakeStep(e, Count(0), [Announce(0), Push(0), Free]);
      TakeStep(f, Announce(0), [Push(0), Free]);
      TakeStep(g, Push(0), [Free]);
      assert [Count(0), Announce(0), Push(0)] + [Free] == [Count(0)] + [Announce(0), Push(0), Free];
      assert [Announce(0), Push(0), Free] == [Announce(0)] + [Push(0), Free];
      assert [Push(0), Free] == [Push(0)] + [Free];
      LastStep(h);
      assert h.producers == [];
      assert Next(h, Free) == Pumped(st, rc, idx);
    } else {
      assert [] + [Free] == [Free];
      LastStep(e);
      assert Next(e, Free) == Pumped(st, rc, idx);
    }
  }

  lemma LastStep(st: State)
    requires Enabled(st, Free)
    ensures Take(st, [Free]) == Some(Next(st, Free))
  {
    assert [Free][1..] == [];
  }

  /** A completed pump keeps the counters exact and leaves the dispatcher at rest. */
  lemma PumpInv(st: State, rc: Status, idx: nat)
    requires Inv(st) && AtRest(st) && st.queue != [] && (Asks(st.queue[0]) ==> idx < st.poolSize && idx !in st.used)
    ensures Inv(Pumped(st, rc, idx)) && AtRest(Pumped(st, rc, idx))
  {
    hide Inv, Take, PumpSteps;
    PumpIsSteps(st, rc, idx);
    TakeInv(st, PumpSteps(st.queue[0], rc, idx));
  }

  lemma EnqueueInv(st: State, m: Msg)
    requires Inv(st) && AtRest(st) && m.pool.None?
    ensures Inv(Enqueued(st, m)) && AtRest(Enqueued(st, m))
  {
    hide Inv, Take;
    EnqueueIsSteps(st, m);
    TakeInv(st, [Submit(m), Count(0), Announce(0), Push(0)]);
  }

  // ---------------------------------------------------------------- draining the queue

  function AskCount(queue: seq<Msg>): nat {
    if queue == [] then 0 else AskCount(queue[..|queue| - 1]) + if Asks(queue[|queue| - 1]) then 1 else 0
  }

  lemma {:induction false} AskCountConcat(a: seq<Msg>, b: seq<Msg>)
    ensures AskCount(a + b) == AskCount(a) + AskCount(b)
  {
    if b == [] {
      assert a + b == a;
    } else {
      assert (a + b)[..|a + b| - 1] == a + b[..|b| - 1];
      AskCountConcat(a, b[..|b| - 1]);
    }
  }

  /** Pumps still to come: one per message, and one more per request for its reply. */
  function Work(st: State): nat {
    |st.queue| + AskCount(st.queue)
  }

  lemma PumpWorks(st: State, rc: Status, idx: nat)
    requires st.queue != []
    ensures Work(Pumped(st, rc, idx)) == Work(st) - 1
  {
    var m, rest := st.queue[0], st.queue[1..];
    assert st.queue == [m] + rest;
    AskCountConcat([m], rest);
    assert [m][..0] == [];
    if Asks(m) {
      var r := ReplyTo(m, rc, idx);
      AskCountConcat(rest, [r]);
      assert [r][..0] == [];
    }
  }

  /** `st` after `n` pumps that met statuses `rcs(0)`, `rcs(1)`, ... and entries `idxs`. */
  function Pumping(st: State, rcs: nat -> Status, idxs: nat -> nat, n: nat): State {
    if n == 0 then st
    else
      var st1 := Pumping(st, rcs, idxs, n - 1);
      if st1.queue == [] then st1 else Pumped(st1, rcs(n - 1), idxs(n - 1))
  }

  ghost predicate SuppliedAt(st: State, idx: nat) {
    st.queue != [] && Asks(st.queue[0]) ==> idx < st.poolSize && idx !in st.used
  }

  /** The pool never ran out on the way. */
  ghost predicate Supplied(st: State, rcs: nat -> Status, idxs: nat -> nat) {
    forall n: nat :: SuppliedAt(Pumping(st, rcs, idxs, n), idxs(n))
  }

  lemma {:induction false} PumpingInv(st: State, rcs: nat -> Status, idxs: nat -> nat, n: nat)
    requires Inv(st) && AtRest(st) && Supplied(st, rcs, idxs)
    ensures Inv(Pumping(st, rcs, idxs, n)) && AtRest(Pumping(st, rcs, idxs, n))
    ensures Work(Pumping(st, rcs, idxs, n)) == if n <= Work(st) then Work(st) - n else 0
  {
    hide Inv, Pumped, AtRest, Work, Supplied;
    if n > 0 {
      PumpingInv(st, rcs, idxs, n - 1);
      var st1 := Pumping(st, rcs, idxs, n - 1);
      SuppliedHere(st, rcs, idxs, n - 1);
      if st1.queue != [] {
        PumpInv(st1, rcs(n - 1), idxs(n - 1));
        PumpWorks(st1, rcs(n - 1), idxs(n - 1));
      } else {
        NoWork(st1);
      }
    }
  }

  lemma SuppliedHere(st: State, rcs: nat -> Status, idxs: nat -> nat, n: nat)
    requires Supplied(st, rcs, idxs)
    ensures SuppliedAt(Pumping(st, rcs, idxs, n), idxs(n))
  {
    hide Pumping;
  }

  lemma NoWork(st: State)
    requires st.queue == []
    ensures Work(st) == 0
  {
  }

  /** Pumping as often as there is work empties the queue, frees the whole pool, and has
      answered every request exactly. */
  lemma DrainsAndAnswers(st: State, rcs: nat -> Status, idxs: nat -> nat, x: Slip)
    requires Inv(st) && AtRest(st) && Supplied(st, rcs, idxs)
    ensures var last := Pumping(st, rcs, idxs, Work(st));
            && last.queue == [] && last.used == {} && last.pending == 0
            && (forall s :: last.InFlight(s) == 0)
            && Sum(Dealt(last.finished), SlipMsg(x)) == Sum(last.finished, SlipOwed(x))
  {
    hide Inv, Pumping, Supplied, Dealt;
    var last := Pumping(st, rcs, idxs, Work(st));
    PumpingInv(st, rcs, idxs, Work(st));
    AnsweredExactly(last, x);
    RestIsExact(last);
  }

  /** A run goes on by every step that can be taken, and by no other. */
  lemma RunOn(poolSize: nat, steps: seq<Step>, step: Step)
    requires Run(poolSize, steps).Some?
    ensures var st := Run(poolSize, steps).value;
            Run(poolSize, steps + [step]) == if Enabled(st, step) then Some(Next(st, step)) else None
  {
    assert (steps + [step])[..|steps|] == steps;
  }
}
