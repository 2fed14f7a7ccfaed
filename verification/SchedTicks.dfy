/** The quantum of components/sched_rr and components/sched_priority over whole traces, and
    what enqueueing and dequeueing answer. */
module SchedTicks {
  import opened Composition
  import opened Sequences
  import opened Schedulers

  // ---------------------------------------------------------------- the quantum

  /** A timer tick while a task runs. */
  predicate Beat(e: Event) {
    e.op == Tick && e.m.current.Some?
  }

  function Beats(events: seq<Event>): nat {
    if events == [] then 0 else (if Beat(events[0]) then 1 else 0) + Beats(events[1..])
  }

  /** How many of the ticks flagged the running task. */
  function Flags(events: seq<Event>, shown: seq<Shown>): nat
    requires |events| == |shown|
  {
    if events == [] then 0
    else (if events[0].op == Tick && shown[0].resched then 1 else 0) + Flags(events[1..], shown[1..])
  }

  predicate NoYield(events: seq<Event>) {
    forall e | e in events :: e.op != Yield
  }

  /** A tick that is due starts a new quantum; any other takes one off. */
  lemma TickedIs(remaining: nat, quantum: nat)
    requires 1 <= remaining <= quantum
    ensures var (left, due) := Ticked(remaining, quantum);
            1 <= left <= quantum && (due <==> remaining == 1) && quantum - remaining + 1 == (if due then quantum else 0) + (quantum - left)
  {
  }

  lemma RrSize(s: RoundRobin, events: seq<Event>)
    ensures |RrRun(s, events).1| == |events|
    decreases events
  {
  }

  lemma {:induction false} PrSizes(s: Priority, events: seq<Event>)
    requires |s.queues| == LEVELS
    ensures |PrRun(s, events).1| == |events| && |PrRun(s, events).0.queues| == LEVELS
    decreases events
  {
    hide PrStep;
    if events != [] {
      PrSize(s, events[0].m, events[0].op);
      PrSizes(PrStep(s, events[0].m, events[0].op).0, events[1..]);
    }
  }

  lemma OneMore(flags: nat, due: bool, quantum: nat)
    ensures (flags + if due then 1 else 0) * quantum == flags * quantum + if due then quantum else 0
  {
  }

  /** Between yields, round-robin flags the running task once for every full quantum of
      ticks: the ticks spent before and during the trace are so many quanta and a rest. */
  lemma {:induction false} RrQuantum(s: RoundRobin, events: seq<Event>)
    requires 1 <= s.remaining <= s.quantum && NoYield(events)
    ensures var (s', shown) := RrRun(s, events);
            && s'.quantum == s.quantum && 1 <= s'.remaining <= s.quantum && |shown| == |events|
            && (s.quantum - s.remaining) + Beats(events) == Flags(events, shown) * s.quantum + (s.quantum - s'.remaining)
    decreases events
  {
    hide Without, FirstReady, Rotated, Ticked;
    RrSize(s, events);
    if events != [] {
      var e := events[0];
      assert e in events;
      TickedIs(s.remaining, s.quantum);
      var (s1, one) := RrStep(s, e.m, e.op);
      RrQuantum(s1, events[1..]);
      var rest := RrRun(s1, events[1..]).1;
      assert ([one] + rest)[1..] == rest;
      OneMore(Flags(events[1..], rest), e.op == Tick && one.resched, s.quantum);
    }
  }

  /** And so does the priority policy. */
  lemma {:induction false} PrQuantum(s: Priority, events: seq<Event>)
    requires |s.queues| == LEVELS && 1 <= s.remaining <= s.quantum && NoYield(events)
    ensures var (s', shown) := PrRun(s, events);
            && s'.quantum == s.quantum && 1 <= s'.remaining <= s.quantum && |shown| == |events|
            && (s.quantum - s.remaining) + Beats(events) == Flags(events, shown) * s.quantum + (s.quantum - s'.remaining)
    decreases events
  {
    hide Without, FirstReady, Rotated, Ticked, PickBelow, TopBelow, Level, LevelFrom;
    PrSizes(s, events);
    if events != [] {
      var e := events[0];
      assert e in events;
      TickedIs(s.remaining, s.quantum);
      PrSize(s, e.m, e.op);
      var (s1, one) := PrStep(s, e.m, e.op);
      PrQuantum(s1, events[1..]);
      var rest := PrRun(s1, events[1..]).1;
      assert ([one] + rest)[1..] == rest;
      OneMore(Flags(events[1..], rest), e.op == Tick && one.resched, s.quantum);
    }
  }

  // ---------------------------------------------------------------- the queue

  /** Enqueueing refuses a task that is queued at any priority, and wakes an idle machine;
      dequeueing refuses one that is not queued. */
  lemma QueueAnswers(s: Priority, m: Machine, t: Task)
    requires Once(s)
    ensures var (s', shown) := PrStep(s, m, Enqueue(t));
            if Queued(s, t) then shown == Shown(EEXIST, None, false) && s' == s
            else shown == Shown(OK, None, m.current.Some? && m.current.value == m.idle && t != m.idle)
    ensures var (s', shown) := PrStep(s, m, Dequeue(t));
            if Queued(s, t) then shown == DONE else shown == Shown(ENOENT, None, false) && s' == s
  {
    hide Without, LevelFrom, Level, Queued;
    LevelQueued(s, t);
  }

  /** A task that is enqueued waits for everybody at the default priority to have had a turn,
      and no longer: the rounds pick those queued before it in order, then it. */
  lemma NewcomerWaits(s: Priority, m: Machine, t: Task)
    requires Once(s) && Turn(s, m, 0) && !Queued(s, t) && t !in m.blocked
    ensures var s' := PrStep(s, m, Enqueue(t)).0;
            var n := |s.queues[0]|;
            && |s'.queues| == LEVELS
            && PrRounds(s', m, n + 1).1 == seq(n, i requires 0 <= i < n => Some(s.queues[0][i])) + [Some(t)]
  {
    hide PrRounds, LevelFrom, Level, Rounds, PickBelow, TopBelow, FirstReady;
    var q := s.queues[0];
    LevelQueued(s, t);
    QueuedOrNot(s, 0);
    var s' := PrStep(s, m, Enqueue(t)).0;
    StepConserves(s, m, Enqueue(t));
    assert s'.queues[0] == q + [t];
    forall k, x | 0 <= k < LEVELS && k != 0 && x in s'.queues[k] ensures x !in s'.queues[0] {
      assert x in s.queues[k] && Queued(s, x);
    }
    assert Turn(s', m, 0);
    RoundsAreFair(s', m, 0, |q| + 1);
  }

  /** A new priority is refused outside the eight levels, and for a task that is not queued. */
  lemma PriorityAnswers(s: Priority, t: Task, priority: int)
    requires Once(s)
    ensures var (s', rc) := SetPriority(s, t, priority);
            if !(0 <= priority <= 7) then rc == EINVAL && s' == s
            else if !Queued(s, t) then rc == ENOENT && s' == s
            else rc == OK
  {
    hide Without, LevelFrom, Level, Queued;
    LevelQueued(s, t);
  }
}
