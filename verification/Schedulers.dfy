/** The two scheduling policies, sched_rr and sched_priority, as functions on run queues,
    and when they cannot be told apart. */
module Schedulers {
  import opened Composition
  import opened Sequences

  type Task = nat

  const LEVELS := 8

  /** What the policies read of the rest of the kernel: the running task and who is blocked. */
  datatype Machine = Machine(current: Option<Task>, idle: Task, blocked: set<Task>)

  datatype RoundRobin = RoundRobin(queue: seq<Task>, quantum: nat, remaining: nat)

  /** Bucket 7 is the most urgent; tasks start in bucket 0. */
  datatype Priority = Priority(queues: seq<seq<Task>>, quantum: nat, remaining: nat)

  datatype Op = Pick | Enqueue(task: Task) | Dequeue(task: Task) | Yield | Tick

  /** What an operation shows: its result, the task picked, whether the running task was
      flagged for rescheduling. */
  datatype Shown = Shown(rc: Status, picked: Option<Task>, resched: bool)

  const DONE := Shown(OK, None, false)

  // ---------------------------------------------------------------- lists

  function Rotated(q: seq<Task>): seq<Task> {
    if q == [] then [] else q[1..] + [q[0]]
  }

  /** The first task that may run. */
  function FirstReady(q: seq<Task>, blocked: set<Task>): Option<Task> {
    if q == [] then None else if q[0] !in blocked then Some(q[0]) else FirstReady(q[1..], blocked)
  }

  // ---------------------------------------------------------------- sched_rr

  function Ticked(remaining: nat, quantum: nat): (nat, bool) {
    var left := if remaining > 0 then remaining - 1 else 0;
    if left == 0 then (quantum, true) else (left, false)
  }

  function WakesIdle(m: Machine, t: Task): bool {
    m.current == Some(m.idle) && t != m.idle
  }

  function RrStep(s: RoundRobin, m: Machine, op: Op): (RoundRobin, Shown) {
    match op
    case Pick => (s, DONE.(picked := FirstReady(s.queue, m.blocked)))
    case Enqueue(t) =>
      if t in s.queue then (s, DONE.(rc := EEXIST))
      else (s.(queue := s.queue + [t]), DONE.(resched := WakesIdle(m, t)))
    case Dequeue(t) =>
      if t !in s.queue then (s, DONE.(rc := ENOENT)) else (s.(queue := Without(s.queue, t)), DONE)
    case Yield =>
      if s.queue == [] then (s, DONE) else (s.(queue := Rotated(s.queue), remaining := s.quantum), DONE)
    case Tick =>
      if m.current.None? then (s, DONE)
      else var (left, due) := Ticked(s.remaining, s.quantum); (s.(remaining := left), DONE.(resched := due))
  }

  // ---------------------------------------------------------------- sched_priority

  /** `task_priority`: the lowest bucket the task is in. */
  function LevelFrom(queues: seq<seq<Task>>, t: Task, p: nat): (r: Option<nat>)
    requires p <= |queues|
    ensures r.Some? ==> p <= r.value < |queues| && t in queues[r.value]
    ensures r.None? ==> forall k | p <= k < |queues| :: t !in queues[k]
    decreases |queues| - p
  {
    if p == |queues| then None else if t in queues[p] then Some(p) else LevelFrom(queues, t, p + 1)
  }

  function Level(queues: seq<seq<Task>>, t: Task): (r: Option<nat>)
    ensures r.Some? ==> r.value < |queues| && t in queues[r.value]
    ensures r.None? ==> forall k | 0 <= k < |queues| :: t !in queues[k]
  {
    LevelFrom(queues, t, 0)
  }

  /** The scan of `pick_next` over the buckets below `n`, from the top. */
  function PickBelow(queues: seq<seq<Task>>, blocked: set<Task>, n: nat): Option<Task>
    requires n <= |queues|
  {
    if n == 0 then None
    else
      var t := FirstReady(queues[n - 1], blocked);
      if t.Some? then t else PickBelow(queues, blocked, n - 1)
  }

  /** The highest bucket below `n` that is not empty. */
  function TopBelow(queues: seq<seq<Task>>, n: nat): (r: Option<nat>)
    requires n <= |queues|
    ensures r.Some? ==> r.value < n && queues[r.value] != [] && forall k | r.value < k < n :: queues[k] == []
    ensures r.None? ==> forall k | 0 <= k < n :: queues[k] == []
  {
    if n == 0 then None else if queues[n - 1] != [] then Some(n - 1) else TopBelow(queues, n - 1)
  }

  function PrStep(s: Priority, m: Machine, op: Op): (Priority, Shown)
    requires |s.queues| == LEVELS
  {
    match op
    case Pick => (s, DONE.(picked := PickBelow(s.queues, m.blocked, LEVELS)))
    case Enqueue(t) =>
      if Level(s.queues, t).Some? then (s, DONE.(rc := EEXIST))
      else (s.(queues := s.queues[0 := s.queues[0] + [t]]), DONE.(resched := WakesIdle(m, t)))
    case Dequeue(t) =>
      var p := Level(s.queues, t);
      if p.None? then (s, DONE.(rc := ENOENT)) else (s.(queues := s.queues[p.value := Without(s.queues[p.value], t)]), DONE)
    case Yield =>
      var p := if m.current.Some? then Level(s.queues, m.current.value) else None;
      if p.Some? then
        var q, t := s.queues[p.value], m.current.value;
        (s.(queues := s.queues[p.value := Without(q, t) + [t]], remaining := s.quantum), DONE)
      else
        var top := TopBelow(s.queues, LEVELS);
        if top.None? then (s, DONE)
        else (s.(queues := s.queues[top.value := Rotated(s.queues[top.value])], remaining := s.quantum), DONE)
    case Tick =>
      if m.current.None? then (s, DONE)
      else var (left, due) := Ticked(s.remaining, s.quantum); (s.(remaining := left), DONE.(resched := due))
  }

  /** `sched_priority_set_priority`. */
  function SetPriority(s: Priority, t: Task, priority: int): (Priority, Status)
    requires |s.queues| == LEVELS
  {
    if priority < 0 || priority >= LEVELS then (s, EINVAL)
    else
      var p := Level(s.queues, t);
      if p.None? then (s, ENOENT)
      else if p.value == priority then (s, OK)
      else
        var less := s.queues[p.value := Without(s.queues[p.value], t)];
        (s.(queues := less[priority := less[priority] + [t]]), OK)
  }

  // ---------------------------------------------------------------- agreement

  /** Everything at the default priority, in the same order, with the same quantum left. */
  ghost predicate Alike(r: RoundRobin, p: Priority) {
    && |p.queues| == LEVELS && p.queues[0] == r.queue && (forall k | 1 <= k < LEVELS :: p.queues[k] == [])
    && p.quantum == r.quantum && p.remaining == r.remaining && Distinct(r.queue)
  }

  /** The running task is off the queue or at its head. */
  predicate AtHead(r: RoundRobin, m: Machine) {
    m.current.Some? && m.current.value in r.queue ==> r.queue[0] == m.current.value
  }

  lemma {:induction false} PickOne(queues: seq<seq<Task>>, blocked: set<Task>, n: nat)
    requires 1 <= n <= |queues| && forall k | 1 <= k < n :: queues[k] == []
    ensures PickBelow(queues, blocked, n) == FirstReady(queues[0], blocked)
  {
    if n > 1 {
      PickOne(queues, blocked, n - 1);
    } else {
      assert PickBelow(queues, blocked, 0) == None;
    }
  }

  lemma LevelOne(queues: seq<seq<Task>>, t: Task)
    requires 1 <= |queues| && forall k | 1 <= k < |queues| :: queues[k] == []
    ensures Level(queues, t) == if t in queues[0] then Some(0) else None
  {
    var r := Level(queues, t);
    assert r.Some? ==> queues[r.value] != [];
  }

  lemma TopOne(queues: seq<seq<Task>>, n: nat)
    requires 1 <= n <= |queues| && forall k | 1 <= k < n :: queues[k] == []
    ensures TopBelow(queues, n) == if queues[0] == [] then None else Some(0)
  {
    assert TopBelow(queues, n).Some? ==> TopBelow(queues, n).value < 1;
  }

  /** The two rotations give the same list exactly if the running task is at the head. */
  lemma RotationsAgree(q: seq<Task>, t: Task)
    requires Distinct(q) && t in q
    ensures Without(q, t) + [t] == Rotated(q) <==> q[0] == t
  {
    if q[0] != t {
      var a, b := Without(q, t) + [t], Rotated(q);
      WithoutIs(q, t);
      assert a[|a| - 1] == t && b[|b| - 1] == q[0];
    }
  }

  /** From alike states every operation shows the same and leaves alike states; a yield does
      so exactly if the running task is off the queue or at its head. */
  lemma StepAgrees(r: RoundRobin, p: Priority, m: Machine, op: Op)
    requires Alike(r, p)
    ensures RrStep(r, m, op).1 == PrStep(p, m, op).1
    ensures Alike(RrStep(r, m, op).0, PrStep(p, m, op).0) <==> (op == Yield ==> AtHead(r, m))
  {
    hide Without, Rotated, FirstReady, PickBelow, LevelFrom, Level, TopBelow;
    PickOne(p.queues, m.blocked, LEVELS);
    TopOne(p.queues, LEVELS);
    match op {
      case Pick =>
      case Enqueue(t) => LevelOne(p.queues, t);
      case Dequeue(t) =>
        LevelOne(p.queues, t);
        WithoutIs(r.queue, t);
      case Yield =>
        RotatedDistinct(r.queue);
        if m.current.Some? {
          LevelOne(p.queues, m.current.value);
          if m.current.value in r.queue { RotationsAgree(r.queue, m.current.value); }
        }
      case Tick =>
    }
  }

  /** What the next pick shows after a yield, with nobody blocked: the same task exactly if
      the running one was off the queue or at its head. */
  lemma PicksAfterYield(r: RoundRobin, p: Priority, m: Machine)
    requires Alike(r, p) && m.blocked == {}
    ensures |PrStep(p, m, Yield).0.queues| == LEVELS
    ensures RrStep(RrStep(r, m, Yield).0, m, Pick).1 == PrStep(PrStep(p, m, Yield).0, m, Pick).1 <==> AtHead(r, m)
  {
    var r', p' := RrStep(r, m, Yield).0, PrStep(p, m, Yield).0;
    StepAgrees(r, p, m, Yield);
    if AtHead(r, m) {
      StepAgrees(r', p', m, Pick);
    } else {
      var q, t := r.queue, m.current.value;
      LevelOne(p.queues, t);
      WithoutIs(q, t);
      FirstStays(q, t);
      PickOne(p'.queues, m.blocked, LEVELS);
      assert r'.queue[0] == q[1] && p'.queues[0][0] == q[0];
    }
  }

  lemma FirstStays(q: seq<Task>, t: Task)
    requires t in q && q[0] != t
    ensures |q| > 1 && Without(q, t) != [] && Without(q, t)[0] == q[0]
  {
  }

  lemma RotatedDistinct(q: seq<Task>)
    requires Distinct(q)
    ensures Distinct(Rotated(q)) && forall x :: x in Rotated(q) <==> x in q
  {
    if q != [] {
      assert q == [q[0]] + q[1..];
    }
  }

  // ---------------------------------------------------------------- whole traces

  /** One event: the machine as it is when the operation is called. */
  datatype Event = Event(m: Machine, op: Op)

  function RrRun(s: RoundRobin, events: seq<Event>): (RoundRobin, seq<Shown>)
    decreases events
  {
    if events == [] then (s, [])
    else
      var (s1, shown) := RrStep(s, events[0].m, events[0].op);
      var (s2, rest) := RrRun(s1, events[1..]);
      (s2, [shown] + rest)
  }

  lemma PrSize(s: Priority, m: Machine, op: Op)
    requires |s.queues| == LEVELS
    ensures |PrStep(s, m, op).0.queues| == LEVELS
  {
    hide Without, Rotated, FirstReady, PickBelow, LevelFrom, Level, TopBelow;
    match op {
      case Pick =>
      case Enqueue(t) =>
      case Dequeue(t) =>
      case Yield =>
      case Tick =>
    }
  }

  function PrRun(s: Priority, events: seq<Event>): (Priority, seq<Shown>)
    requires |s.queues| == LEVELS
    decreases events
  {
    if events == [] then (s, [])
    else
      PrSize(s, events[0].m, events[0].op);
      var (s1, shown) := PrStep(s, events[0].m, events[0].op);
      var (s2, rest) := PrRun(s1, events[1..]);
      (s2, [shown] + rest)
  }

  /** At every yield of the trace the running task is off the queue or at its head. */
  predicate YieldsAtHead(s: RoundRobin, events: seq<Event>)
    decreases events
  {
    events == [] ||
    ((events[0].op == Yield ==> AtHead(s, events[0].m)) && YieldsAtHead(RrStep(s, events[0].m, events[0].op).0, events[1..]))
  }

  /** On such traces the two policies show the same picks, answers and reschedule flags, and
      end with the same queue and quantum. */
  lemma {:induction false} PoliciesAgree(r: RoundRobin, p: Priority, events: seq<Event>)
    requires Alike(r, p) && YieldsAtHead(r, events)
    ensures RrRun(r, events).1 == PrRun(p, events).1 && Alike(RrRun(r, events).0, PrRun(p, events).0)
    decreases events
  {
    hide RrStep, PrStep, AtHead;
    if events != [] {
      var e := events[0];
      StepAgrees(r, p, e.m, e.op);
      PoliciesAgree(RrStep(r, e.m, e.op).0, PrStep(p, e.m, e.op).0, events[1..]);
    }
  }

  // ---------------------------------------------------------------- who gets picked

  lemma {:induction false} FirstReadyIs(q: seq<Task>, blocked: set<Task>)
    ensures var t := FirstReady(q, blocked);
            && (t.None? <==> forall x | x in q :: x in blocked)
            && (t.Some? ==> t.value in q && t.value !in blocked
                            && exists i :: 0 <= i < |q| && q[i] == t.value && forall k | 0 <= k < i :: q[k] in blocked)
  {
    if q != [] && q[0] in blocked {
      FirstReadyIs(q[1..], blocked);
      var t := FirstReady(q[1..], blocked);
      assert q == [q[0]] + q[1..];
      if t.Some? {
        var i :| 0 <= i < |q[1..]| && q[1..][i] == t.value && forall k | 0 <= k < i :: q[1..][k] in blocked;
        assert q[i + 1] == t.value;
        forall k | 0 <= k < i + 1 ensures q[k] in blocked { if k > 0 { assert q[1..][k - 1] in blocked; } }
      }
    } else if q != [] {
      assert q[0] in q;
    }
  }

  /** `t` is the first task of bucket `p` that may run. */
  ghost predicate FirstIn(queues: seq<seq<Task>>, blocked: set<Task>, p: nat, t: Task) {
    && p < |queues| && t in queues[p] && t !in blocked
    && exists i :: 0 <= i < |queues[p]| && queues[p][i] == t && forall k | 0 <= k < i :: queues[p][k] in blocked
  }

  /** The pick is the first runnable task of a bucket above which nobody is runnable; there
      is none exactly if nobody is runnable at all. */
  lemma {:induction false} PicksHighest(queues: seq<seq<Task>>, blocked: set<Task>, n: nat)
    requires n <= |queues|
    ensures var t := PickBelow(queues, blocked, n);
            && (t.None? <==> forall k, x | 0 <= k < n && x in queues[k] :: x in blocked)
            && (t.Some? ==> exists p: nat :: p < n && FirstIn(queues, blocked, p, t.value)
                                             && forall k, x | p < k < n && x in queues[k] :: x in blocked)
  {
    if n > 0 {
      FirstReadyIs(queues[n - 1], blocked);
      PicksHighest(queues, blocked, n - 1);
      var t := FirstReady(queues[n - 1], blocked);
      if t.Some? {
        assert FirstIn(queues, blocked, n - 1, t.value);
      }
    }
  }

  // ---------------------------------------------------------------- fairness

  function Rounds(q: seq<Task>, k: nat): seq<Task>
    requires k <= |q|
  {
    q[k..] + q[..k]
  }

  lemma RotateRound(q: seq<Task>, k: nat)
    requires k < |q|
    ensures Rounds(q, k)[0] == q[k] && Rotated(Rounds(q, k)) == Rounds(q, k + 1)
  {
    assert q[k..][1..] == q[k + 1..] && q[..k + 1] == q[..k] + [q[k]];
  }

  /** One round of sched_priority: pick, run, yield.  The picked task is the current one. */
  function PrRound(s: Priority, m: Machine): (Priority, Option<Task>)
    requires |s.queues| == LEVELS
  {
    var t := PrStep(s, m, Pick).1.picked;
    (PrStep(s, m.(current := t), Yield).0, t)
  }

  function PrRounds(s: Priority, m: Machine, k: nat): (r: (Priority, seq<Option<Task>>))
    requires |s.queues| == LEVELS
    ensures |r.0.queues| == LEVELS
  {
    if k == 0 then (s, [])
    else
      var (s1, picks) := PrRounds(s, m, k - 1);
      PrSize(s1, m.(current := PrStep(s1, m, Pick).1.picked), Yield);
      var (s2, t) := PrRound(s1, m);
      (s2, picks + [t])
  }

  /** Nobody above bucket `p` may run, everybody in it may, and no task is in two places. */
  ghost predicate Turn(s: Priority, m: Machine, p: nat) {
    && |s.queues| == LEVELS && p < LEVELS && Distinct(s.queues[p])
    && (forall k, x | p < k < LEVELS && x in s.queues[k] :: x in m.blocked)
    && (forall x | x in s.queues[p] :: x !in m.blocked)
    && (forall k, x | 0 <= k < LEVELS && k != p && x in s.queues[k] :: x !in s.queues[p])
  }

  lemma RoundPicksHead(s: Priority, m: Machine, p: nat)
    requires Turn(s, m, p) && s.queues[p] != []
    ensures PrRound(s, m) == (s.(queues := s.queues[p := Rotated(s.queues[p])], remaining := s.quantum), Some(s.queues[p][0]))
  {
    hide FirstReady, TopBelow, LevelFrom;
    var q := s.queues[p];
    PicksHead(s.queues, m.blocked, p, LEVELS);
    assert q[0] in q;
    var r := Level(s.queues, q[0]);
    assert r.Some? && r.value == p;
  }

  lemma {:induction false} PicksHead(queues: seq<seq<Task>>, blocked: set<Task>, p: nat, n: nat)
    requires p < n <= |queues| && queues[p] != [] && queues[p][0] !in blocked
    requires forall k, x | p < k < n && x in queues[k] :: x in blocked
    ensures PickBelow(queues, blocked, n) == Some(queues[p][0])
  {
    FirstReadyIs(queues[n - 1], blocked);
    if n - 1 > p {
      PicksHead(queues, blocked, p, n - 1);
    }
  }

  /** As many rounds as the bucket has tasks pick each of them once, in order, and leave the
      bucket as it was. */
  lemma {:induction false} RoundsAreFair(s: Priority, m: Machine, p: nat, k: nat)
    requires Turn(s, m, p) && k <= |s.queues[p]|
    ensures var (s', picks) := PrRounds(s, m, k);
            && s'.queues == s.queues[p := Rounds(s.queues[p], k)] && Turn(s', m, p)
            && |picks| == k && forall i | 0 <= i < k :: picks[i] == Some(s.queues[p][i])
  {
    hide PrRound;
    var q := s.queues[p];
    if k == 0 {
      assert Rounds(q, 0) == q;
    } else {
      RoundsAreFair(s, m, p, k - 1);
      var s1 := PrRounds(s, m, k - 1).0;
      RoundPicksHead(s1, m, p);
      RotateRound(q, k - 1);
      RotatedDistinct(Rounds(q, k - 1));
      assert s1.queues[p := Rounds(q, k)] == s.queues[p := Rounds(q, k)];
    }
  }

  lemma FullRoundRestores(q: seq<Task>)
    ensures Rounds(q, |q|) == q
  {
  }

  // ---------------------------------------------------------------- no task twice

  /** Each queued task is in one bucket, once. */
  ghost predicate Once(s: Priority) {
    && |s.queues| == LEVELS && (forall k | 0 <= k < LEVELS :: Distinct(s.queues[k]))
    && forall j, k, x | 0 <= j < k < LEVELS && x in s.queues[j] :: x !in s.queues[k]
  }

  ghost predicate Queued(s: Priority, x: Task) {
    exists k :: 0 <= k < |s.queues| && x in s.queues[k]
  }

  lemma QueuedAt(s: Priority, k: nat, x: Task)
    requires k < |s.queues| && x in s.queues[k]
    ensures Queued(s, x)
  {
  }

  /** Giving a bucket a new list of its own tasks and of tasks not queued so far. */
  lemma BucketChange(s: Priority, p: nat, q: seq<Task>)
    requires Once(s) && p < LEVELS && Distinct(q) && forall x | x in q :: x in s.queues[p] || !Queued(s, x)
    ensures var s' := s.(queues := s.queues[p := q]);
            Once(s') && forall x :: Queued(s', x) <==> x in q || (Queued(s, x) && x !in s.queues[p])
  {
    var s' := s.(queues := s.queues[p := q]);
    forall j, k, x | 0 <= j < k < LEVELS && x in s'.queues[j] ensures x !in s'.queues[k] {
      if j == p && x in s.queues[k] { QueuedAt(s, k, x); }
      if k == p && x in s.queues[j] { QueuedAt(s, j, x); }
    }
    forall x ensures Queued(s', x) <==> x in q || (Queued(s, x) && x !in s.queues[p]) {
      if x in q { QueuedAt(s', p, x); }
      if Queued(s, x) && x !in s.queues[p] {
        var k :| 0 <= k < |s.queues| && x in s.queues[k];
        QueuedAt(s', k, x);
      }
      if Queued(s', x) {
        var k :| 0 <= k < |s'.queues| && x in s'.queues[k];
        if k != p { QueuedAt(s, k, x); }
      }
    }
  }

  lemma LevelQueued(s: Priority, t: Task)
    ensures Level(s.queues, t).Some? <==> Queued(s, t)
  {
    var r := Level(s.queues, t);
    if r.Some? { QueuedAt(s, r.value, t); }
  }

  lemma MovedToTail(q: seq<Task>, t: Task)
    requires Distinct(q) && t in q
    ensures Distinct(Without(q, t) + [t]) && forall x :: x in Without(q, t) + [t] <==> x in q
  {
    hide Without;
    WithoutIs(q, t);
  }

  /** No operation loses, duplicates or invents a queued task. */
  lemma StepConserves(s: Priority, m: Machine, op: Op)
    requires Once(s)
    ensures var s' := PrStep(s, m, op).0;
            Once(s') && forall x :: Queued(s', x) <==> op == Enqueue(x) || (Queued(s, x) && op != Dequeue(x))
  {
    hide Without, Rotated, FirstReady, PickBelow, LevelFrom, Level, TopBelow, Queued, Once;
    OnceSize(s);
    match op {
      case Pick =>
      case Enqueue(t) =>
        LevelQueued(s, t);
        if !Queued(s, t) {
          OnceAt(s, 0, t);
          BucketChange(s, 0, s.queues[0] + [t]);
          QueuedOrNot(s, 0);
        }
      case Dequeue(t) =>
        LevelQueued(s, t);
        var p := Level(s.queues, t);
        if p.Some? {
          OnceAt(s, p.value, t);
          WithoutIs(s.queues[p.value], t);
          BucketChange(s, p.value, Without(s.queues[p.value], t));
          QueuedOrNot(s, p.value);
        }
      case Yield =>
        var p := if m.current.Some? then Level(s.queues, m.current.value) else None;
        var top := TopBelow(s.queues, LEVELS);
        if p.Some? {
          var t := m.current.value;
          OnceAt(s, p.value, t);
          MovedToTail(s.queues[p.value], t);
          BucketChange(s, p.value, Without(s.queues[p.value], t) + [t]);
          QueuedOrNot(s, p.value);
          SameButQuantum(s.(queues := s.queues[p.value := Without(s.queues[p.value], t) + [t]]), s.quantum);
        } else if top.Some? {
          OnceAt(s, top.value, 0);
          RotatedDistinct(s.queues[top.value]);
          BucketChange(s, top.value, Rotated(s.queues[top.value]));
          QueuedOrNot(s, top.value);
          SameButQuantum(s.(queues := s.queues[top.value := Rotated(s.queues[top.value])]), s.quantum);
        }
      case Tick => SameButQuantum(s, Ticked(s.remaining, s.quantum).0);
    }
  }

  lemma OnceSize(s: Priority)
    requires Once(s)
    ensures |s.queues| == LEVELS
  {
  }

  lemma OnceAt(s: Priority, k: nat, t: Task)
    requires Once(s) && k < LEVELS
    ensures Distinct(s.queues[k]) && (t in s.queues[k] ==> Queued(s, t))
  {
  }

  lemma QueuedOrNot(s: Priority, k: nat)
    requires |s.queues| == LEVELS && k < LEVELS
    ensures forall x | x in s.queues[k] :: Queued(s, x)
  {
  }

  lemma SameButQuantum(s: Priority, remaining: nat)
    requires Once(s)
    ensures Once(s.(remaining := remaining)) && forall x :: Queued(s.(remaining := remaining), x) <==> Queued(s, x)
  {
    forall x ensures Queued(s.(remaining := remaining), x) <==> Queued(s, x) {
      var s' := s.(remaining := remaining);
      if Queued(s, x) {
        var k :| 0 <= k < |s.queues| && x in s.queues[k];
        QueuedAt(s', k, x);
      }
    }
  }

  /** A new priority moves the task to the tail of its new bucket and touches nobody else. */
  lemma SetPriorityMoves(s: Priority, t: Task, priority: int)
    requires Once(s)
    ensures var (s', rc) := SetPriority(s, t, priority);
            && Once(s') && (forall x :: Queued(s', x) <==> Queued(s, x))
            && (rc == OK <==> 0 <= priority < LEVELS && Queued(s, t))
            && (rc == OK ==> Level(s'.queues, t) == Some(priority))
            && (rc == OK && Level(s.queues, t) != Some(priority) ==> s'.queues[priority] == s.queues[priority] + [t])
            && (rc != OK ==> s' == s)
  {
    hide Without, LevelFrom, Level, Queued, Once;
    OnceSize(s);
    LevelQueued(s, t);
    var p := Level(s.queues, t);
    if p.Some? && 0 <= priority < LEVELS && p.value != priority {
      OnceAt(s, p.value, t);
      WithoutIs(s.queues[p.value], t);
      BucketChange(s, p.value, Without(s.queues[p.value], t));
      QueuedOrNot(s, p.value);
      var mid := s.(queues := s.queues[p.value := Without(s.queues[p.value], t)]);
      OnceAt(mid, priority, t);
      BucketChange(mid, priority, mid.queues[priority] + [t]);
      QueuedOrNot(mid, priority);
      LevelIs(SetPriority(s, t, priority).0, priority, t);
    }
  }

  lemma LevelIs(s: Priority, k: nat, t: Task)
    requires Once(s) && k < LEVELS && t in s.queues[k]
    ensures Level(s.queues, t) == Some(k)
  {
  }
}
