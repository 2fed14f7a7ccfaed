/** components/sched_rr and components/sched_priority in place: the run queues and the
    quantum each policy keeps, proved against Schedulers. */
module SchedPolicies {
  import opened Composition
  import opened Sequences
  import opened S = Schedulers

  /** The list walk of both `pick_next` operations. */
  method Scan(q: seq<Task>, blocked: set<Task>) returns (t: Option<Task>)
    ensures t == FirstReady(q, blocked)
  {
    for i := 0 to |q|
      invariant FirstReady(q, blocked) == FirstReady(q[i..], blocked)
    {
      if q[i] !in blocked { return Some(q[i]); }
      assert q[i..][1..] == q[i + 1..];
    }
    return None;
  }

  class RoundRobinSched {
    var runqueue: seq<Task>
    var quantum: nat
    var remaining: nat

    ghost function State(): S.RoundRobin
      reads this
    {
      S.RoundRobin(runqueue, quantum, remaining)
    }

    constructor (quantum: nat)
      ensures State() == S.RoundRobin([], quantum, quantum)
    {
      runqueue, this.quantum, remaining := [], quantum, quantum;
    }

    method PickNext(m: Machine) returns (t: Option<Task>)
      ensures (State(), DONE.(picked := t)) == RrStep(State(), m, Pick)
    {
      t := Scan(runqueue, m.blocked);
    }

    method Add(m: Machine, t: Task) returns (rc: Status, resched: bool)
      modifies this`runqueue
      ensures (State(), Shown(rc, None, resched)) == RrStep(old(State()), m, Enqueue(t))
    {
      var found := OnList(runqueue, t);
      if found { return EEXIST, false; }
      runqueue := runqueue + [t];
      return OK, m.current == Some(m.idle) && t != m.idle;
    }

    method Drop(m: Machine, t: Task) returns (rc: Status)
      modifies this`runqueue
      ensures (State(), DONE.(rc := rc)) == RrStep(old(State()), m, Dequeue(t))
    {
      var found := OnList(runqueue, t);
      if !found { return ENOENT; }
      runqueue := Unlink(runqueue, t);
      return OK;
    }

    method YieldHead(m: Machine)
      modifies this`runqueue, this`remaining
      ensures (State(), DONE) == RrStep(old(State()), m, Yield)
    {
      if runqueue == [] { return; }
      var head := runqueue[0];
      runqueue := runqueue[1..];
      runqueue := runqueue + [head];
      remaining := quantum;
    }

    method TimerTick(m: Machine) returns (resched: bool)
      modifies this`remaining
      ensures (State(), DONE.(resched := resched)) == RrStep(old(State()), m, Tick)
    {
      if m.current.None? { return false; }
      if remaining > 0 { remaining := remaining - 1; }
      resched := false;
      if remaining == 0 {
        resched := true;
        remaining := quantum;
      }
    }
  }

  class PrioritySched {
    const queues: array<seq<Task>>
    var quantum: nat
    var remaining: nat

    ghost predicate Valid()
      reads this, queues
    {
      queues.Length == LEVELS
    }

    ghost function State(): S.Priority
      reads this, queues
    {
      S.Priority(queues[..], quantum, remaining)
    }

    constructor (quantum: nat)
      ensures Valid() && State() == S.Priority(seq(LEVELS, _ => []), quantum, quantum) && fresh(queues)
    {
      queues := new seq<Task>[LEVELS](_ => []);
      this.quantum, remaining := quantum, quantum;
    }

    /** `task_priority`. */
    method TaskPriority(t: Task) returns (p: Option<nat>)
      requires Valid()
      ensures p == Level(queues[..], t)
    {
      for i := 0 to LEVELS
        invariant Level(queues[..], t) == LevelFrom(queues[..], t, i)
      {
        var found := OnList(queues[i], t);
        if found { return Some(i); }
      }
      return None;
    }

    method PickNext(m: Machine) returns (t: Option<Task>)
      requires Valid()
      ensures (State(), DONE.(picked := t)) == PrStep(State(), m, Pick)
    {
      hide FirstReady;
      var n: nat := LEVELS;
      while n > 0
        invariant n <= LEVELS && PickBelow(queues[..], m.blocked, LEVELS) == PickBelow(queues[..], m.blocked, n)
      {
        t := Scan(queues[n - 1], m.blocked);
        if t.Some? { return; }
        n := n - 1;
      }
      return None;
    }

    method Add(m: Machine, t: Task) returns (rc: Status, resched: bool)
      requires Valid()
      modifies queues
      ensures (State(), Shown(rc, None, resched)) == PrStep(old(State()), m, Enqueue(t))
    {
      hide Level;
      var p := TaskPriority(t);
      if p.Some? { return EEXIST, false; }
      queues[0] := queues[0] + [t];
      return OK, m.current == Some(m.idle) && t != m.idle;
    }

    method Drop(m: Machine, t: Task) returns (rc: Status)
      requires Valid()
      modifies queues
      ensures (State(), DONE.(rc := rc)) == PrStep(old(State()), m, Dequeue(t))
    {
      hide Level, Without;
      var p := TaskPriority(t);
      if p.None? { return ENOENT; }
      queues[p.value] := Unlink(queues[p.value], t);
      return OK;
    }

    /** The fallback of yield: the highest bucket that is not empty. */
    method TopBucket() returns (p: Option<nat>)
      requires Valid()
      ensures p == TopBelow(queues[..], LEVELS)
    {
      var n: nat := LEVELS;
      while n > 0
        invariant n <= LEVELS && TopBelow(queues[..], LEVELS) == TopBelow(queues[..], n)
      {
        if queues[n - 1] != [] { return Some(n - 1); }
        n := n - 1;
      }
      return None;
    }

    method YieldCurrent(m: Machine)
      requires Valid()
      modifies queues, this`remaining
      ensures (State(), DONE) == PrStep(old(State()), m, Yield)
    {
      hide Level, Without, TopBelow;
      if m.current.Some? {
        var p := TaskPriority(m.current.value);
        if p.Some? {
          var less := Unlink(queues[p.value], m.current.value);
          queues[p.value] := less + [m.current.value];
          remaining := quantum;
          return;
        }
      }
      var top := TopBucket();
      if top.Some? {
        var head := queues[top.value][0];
        queues[top.value] := queues[top.value][1..] + [head];
        remaining := quantum;
      }
    }

    method ChangePriority(t: Task, priority: int) returns (rc: Status)
      requires Valid()
      modifies queues
      ensures (State(), rc) == S.SetPriority(old(State()), t, priority)
    {
      hide Level, Without;
      if priority < 0 || priority >= LEVELS { return EINVAL; }
      var p := TaskPriority(t);
      if p.None? { return ENOENT; }
      if p.value == priority { return OK; }
      queues[p.value] := Unlink(queues[p.value], t);
      queues[priority] := queues[priority] + [t];
      return OK;
    }

    method TimerTick(m: Machine) returns (resched: bool)
      requires Valid()
      modifies this`remaining
      ensures (State(), DONE.(resched := resched)) == PrStep(old(State()), m, Tick)
    {
      if m.current.None? { return false; }
      if remaining > 0 { remaining := remaining - 1; }
      resched := false;
      if remaining == 0 {
        resched := true;
        remaining := quantum;
      }
    }
  }
}
