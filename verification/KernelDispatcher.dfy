/** `nx_dispatcher_enqueue` and `nx_dispatcher_pump_once` as methods over the global queue,
    the counters and the reply-pool bitmap, each run as one call to its end. */
module KernelDispatcher {
  import opened Composition
  import opened Sums
  import opened Dispatcher
  import opened ReplyPool

  /** What the hook chain and the handler of a message do. */
  datatype Outcome = Outcome(abort: bool, bound: bool, rc: Status)

  function StatusOf(o: Outcome): Status {
    if o.abort then EABORT else if !o.bound then ENOENT else o.rc
  }

  /** What one pump came to: nothing queued, a message handled, or the pool exhausted, at
      which point the kernel stops. */
  datatype Pump = Empty | Pumped | Exhausted

  /** The queue after its head was dealt with: the rest, and behind it, if the head asked for
      one, a reply that goes back to where the head came from under the same number.  It says
      that the message was vetoed, that nobody was there to handle it, or what the handler said. */
  ghost predicate AnsweredBy(was: seq<Msg>, o: Outcome, now: seq<Msg>)
    requires was != []
  {
    var m := was[0];
    if !(m.wantsReply && m.src.Some?) then now == was[1..]
    else
      && |now| == |was| && now[..|now| - 1] == was[1..]
      && var reply := now[|now| - 1];
         && reply.id == m.id && reply.src == Some(m.dst) && Some(reply.dst) == m.src && reply.isReply && !reply.wantsReply
         && (o.abort ==> reply.rc == EABORT) && (!o.abort && !o.bound ==> reply.rc == ENOENT)
         && (!o.abort && o.bound ==> reply.rc == o.rc)
  }

  class Loop {
    const pool: Bitmap
    var queue: seq<Msg>
    var inFlight: map<SlotId, int>
    var pending: int
    ghost var pushed: seq<Msg>
    ghost var finished: seq<Dealing>

    ghost function View(): State
      reads this, pool, pool.words
    {
      State(queue, inFlight, pending, pool.Used(), pool.size, [], Idle, pushed, finished)
    }

    ghost predicate Valid()
      reads this, pool, pool.words
    {
      pool.Valid() && Inv(View())
    }

    constructor (size: nat)
      ensures Valid() && View() == Start(size) && fresh(pool) && fresh(pool.words)
    {
      pool := new Bitmap(size);
      queue, inFlight, pending := [], map[], 0;
      pushed, finished := [], [];
      new;
      StartInv(size);
    }

    /** Count, announce, push. */
    method Post(m: Msg)
      modifies this`queue, this`inFlight, this`pending, this`pushed
      ensures queue == old(queue) + [m] && pushed == old(pushed) + [m] && pending == old(pending) + 1
      ensures inFlight == old(View()).Bump(m.dst, 1)
    {
      inFlight := inFlight[m.dst := (if m.dst in inFlight then inFlight[m.dst] else 0) + 1];
      pending := pending + 1;
      queue := queue + [m];
      pushed := pushed + [m];
    }

    /** A caller's message; the dispatcher's own replies are posted by the pump. */
    method Enqueue(m: Option<Msg>) returns (rc: Status)
      requires Valid() && (m.Some? ==> m.value.pool.None?)
      modifies this`queue, this`inFlight, this`pending, this`pushed
      ensures Valid()
      ensures rc == if m.Some? then OK else EINVAL
      ensures View() == if m.Some? then Enqueued(old(View()), m.value) else old(View())
    {
      if m.None? { return EINVAL; }
      EnqueueInv(View(), m.value);
      Post(m.value);
      rc := OK;
    }

    /** The reply leg: an entry from the pool, built and posted. */
    method Reply(m: Msg, rc: Status) returns (idx: Option<nat>)
      requires pool.Valid() && m.src.Some?
      modifies this`queue, this`inFlight, this`pending, this`pushed, pool.words
      ensures pool.Valid()
      ensures idx.None? ==> View() == old(View()) && forall i: nat | i < pool.size :: i in pool.Used()
      ensures idx.Some? ==> idx.value < pool.size && idx.value !in old(pool.Used())
      ensures idx.Some? ==>
                View() == Enqueued(old(View()).(used := old(pool.Used()) + {idx.value}), ReplyTo(m, rc, idx.value))
    {
      idx := pool.Alloc();
      if idx.Some? {
        Post(ReplyTo(m, rc, idx.value));
      }
    }

    /** Take the head of the queue through its hook and handler, reply if asked, free a
        delivered reply's entry. */
    method PumpOnce(outcome: Msg -> Outcome) returns (p: Pump)
      requires Valid()
      modifies this`queue, this`inFlight, this`pending, this`pushed, this`finished, pool.words
      ensures p.Empty? <==> old(queue) == []
      ensures p.Empty? ==> View() == old(View())
      ensures p.Exhausted? ==> Asks(old(queue)[0]) && forall i: nat | i < pool.size :: i in old(pool.Used())
      ensures p.Pumped? ==>
                Valid() && exists idx: nat ::
                  (Asks(old(queue)[0]) ==> idx < pool.size && idx !in old(pool.Used())) &&
                  View() == Dispatcher.Pumped(old(View()), StatusOf(outcome(old(queue)[0])), idx)
      ensures p.Pumped? ==> AnsweredBy(old(queue), outcome(old(queue)[0]), queue)
    {
      if queue == [] { return Empty; }
      hide Inv, Enqueued, Dispatcher.Pumped;
      ghost var st := View();
      var rc := StatusOf(outcome(queue[0]));
      var m := TakeHead(rc);
      ghost var idx: nat := 0;
      if m.wantsReply && m.src.Some? {
        var got := Reply(m, rc);
        if got.None? { return Exhausted; }
        idx := got.value;
      }
      ghost var st2 := View();
      if m.isReply && m.pool.Some? {
        pool.Free(m.pool.value);
      }
      PumpInv(st, rc, idx);
      PumpView(st, rc, idx, st2, View());
      PumpReplies(st, outcome(st.queue[0]), idx);
      p := Pumped;
    }

    /** Off the queue, through hook and handler with status `rc`, and uncounted. */
    method TakeHead(rc: Status) returns (m: Msg)
      requires queue != []
      modifies this`queue, this`inFlight, this`pending, this`finished
      ensures m == old(queue)[0] && View() == Headless(old(View()), rc)
    {
      m := queue[0];
      queue := queue[1..];
      pending := pending - 1;
      inFlight := inFlight[m.dst := (if m.dst in inFlight then inFlight[m.dst] else 0) - 1];
      finished := finished + [Dealing(m, rc)];
    }
  }

  /** A state whose first message has been dealt with. */
  function Headless(st: State, rc: Status): State
    requires st.queue != []
  {
    var m := st.queue[0];
    st.(queue := st.queue[1..], inFlight := st.Bump(m.dst, -1), pending := st.pending - 1,
        finished := st.finished + [Dealing(m, rc)])
  }

  lemma PumpReplies(st: State, o: Outcome, idx: nat)
    requires st.queue != []
    ensures AnsweredBy(st.queue, o, Dispatcher.Pumped(st, StatusOf(o), idx).queue)
  {
  }

  /** The pieces of a pump put together. */
  lemma PumpView(st: State, rc: Status, idx: nat, st2: State, st3: State)
    requires st.queue != []
    requires var m := st.queue[0];
             var st1 := Headless(st, rc);
             && st2 == (if Asks(m) then Enqueued(st1.(used := st1.used + {idx}), ReplyTo(m, rc, idx)) else st1)
             && st3 == (if m.isReply && m.pool.Some? then st2.(used := st2.used - {m.pool.value}) else st2)
    ensures st3 == Dispatcher.Pumped(st, rc, idx)
  {
  }
}
