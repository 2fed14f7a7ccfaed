/** framework/ipc.c on the host build: routing a message under the pause policies, the
    per-slot inbox, the per-edge hold queues, draining and replaying, as single steps.
    Handlers are component code: while one runs it may send, drain, pause and reopen. */
module Router {
  import opened Composition
  import opened Sequences

  /** A slot reference carried by a message. */
  datatype Cap = SlotRef(target: Option<SlotId>) | OtherCap

  datatype Msg = Msg(id: nat, src: Option<SlotId>, dst: Option<SlotId>, caps: seq<Cap>)

  /** The messages held for one (source, destination) pair.  `id` tells one allocation of an
      entry from another. */
  datatype Hold = Hold(id: nat, src: SlotId, dst: SlotId, queue: seq<Msg>)

  /** `abort(t, m)`: the hook run at time `t` vetoes `m`.  Hooks look on; they do not send. */
  datatype Env = Env(abort: (nat, Msg) -> bool)

  /** What is on the call stack: a component's handler, free to call the router again, or a
      flush of `dst`.  A flush has the messages its detached entry still has to replay, and
      the pointer it keeps into the list: to the link of entry `at`, or to the head. */
  datatype Frame = Handling | Flushing(src: SlotId, dst: SlotId, queue: seq<Msg>, at: Option<nat>)

  /** `made` counts the hold entries ever allocated.  `accepted` and `delivered` are the
      ledgers of messages taken in and handled, `jumped` of those that were late. */
  datatype State = State(
    conns: seq<Connection>,
    fallback: map<SlotId, SlotId>,
    pause: map<SlotId, SlotPause>,
    handlers: set<SlotId>,
    inbox: map<SlotId, seq<Msg>>,
    holds: seq<Hold>,
    made: nat,
    frames: seq<Frame>,
    now: nat,
    accepted: seq<Msg>,
    delivered: seq<Msg>,
    jumped: seq<Msg>)
  {
    function Pause(s: SlotId): SlotPause {
      if s in pause then pause[s] else Running
    }

    function Inbox(s: SlotId): seq<Msg> {
      if s in inbox then inbox[s] else []
    }

    function Top(): Frame
      requires frames != []
    {
      frames[|frames| - 1]
    }

    /** Component code is running, or nothing is. */
    predicate UserRuns() {
      frames == [] || Top().Handling?
    }
  }

  // ---------------------------------------------------------------- routing

  /** The first edge from `src` to `dst`. */
  function FindEdge(conns: seq<Connection>, src: SlotId, dst: SlotId): Option<Connection> {
    if conns == [] then None
    else if conns[0].from == Some(src) && conns[0].to == dst then Some(conns[0])
    else FindEdge(conns[1..], src, dst)
  }

  /** Every slot reference names a slot the sender has an edge to. */
  predicate CapsAllowed(conns: seq<Connection>, src: SlotId, caps: seq<Cap>) {
    if caps == [] then true
    else
      var last := caps[|caps| - 1];
      && CapsAllowed(conns, src, caps[..|caps| - 1])
      && (last.SlotRef? ==> last.target.Some? && FindEdge(conns, src, last.target.value).Some?)
  }

  /** Position of the hold entry of the pair; `|holds|` if it has none. */
  function FindHold(holds: seq<Hold>, src: SlotId, dst: SlotId): (i: nat)
    ensures i <= |holds|
  {
    if holds == [] || (holds[0].src == src && holds[0].dst == dst) then 0
    else 1 + FindHold(holds[1..], src, dst)
  }

  /** Append to the hold queue of the pair, making a new entry at the front if needed. */
  function HoldMsg(holds: seq<Hold>, id: nat, src: SlotId, dst: SlotId, m: Msg): seq<Hold> {
    var i := FindHold(holds, src, dst);
    if i < |holds| then holds[i := holds[i].(queue := holds[i].queue + [m])]
    else [Hold(id, src, dst, [m])] + holds
  }

  function HoldOf(holds: seq<Hold>, src: SlotId, dst: SlotId): seq<Msg> {
    var i := FindHold(holds, src, dst);
    if i < |holds| then holds[i].queue else []
  }

  /** What flushes in progress still have to replay for the pair, the innermost first. */
  function Left(frames: seq<Frame>, src: SlotId, dst: SlotId): seq<Msg> {
    if frames == [] then []
    else
      var below, f := Left(frames[..|frames| - 1], src, dst), frames[|frames| - 1];
      if f.Flushing? && f.src == src && f.dst == dst then f.queue + below else below
  }

  /** A new message comes late if older ones of its edge are detached and not yet replayed,
      or are held while the slot is open. */
  predicate Late(st: State, m: Msg) {
    && m.src.Some? && m.dst.Some?
    && (|| Left(st.frames, m.src.value, m.dst.value) != []
        || (st.Pause(m.dst.value) == Running && HoldOf(st.holds, m.src.value, m.dst.value) != []))
  }

  const REDIRECT_DEPTH_MAX: nat := 4

  /** Where a message ends up: turned away, held, or taken over an edge of some mode. */
  datatype Verdict = Refuse(rc: Status) | HoldIt | TakeIt(mode: Mode)

  /** The message as rewritten by redirection, its fate, and the hooks run on the way. */
  datatype Routed = Routed(m: Msg, verdict: Verdict, hooks: nat)

  /** One hop of `do_send`: a verdict, after `hooks` hook calls, or on to a fallback. */
  datatype Hop = Stop(verdict: Verdict, hooks: nat) | Onward(to: SlotId)

  function Decide(st: State, env: Env, m: Msg, depth: nat, at: nat): Hop {
    if m.src.None? || m.dst.None? then Stop(Refuse(EINVAL), 0)
    else if env.abort(at, m) then Stop(Refuse(EABORT), 1)
    else
      var edge := FindEdge(st.conns, m.src.value, m.dst.value);
      if edge.None? then Stop(Refuse(ENOENT), 1)
      else if !CapsAllowed(st.conns, m.src.value, m.caps) then Stop(Refuse(EINVAL), 1)
      else if st.Pause(m.dst.value) == Running then Stop(TakeIt(edge.value.mode), 1)
      else
        match edge.value.policy
        case Queue => Stop(HoldIt, 1)
        case Reject => Stop(Refuse(EBUSY), 1)
        case Redirect =>
          if depth >= REDIRECT_DEPTH_MAX then Stop(Refuse(ELOOP), 1)
          else if m.dst.value !in st.fallback then Stop(Refuse(ENOENT), 1)
          else Onward(st.fallback[m.dst.value])
  }

  /** The decisions of `do_send`, hop by hop; `hooks` counts the hook calls so far. */
  function Route(st: State, env: Env, m: Msg, depth: nat, hooks: nat): Routed
    decreases REDIRECT_DEPTH_MAX - depth
  {
    match Decide(st, env, m, depth, st.now + hooks)
    case Stop(v, h) => Routed(m, v, hooks + h)
    case Onward(to) =>
      if depth >= REDIRECT_DEPTH_MAX then Routed(m, Refuse(ELOOP), hooks + 1)
      else Route(st, env, m.(dst := Some(to)), depth + 1, hooks + 1)
  }

  /** Enter a new message in the ledgers; a replayed one was accepted when it was held. */
  function Enter(st: State, m: Msg, anew: bool): State {
    if !anew then st
    else st.(accepted := st.accepted + [m], jumped := if Late(st, m) then st.jumped + [m] else st.jumped)
  }

  /** The handler of an open slot starts on `m`. */
  function Called(st: State, m: Msg): State {
    st.(delivered := st.delivered + [m], frames := st.frames + [Handling])
  }

  function Queued(st: State, d: SlotId, m: Msg): State {
    st.(inbox := st.inbox[d := st.Inbox(d) + [m]])
  }

  /** An open destination takes the message: at once over a sync edge, into its inbox
      over an async one. */
  function Take(st: State, mode: Mode, m: Msg, anew: bool): (State, Status) {
    if m.dst.None? then (st, EINVAL)
    else if mode == Async then (Queued(Enter(st, m, anew), m.dst.value, m), OK)
    else if m.dst.value !in st.handlers then (st, ENOENT)
    else (Called(Enter(st, m, anew), m), OK)
  }

  /** The message goes to the hold queue of its pair. */
  function Kept(st: State, m: Msg): State {
    if m.src.None? || m.dst.None? then st
    else
      var s, d := m.src.value, m.dst.value;
      st.(holds := HoldMsg(st.holds, st.made, s, d, m),
          made := if FindHold(st.holds, s, d) < |st.holds| then st.made else st.made + 1)
  }

  /** Carrying out a verdict.  The status of a handler that was started is its own. */
  function Carry(st: State, r: Routed, anew: bool): (State, Status) {
    var st1 := st.(now := st.now + r.hooks);
    match r.verdict
    case Refuse(rc) => (st1, rc)
    case HoldIt => (Kept(Enter(st1, r.m, anew), r.m), OK)
    case TakeIt(mode) => Take(st1, mode, r.m, anew)
  }

  /** `nx_ipc_send`, up to the point where a handler starts. */
  function Send(st: State, env: Env, m: Msg, anew: bool): (State, Status) {
    Carry(st, Route(st, env, m, 0, 0), anew)
  }

  // ---------------------------------------------------------------- the pointer of a flush

  /** Position of the entry; `|holds|` if it is not on the list. */
  function Place(holds: seq<Hold>, id: nat): (i: nat)
    ensures i <= |holds|
  {
    if holds == [] || holds[0].id == id then 0 else 1 + Place(holds[1..], id)
  }

  /** The link pointed to is the list's: the entry it belongs to has not been taken off. */
  predicate Stands(holds: seq<Hold>, at: Option<nat>) {
    at.Some? ==> Place(holds, at.value) < |holds|
  }

  /** Position of the entry the pointer leads to; the length of the list at its end. */
  function Reach(holds: seq<Hold>, at: Option<nat>): nat {
    if at.None? then 0 else Place(holds, at.value) + 1
  }

  // ---------------------------------------------------------------- steps

  /** What happens one at a time: component code sends, takes a message off an inbox, pauses
      or reopens a slot; a handler returns; a flush goes past an entry, detaches one, replays
      its next message, or is over. */
  datatype Step =
    | Put(m: Msg)
    | Pop(slot: SlotId)
    | Halt(slot: SlotId, to: SlotPause)
    | Open(slot: SlotId)
    | Return
    | Pass
    | Detach
    | Again
    | Close

  predicate FlushOf(f: Frame, s: SlotId) {
    f.Flushing? && f.dst == s
  }

  predicate BeingFlushed(st: State, s: SlotId) {
    exists f :: f in st.frames && FlushOf(f, s)
  }

  /** The flush on top is done with its entry and reads the link it points to.  Without the
      entry that link belongs to there is nothing to read. */
  predicate Looks(st: State) {
    st.frames != [] && st.Top().Flushing? && st.Top().queue == [] && Stands(st.holds, st.Top().at)
  }

  predicate Enabled(st: State, step: Step) {
    match step
    case Put(_) => st.UserRuns()
    case Pop(s) => st.UserRuns() && st.Inbox(s) != []
    case Halt(s, to) => st.UserRuns() && to != Running
    case Open(_) => st.UserRuns()
    case Return => st.frames != [] && st.Top().Handling?
    case Pass => Looks(st) && var r := Reach(st.holds, st.Top().at); r < |st.holds| && st.holds[r].dst != st.Top().dst
    case Detach => Looks(st) && var r := Reach(st.holds, st.Top().at); r < |st.holds| && st.holds[r].dst == st.Top().dst
    case Again => st.frames != [] && st.Top().Flushing? && st.Top().queue != []
    case Close => Looks(st) && Reach(st.holds, st.Top().at) == |st.holds|
  }

  function Retop(st: State, f: Frame): State
    requires st.frames != []
  {
    st.(frames := st.frames[|st.frames| - 1 := f])
  }

  function Unframed(st: State): State
    requires st.frames != []
  {
    st.(frames := st.frames[..|st.frames| - 1])
  }

  /** `st` without the head of the inbox of `s`. */
  function Popped(st: State, s: SlotId): State
    requires st.Inbox(s) != []
  {
    st.(inbox := st.inbox[s := st.Inbox(s)[1..]], now := st.now + 1)
  }

  /** One message of `nx_ipc_dispatch`: vetoed, without a handler, or handed over. */
  function PopOne(st: State, env: Env, s: SlotId): State
    requires st.Inbox(s) != []
  {
    var m := st.Inbox(s)[0];
    if env.abort(st.now, m) || s !in st.handlers then Popped(st, s) else Called(Popped(st, s), m)
  }

  /** The slot opens and its flush starts at the head of the list. */
  function Opened(st: State, s: SlotId): State {
    st.(pause := st.pause[s := Running], frames := st.frames + [Flushing(s, s, [], None)])
  }

  /** The flush goes on to the link of the entry it looks at. */
  function PassOne(st: State): State
    requires st.frames != [] && st.Top().Flushing? && Reach(st.holds, st.Top().at) < |st.holds|
  {
    Retop(st, st.Top().(at := Some(st.holds[Reach(st.holds, st.Top().at)].id)))
  }

  /** The entry at `r` off the list. */
  function Less(holds: seq<Hold>, r: nat): seq<Hold>
    requires r < |holds|
  {
    holds[..r] + holds[r + 1..]
  }

  /** The flush takes the entry it looks at off the list, to replay it. */
  function DetachOne(st: State): State
    requires st.frames != [] && st.Top().Flushing? && Reach(st.holds, st.Top().at) < |st.holds|
  {
    var r := Reach(st.holds, st.Top().at);
    Retop(st, st.Top().(src := st.holds[r].src, queue := st.holds[r].queue)).(holds := Less(st.holds, r))
  }

  /** The top flush without the next message to replay. */
  function Shifted(st: State): State
    requires st.frames != [] && st.Top().Flushing? && st.Top().queue != []
  {
    Retop(st, st.Top().(queue := st.Top().queue[1..]))
  }

  function AgainOne(st: State, env: Env): State
    requires st.frames != [] && st.Top().Flushing? && st.Top().queue != []
  {
    Send(Shifted(st), env, st.Top().queue[0], false).0
  }

  function Next(st: State, env: Env, step: Step): State
    requires Enabled(st, step)
  {
    match step
    case Put(m) => Send(st, env, m, true).0
    case Pop(s) => PopOne(st, env, s)
    case Halt(s, to) => st.(pause := st.pause[s := to])
    case Open(s) => Opened(st, s)
    case Return => Unframed(st)
    case Pass => PassOne(st)
    case Detach => DetachOne(st)
    case Again => AgainOne(st, env)
    case Close => Unframed(st)
  }

  function Run(st: State, env: Env, steps: seq<Step>): Option<State> {
    if steps == [] then Some(st)
    else
      var before, step := Run(st, env, steps[..|steps| - 1]), steps[|steps| - 1];
      if before.Some? && Enabled(before.value, step) then Some(Next(before.value, env, step)) else None
  }
}
