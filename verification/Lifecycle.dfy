/** The lifecycle verbs of framework/component.c over a composition: what pause and
    resume do to component stages, slot pause states and hold queues.

    Callbacks (hooks, `ops`, message handlers run by a drain or a replay) are the
    environment.  The callback made at time `t` answers `env(t)`: a status, whether it
    overran its deadline, and the sends over QUEUE edges made while it ran.  That a callback
    leaves the registry alone (it binds no slot, changes no edge and calls no verb on a
    component) is a side condition of everything proved here. */
module Lifecycle {
  import opened Composition
  import opened Sequences

  datatype Send = Send(src: SlotId, dst: SlotId, id: nat)

  datatype Answer = Answer(rc: Status, late: bool, sends: seq<Send>)

  type Env = nat -> Answer

  /** What an observer of the protocol sees: an inbox drained, a hold queue replayed.
      `quiet` are the slots already DONE, `open` the slots not paused, at that moment. */
  datatype Step =
    | Drain(slot: SlotId, quiet: set<SlotId>)
    | Replay(slot: SlotId, held: seq<Send>, open: set<SlotId>)

  /** `roster` is the registry's slot list; the three slot maps are the slots' fields.
      `held[s]` is what waits for `s`, over all its sources. */
  datatype World = World(
    roster: seq<SlotId>,
    active: map<SlotId, Option<CompId>>,
    pause: map<SlotId, SlotPause>,
    held: map<SlotId, seq<Send>>,
    stage: map<CompId, Stage>,
    conns: seq<Connection>,
    frozen: set<SlotId>,
    now: nat,
    trace: seq<Step>)
  {
    ghost predicate Valid() {
      && Distinct(roster)
      && active.Keys == pause.Keys == held.Keys == Elements(roster)
      && forall s | s in active && active[s].Some? :: active[s].value in stage
    }

    function Active(s: SlotId): Option<CompId> {
      if s in active then active[s] else None
    }

    function Pause(s: SlotId): SlotPause {
      if s in pause then pause[s] else Running
    }

    function Held(s: SlotId): seq<Send> {
      if s in held then held[s] else []
    }

    predicate Is(c: CompId, g: Stage) {
      c in stage && stage[c] == g
    }

    /** `s` is bound to a component in stage `g`. */
    predicate Holds(s: SlotId, g: Stage) {
      Active(s).Some? && Is(Active(s).value, g)
    }

    function Bound(c: CompId): (bs: seq<SlotId>)
      ensures forall s :: s in bs <==> s in roster && Active(s) == Some(c)
    {
      BoundIn(roster, c)
    }

    function BoundIn(order: seq<SlotId>, c: CompId): (bs: seq<SlotId>)
      ensures forall s :: s in bs <==> s in order && Active(s) == Some(c)
    {
      if order == [] then []
      else
        var front, last := BoundIn(order[..|order| - 1], c), order[|order| - 1];
        assert order == order[..|order| - 1] + [last];
        if Active(last) == Some(c) then front + [last] else front
    }

    function WithPause(s: SlotId, p: SlotPause): World {
      if s in pause then this.(pause := pause[s := p]) else this
    }

    function WithStage(c: CompId, g: Stage): World {
      if c in stage then this.(stage := stage[c := g]) else this
    }

    function SlotsAt(p: SlotPause): set<SlotId> {
      set s | s in pause && pause[s] == p
    }
  }

  function Legal(from: Stage, to: Stage): bool {
    match from
    case Uninit => to == Init || to == Ready
    case Init => to == Ready
    case Ready => to == Stage.Active || to == Destroyed
    case Active => to == Paused || to == Ready
    case Paused => to == Stage.Active || to == Ready
    case Destroyed => false
  }

  /** Everything but the hold queues, the clock and the trace. */
  ghost predicate SameShape(w: World, w': World) {
    && w'.roster == w.roster && w'.active == w.active && w'.conns == w.conns && w'.frozen == w.frozen
    && w'.held.Keys == w.held.Keys
  }

  lemma {:induction false} BoundInSame(w: World, w': World, order: seq<SlotId>, c: CompId)
    requires w'.active == w.active
    ensures w'.BoundIn(order, c) == w.BoundIn(order, c)
  {
    if order != [] {
      BoundInSame(w, w', order[..|order| - 1], c);
    }
  }

  // ---------------------------------------------------------------- callbacks

  /** A send to a paused slot is held; any other is delivered and not tracked here. */
  function Land(w: World, sends: seq<Send>): World {
    if sends == [] then w
    else
      var front, m := Land(w, sends[..|sends| - 1]), sends[|sends| - 1];
      if m.dst in front.held && front.Pause(m.dst) != Running
      then front.(held := front.held[m.dst := front.held[m.dst] + [m]])
      else front
  }

  function Ask(w: World, env: Env): World {
    Land(w, env(w.now).sends).(now := w.now + 1)
  }

  lemma {:induction false} LandHolds(w: World, sends: seq<Send>)
    ensures Land(w, sends) == w.(held := Land(w, sends).held)
    ensures Land(w, sends).held.Keys == w.held.Keys
    ensures forall s | w.Pause(s) == Running :: Land(w, sends).Held(s) == w.Held(s)
  {
    if sends != [] {
      LandHolds(w, sends[..|sends| - 1]);
    }
  }

  /** A callback changes nothing but the hold queues of paused slots. */
  lemma AskHolds(w: World, env: Env)
    ensures Ask(w, env) == w.(held := Ask(w, env).held, now := w.now + 1)
    ensures Ask(w, env).held.Keys == w.held.Keys
    ensures forall s | w.Pause(s) == Running :: Ask(w, env).Held(s) == w.Held(s)
  {
    LandHolds(w, env(w.now).sends);
  }

  // ---------------------------------------------------------------- slot walks

  function CutSlots(w: World, bs: seq<SlotId>): World {
    if bs == [] then w else CutSlots(w, bs[..|bs| - 1]).WithPause(bs[|bs| - 1], Cutting)
  }

  function DrainSlot(w: World, env: Env, s: SlotId): World {
    var w1 := w.WithPause(s, Draining);
    Ask(w1.(trace := w1.trace + [Drain(s, w1.SlotsAt(Done))]), env)
  }

  function DrainSlots(w: World, env: Env, bs: seq<SlotId>): World {
    if bs == [] then w else DrainSlot(DrainSlots(w, env, bs[..|bs| - 1]), env, bs[|bs| - 1])
  }

  function SettleSlots(w: World, bs: seq<SlotId>): World {
    if bs == [] then w else SettleSlots(w, bs[..|bs| - 1]).WithPause(bs[|bs| - 1], Done)
  }

  /** Clear the pause state, then replay everything held for `s`. */
  function Reopen(w: World, env: Env, s: SlotId): World {
    var w1 := w.WithPause(s, Running);
    var w2 := w1.(trace := w1.trace + [Replay(s, w1.Held(s), w1.SlotsAt(Running))]);
    Ask(if s in w2.held then w2.(held := w2.held[s := []]) else w2, env)
  }

  function ReopenSlots(w: World, env: Env, bs: seq<SlotId>): World {
    if bs == [] then w else Reopen(ReopenSlots(w, env, bs[..|bs| - 1]), env, bs[|bs| - 1])
  }

  /** `pause` with every slot of `bs` at `p`. */
  ghost function Marked(pause: map<SlotId, SlotPause>, bs: seq<SlotId>, p: SlotPause): map<SlotId, SlotPause> {
    map s | s in pause :: if s in bs then p else pause[s]
  }

  lemma MarkedStep(pause: map<SlotId, SlotPause>, bs: seq<SlotId>, p: SlotPause)
    requires bs != []
    ensures var last := bs[|bs| - 1];
            Marked(pause, bs, p) ==
            if last in pause then Marked(pause, bs[..|bs| - 1], p)[last := p] else Marked(pause, bs[..|bs| - 1], p)
  {
    assert bs == bs[..|bs| - 1] + [bs[|bs| - 1]];
  }

  lemma {:induction false} CutSlotsEffect(w: World, bs: seq<SlotId>)
    ensures CutSlots(w, bs) == w.(pause := Marked(w.pause, bs, Cutting))
  {
    if bs == [] {
      assert Marked(w.pause, bs, Cutting) == w.pause;
    } else {
      CutSlotsEffect(w, bs[..|bs| - 1]);
      MarkedStep(w.pause, bs, Cutting);
    }
  }

  lemma {:induction false} SettleSlotsEffect(w: World, bs: seq<SlotId>)
    ensures SettleSlots(w, bs) == w.(pause := Marked(w.pause, bs, Done))
  {
    if bs == [] {
      assert Marked(w.pause, bs, Done) == w.pause;
    } else {
      SettleSlotsEffect(w, bs[..|bs| - 1]);
      MarkedStep(w.pause, bs, Done);
    }
  }

  /** The steps of `w'` after those of `w`. */
  function Since(w: World, w': World): seq<Step>
    requires w.trace <= w'.trace
  {
    w'.trace[|w.trace|..]
  }

  /** What one drained slot does to the world and adds to the trace. */
  lemma DrainSlotEffect(w: World, env: Env, s: SlotId)
    ensures var w' := DrainSlot(w, env, s);
            && SameShape(w, w') && w'.stage == w.stage && w'.pause == (if s in w.pause then w.pause[s := Draining] else w.pause)
            && (forall t | w.Pause(t) == Running && t != s :: w'.Held(t) == w.Held(t))
            && w'.trace == w.trace + [Drain(s, w'.SlotsAt(Done))]
  {
    var w1 := w.WithPause(s, Draining);
    AskHolds(w1.(trace := w1.trace + [Drain(s, w1.SlotsAt(Done))]), env);
  }

  lemma {:induction false} DrainSlotsShape(w: World, env: Env, bs: seq<SlotId>)
    ensures var w' := DrainSlots(w, env, bs);
            && SameShape(w, w') && w'.stage == w.stage && w'.pause == Marked(w.pause, bs, Draining)
            && (forall s | w.Pause(s) == Running && s !in bs :: w'.Held(s) == w.Held(s))
  {
    hide DrainSlot;
    if bs == [] {
      assert Marked(w.pause, bs, Draining) == w.pause;
    } else {
      var front, last := bs[..|bs| - 1], bs[|bs| - 1];
      assert bs == front + [last];
      DrainSlotsShape(w, env, front);
      MarkedStep(w.pause, bs, Draining);
      DrainSlotEffect(DrainSlots(w, env, front), env, last);
    }
  }

  /** The slot is drained while every slot that had settled and is not among `bs` still has. */
  ghost predicate DrainedAt(w: World, bs: seq<SlotId>, step: Step, s: SlotId) {
    step.Drain? && step.slot == s && forall t | w.Pause(t) == Done && t !in bs :: t in w.pause ==> t in step.quiet
  }

  lemma DrainedMore(w: World, front: seq<SlotId>, last: SlotId, step: Step, s: SlotId)
    requires DrainedAt(w, front, step, s)
    ensures DrainedAt(w, front + [last], step, s)
  {
    assert forall t | t !in front + [last] :: t !in front;
  }

  lemma QuietAfter(w: World, w': World, bs: seq<SlotId>, s: SlotId)
    requires w'.pause == Marked(w.pause, bs, Draining)
    ensures DrainedAt(w, bs, Drain(s, w'.SlotsAt(Done)), s)
  {
  }

  lemma {:induction false} DrainSlotsTrace(w: World, env: Env, bs: seq<SlotId>)
    ensures var w' := DrainSlots(w, env, bs);
            && w.trace <= w'.trace && |Since(w, w')| == |bs|
            && forall k | 0 <= k < |bs| :: DrainedAt(w, bs, Since(w, w')[k], bs[k])
  {
    hide DrainSlot, DrainedAt;
    if bs != [] {
      var front, last := bs[..|bs| - 1], bs[|bs| - 1];
      assert bs == front + [last];
      DrainSlotsTrace(w, env, front);
      var w1, w' := DrainSlots(w, env, front), DrainSlots(w, env, bs);
      DrainSlotEffect(w1, env, last);
      DrainSlotsShape(w, env, bs);
      QuietAfter(w, w', bs, last);
      forall k | 0 <= k < |bs| ensures DrainedAt(w, bs, Since(w, w')[k], bs[k]) {
        if k < |front| { DrainedMore(w, front, last, Since(w, w1)[k], bs[k]); }
      }
    }
  }

  lemma DrainSlotsEffect(w: World, env: Env, bs: seq<SlotId>)
    ensures var w' := DrainSlots(w, env, bs);
            && SameShape(w, w') && w'.stage == w.stage && w'.pause == Marked(w.pause, bs, Draining)
            && (forall s | w.Pause(s) == Running && s !in bs :: w'.Held(s) == w.Held(s))
            && w.trace <= w'.trace && |Since(w, w')| == |bs|
            && (forall k | 0 <= k < |bs| :: DrainedAt(w, bs, Since(w, w')[k], bs[k]))
  {
    hide DrainSlots, DrainedAt;
    DrainSlotsShape(w, env, bs);
    DrainSlotsTrace(w, env, bs);
  }

  lemma ReopenEffect(w: World, env: Env, s: SlotId)
    ensures var w' := Reopen(w, env, s);
            && SameShape(w, w') && w'.stage == w.stage && w'.now == w.now + 1
            && w'.pause == Marked(w.pause, [s], Running)
            && (forall t | w'.Pause(t) == Running && t != s :: w'.Held(t) == w.Held(t))
            && (w'.Pause(s) == Running ==> w'.Held(s) == [] || s !in w.held)
            && w'.trace == w.trace + [Replay(s, w.Held(s), w'.SlotsAt(Running))]
  {
    hide Ask;
    var w1 := w.WithPause(s, Running);
    var w2 := w1.(trace := w1.trace + [Replay(s, w1.Held(s), w1.SlotsAt(Running))]);
    AskHolds(if s in w2.held then w2.(held := w2.held[s := []]) else w2, env);
    MarkedStep(w.pause, [s], Running);
    assert Marked(w.pause, [], Running) == w.pause;
  }

  lemma {:induction false} ReopenSlotsEffect(w: World, env: Env, bs: seq<SlotId>)
    ensures var w' := ReopenSlots(w, env, bs);
            && SameShape(w, w') && w'.stage == w.stage && w'.now == w.now + |bs|
            && w'.pause == Marked(w.pause, bs, Running)
  {
    if bs == [] {
      assert Marked(w.pause, bs, Running) == w.pause;
    } else {
      var front, last := bs[..|bs| - 1], bs[|bs| - 1];
      ReopenSlotsEffect(w, env, front);
      MarkedStep(w.pause, bs, Running);
      var w1 := ReopenSlots(w, env, front);
      ReopenEffect(w1, env, last);
      MarkedStep(w1.pause, [last], Running);
      assert Marked(w1.pause, [], Running) == w1.pause;
    }
  }

  /** Reopened slots keep nothing back, nor do open slots that held nothing. */
  lemma {:induction false} ReopenSlotsEmpty(w: World, env: Env, bs: seq<SlotId>)
    ensures forall s | s in bs || (w.Pause(s) == Running && w.Held(s) == []) :: ReopenSlots(w, env, bs).Held(s) == []
  {
    if bs != [] {
      var front, last := bs[..|bs| - 1], bs[|bs| - 1];
      assert bs == front + [last];
      ReopenSlotsEmpty(w, env, front);
      ReopenSlotsEffect(w, env, front);
      ReopenEffect(ReopenSlots(w, env, front), env, last);
    }
  }

  /** Each slot of `bs` is replayed once, in order, with every open slot still open. */
  lemma {:induction false} ReopenSlotsTrace(w: World, env: Env, bs: seq<SlotId>)
    ensures var w' := ReopenSlots(w, env, bs);
            && w.trace <= w'.trace && |Since(w, w')| == |bs|
            && forall k | 0 <= k < |bs| ::
                  Since(w, w')[k].Replay? && Since(w, w')[k].slot == bs[k]
                  && w.SlotsAt(Running) <= Since(w, w')[k].open
  {
    if bs != [] {
      var front, last := bs[..|bs| - 1], bs[|bs| - 1];
      ReopenSlotsTrace(w, env, front);
      ReopenSlotsEffect(w, env, front);
      ReopenEffect(ReopenSlots(w, env, front), env, last);
    }
  }

  // ---------------------------------------------------------------- the verbs

  function PauseHookStatus(a: Answer): Status {
    if a.rc == OK && a.late then EDEADLINE else a.rc
  }

  function PauseVerb(w: World, env: Env, c: CompId): (World, Status) {
    if !w.Is(c, Stage.Active) then (w, ESTATE)
    else if env(w.now).rc != OK then (Ask(w, env), EABORT)
    else
      var bs := w.Bound(c);
      var w1 := DrainSlots(CutSlots(Ask(w, env), bs), env, bs);
      var w2 := Ask(w1, env);
      if PauseHookStatus(env(w1.now)) != OK then (ReopenSlots(w2, env, bs), PauseHookStatus(env(w1.now)))
      else
        var w3 := Ask(w2, env);
        if env(w2.now).rc != OK then (ReopenSlots(w3, env, bs), env(w2.now).rc)
        else (SettleSlots(w3, bs).WithStage(c, Paused), OK)
  }

  function ResumeVerb(w: World, env: Env, c: CompId): (World, Status) {
    if !w.Is(c, Paused) then (w, ESTATE)
    else if env(w.now).rc != OK then (Ask(w, env), EABORT)
    else
      var w1 := Ask(w, env);
      if env(w1.now).rc != OK then (Ask(w1, env), env(w1.now).rc)
      else (ReopenSlots(Ask(w1, env), env, w.Bound(c)).WithStage(c, Stage.Active), OK)
  }

  /** `enable` and `disable`: hook, then `ops`, then the stage. */
  function ShiftVerb(w: World, env: Env, c: CompId, to: Stage): (World, Status) {
    if env(w.now).rc != OK then (Ask(w, env), EABORT)
    else
      var w1 := Ask(w, env);
      if env(w1.now).rc != OK then (Ask(w1, env), env(w1.now).rc)
      else (Ask(w1, env).WithStage(c, to), OK)
  }

  function EnableVerb(w: World, env: Env, c: CompId): (World, Status) {
    if !w.Is(c, Ready) then (w, ESTATE) else ShiftVerb(w, env, c, Stage.Active)
  }

  function DisableVerb(w: World, env: Env, c: CompId): (World, Status) {
    if !w.Is(c, Stage.Active) && !w.Is(c, Paused) then (w, ESTATE) else ShiftVerb(w, env, c, Ready)
  }

  function DestroyVerb(w: World, env: Env, c: CompId): (World, Status) {
    if !w.Is(c, Ready) then (w, ESTATE)
    else if w.Bound(c) != [] then (w, EBUSY)
    else (Ask(w, env).WithStage(c, Destroyed), OK)
  }

  // ---------------------------------------------------------------- what the verbs do

  lemma MarkedTwice(pause: map<SlotId, SlotPause>, bs: seq<SlotId>, p: SlotPause, q: SlotPause)
    ensures Marked(Marked(pause, bs, p), bs, q) == Marked(pause, bs, q)
  {
  }

  /** Cutting and draining: the slots of `c` are DRAINING, nothing else moved. */
  lemma DrainedEffect(w: World, env: Env, bs: seq<SlotId>)
    ensures var w' := DrainSlots(CutSlots(Ask(w, env), bs), env, bs);
            && SameShape(w, w') && w'.stage == w.stage && w'.pause == Marked(w.pause, bs, Draining)
            && w.trace <= w'.trace
            && forall e | e in Since(w, w') ::
                 e.Drain? && e.slot in bs && w.SlotsAt(Done) - Elements(bs) <= e.quiet
  {
    AskHolds(w, env);
    CutSlotsEffect(Ask(w, env), bs);
    DrainSlotsEffect(CutSlots(Ask(w, env), bs), env, bs);
    MarkedTwice(w.pause, bs, Cutting, Draining);
  }

  /** A pause succeeds as a whole or leaves stages and pause states as `Marked(Running)`. */
  lemma PauseEffect(w: World, env: Env, c: CompId)
    requires w.Is(c, Stage.Active)
    ensures var (w', rc) := PauseVerb(w, env, c);
            && SameShape(w, w')
            && (rc == OK ==> w'.stage == w.stage[c := Paused] && w'.pause == Marked(w.pause, w.Bound(c), Done))
            && (rc != OK ==> w'.stage == w.stage
                             && (w'.pause == w.pause || w'.pause == Marked(w.pause, w.Bound(c), Running)))
  {
    var bs := w.Bound(c);
    AskHolds(w, env);
    if env(w.now).rc == OK {
      DrainedEffect(w, env, bs);
      var w1 := DrainSlots(CutSlots(Ask(w, env), bs), env, bs);
      var w2 := Ask(w1, env);
      AskHolds(w1, env);
      if PauseHookStatus(env(w1.now)) != OK {
        ReopenSlotsEffect(w2, env, bs);
        MarkedTwice(w.pause, bs, Draining, Running);
      } else {
        var w3 := Ask(w2, env);
        AskHolds(w2, env);
        if env(w2.now).rc != OK {
          ReopenSlotsEffect(w3, env, bs);
          MarkedTwice(w.pause, bs, Draining, Running);
        } else {
          SettleSlotsEffect(w3, bs);
          MarkedTwice(w.pause, bs, Draining, Done);
        }
      }
    }
  }

  /** A step taken on behalf of the slots `bs`, with `quiet` paused and `open` running. */
  ghost predicate Fits(e: Step, bs: seq<SlotId>, quiet: set<SlotId>, open: set<SlotId>) {
    && e.slot in bs
    && (e.Drain? ==> quiet <= e.quiet)
    && (e.Replay? ==> open <= e.open)
  }

  lemma PauseTrace(w: World, env: Env, c: CompId)
    requires w.Is(c, Stage.Active)
    ensures var (w', rc) := PauseVerb(w, env, c);
            var bs := w.Bound(c);
            && w.trace <= w'.trace
            && forall e | e in Since(w, w') ::
                 Fits(e, bs, w.SlotsAt(Done) - Elements(bs), w.SlotsAt(Running) - Elements(bs))
  {
    var bs := w.Bound(c);
    AskHolds(w, env);
    if env(w.now).rc == OK {
      DrainedEffect(w, env, bs);
      var w1 := DrainSlots(CutSlots(Ask(w, env), bs), env, bs);
      var w2 := Ask(w1, env);
      AskHolds(w1, env);
      if PauseHookStatus(env(w1.now)) != OK {
        ReopenTraceFits(w, w2, env, bs);
      } else {
        var w3 := Ask(w2, env);
        AskHolds(w2, env);
        if env(w2.now).rc != OK {
          ReopenTraceFits(w, w3, env, bs);
        } else {
          SettleSlotsEffect(w3, bs);
        }
      }
    }
  }

  lemma ReopenTraceFits(w: World, w1: World, env: Env, bs: seq<SlotId>)
    requires w.trace <= w1.trace && w1.pause == Marked(w.pause, bs, Draining)
    requires forall e | e in Since(w, w1) ::
               Fits(e, bs, w.SlotsAt(Done) - Elements(bs), w.SlotsAt(Running) - Elements(bs))
    ensures var w' := ReopenSlots(w1, env, bs);
            && w.trace <= w'.trace
            && forall e | e in Since(w, w') ::
                 Fits(e, bs, w.SlotsAt(Done) - Elements(bs), w.SlotsAt(Running) - Elements(bs))
  {
    hide ReopenSlots;
    ReopenSlotsTrace(w1, env, bs);
    var w' := ReopenSlots(w1, env, bs);
    assert Since(w, w') == Since(w, w1) + Since(w1, w');
    assert w.SlotsAt(Running) - Elements(bs) <= w1.SlotsAt(Running);
    forall e | e in Since(w1, w')
      ensures Fits(e, bs, w.SlotsAt(Done) - Elements(bs), w.SlotsAt(Running) - Elements(bs))
    {
      var k :| 0 <= k < |bs| && Since(w1, w')[k] == e;
      assert e.Replay? && e.slot == bs[k];
    }
  }

  ghost predicate AllWell(env: Env, from: nat) {
    forall t: nat | t >= from :: env(t).rc == OK
  }

  lemma ResumeEffect(w: World, env: Env, c: CompId)
    requires w.Is(c, Paused) && AllWell(env, w.now)
    ensures var (w', rc) := ResumeVerb(w, env, c);
            && rc == OK && SameShape(w, w') && w'.now >= w.now
            && w'.stage == w.stage[c := Stage.Active]
            && w'.pause == Marked(w.pause, w.Bound(c), Running)
            && (forall s | s in w.Bound(c) || (w.Pause(s) == Running && w.Held(s) == []) :: w'.Held(s) == [])
            && w.trace <= w'.trace
            && forall e | e in Since(w, w') :: e.Replay? && Fits(e, w.Bound(c), {}, w.SlotsAt(Running))
  {
    AskHolds(w, env);
    var w1 := Ask(w, env);
    AskHolds(w1, env);
    var w2 := Ask(w1, env);
    ReopenSlotsEffect(w2, env, w.Bound(c));
    ReopenSlotsEmpty(w2, env, w.Bound(c));
    ReopenSlotsTrace(w2, env, w.Bound(c));
  }

  lemma ShiftEffect(w: World, env: Env, c: CompId, to: Stage)
    requires AllWell(env, w.now)
    ensures var (w', rc) := ShiftVerb(w, env, c, to);
            && rc == OK && SameShape(w, w') && w'.now >= w.now && w'.trace == w.trace && w'.pause == w.pause
            && w'.stage == (if c in w.stage then w.stage[c := to] else w.stage)
            && forall s | w.Pause(s) == Running && w.Held(s) == [] :: w'.Held(s) == []
  {
    AskHolds(w, env);
    AskHolds(Ask(w, env), env);
  }
}
