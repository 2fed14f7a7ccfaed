/** What each lifecycle verb answers and leaves, told by the state of the component and by
    what the callbacks say at the times they are called. */
module LifecycleAnswers {
  import opened Composition
  import opened Sequences
  import opened Lifecycle

  // ---------------------------------------------------------------- what callbacks send

  /** The sends to `s` among `sends`, in order. */
  ghost function SentTo(sends: seq<Send>, s: SlotId): seq<Send> {
    Filter(sends, (m: Send) => m.dst == s)
  }

  lemma {:induction false} SentSnoc(sends: seq<Send>, m: Send, s: SlotId)
    ensures SentTo(sends + [m], s) == SentTo(sends, s) + if m.dst == s then [m] else []
  {
    var p := (m: Send) => m.dst == s;
    if sends == [] {
      assert [m][1..] == [] && sends + [m] == [m];
    } else {
      SentSnoc(sends[1..], m, s);
      assert (sends + [m])[1..] == sends[1..] + [m];
    }
  }

  /** A send to a paused slot is held, behind those held before it, in the order of sending;
      a slot that is open has nothing added. */
  lemma {:induction false} LandHeld(w: World, sends: seq<Send>, s: SlotId)
    ensures Land(w, sends).Held(s) ==
            if s in w.held && w.Pause(s) != Running then w.Held(s) + SentTo(sends, s) else w.Held(s)
    ensures Land(w, sends) == w.(held := Land(w, sends).held) && Land(w, sends).held.Keys == w.held.Keys
  {
    if sends != [] {
      var front, m := sends[..|sends| - 1], sends[|sends| - 1];
      LandHeld(w, front, s);
      assert sends == front + [m];
      SentSnoc(front, m, s);
    }
  }

  lemma AskHeld(w: World, env: Env, s: SlotId)
    ensures Ask(w, env).Held(s) ==
            if s in w.held && w.Pause(s) != Running then w.Held(s) + SentTo(env(w.now).sends, s) else w.Held(s)
  {
    LandHeld(w, env(w.now).sends, s);
  }

  // ---------------------------------------------------------------- time

  lemma {:induction false} DrainTime(w: World, env: Env, bs: seq<SlotId>)
    ensures DrainSlots(w, env, bs).now == w.now + |bs|
  {
    hide Ask;
    if bs != [] {
      DrainTime(w, env, bs[..|bs| - 1]);
      var w1 := DrainSlots(w, env, bs[..|bs| - 1]).WithPause(bs[|bs| - 1], Draining);
      AskHolds(w1.(trace := w1.trace + [Drain(bs[|bs| - 1], w1.SlotsAt(Done))]), env);
    }
  }

  /** When the drain of `n` slots that starts at `t` with a hook is over. */
  lemma CutAndDrained(w: World, env: Env, bs: seq<SlotId>)
    ensures DrainSlots(CutSlots(Ask(w, env), bs), env, bs).now == w.now + 1 + |bs|
  {
    hide Ask, CutSlots, DrainSlots;
    AskHolds(w, env);
    CutSlotsEffect(Ask(w, env), bs);
    DrainTime(CutSlots(Ask(w, env), bs), env, bs);
  }

  // ---------------------------------------------------------------- pausing

  /** What the hook on `pause` says, then, once the `n` slots are drained, `pause_hook` and
      `ops->pause`. */
  ghost predicate PauseGoes(w: World, env: Env, c: CompId) {
    var n := |w.Bound(c)|;
    && w.Is(c, Stage.Active) && env(w.now).rc == OK
    && env(w.now + 1 + n).rc == OK && !env(w.now + 1 + n).late && env(w.now + 2 + n).rc == OK
  }

  /** A pause answers OK exactly if everyone agrees, in time; otherwise it gives the reason of
      the first who does not. */
  lemma PauseAnswers(w: World, env: Env, c: CompId)
    ensures var rc, n := PauseVerb(w, env, c).1, |w.Bound(c)|;
            && (rc == OK <==> PauseGoes(w, env, c))
            && (!w.Is(c, Stage.Active) ==> rc == ESTATE)
            && (w.Is(c, Stage.Active) && env(w.now).rc != OK ==> rc == EABORT)
            && (w.Is(c, Stage.Active) && env(w.now).rc == OK ==>
                  var hook, ops := env(w.now + 1 + n), env(w.now + 2 + n);
                  && (hook.rc != OK ==> rc == hook.rc) && (hook.rc == OK && hook.late ==> rc == EDEADLINE)
                  && (hook.rc == OK && !hook.late ==> rc == ops.rc))
  {
    hide Ask, DrainSlots, CutSlots, ReopenSlots, SettleSlots, World.Bound;
    var bs := w.Bound(c);
    CutAndDrained(w, env, bs);
    AskHolds(DrainSlots(CutSlots(Ask(w, env), bs), env, bs), env);
  }

  /** What a pause leaves, case by case: refused before the cutoff, all as it was; refused
      later, its slots are open with nothing held for them; otherwise its slots are DONE. */
  lemma PauseLeaves(w: World, env: Env, c: CompId)
    ensures var (w', rc) := PauseVerb(w, env, c);
            var bs := w.Bound(c);
            if PauseGoes(w, env, c) then w'.stage == w.stage[c := Paused] && w'.pause == Marked(w.pause, bs, Done)
            else if !w.Is(c, Stage.Active) then w' == w
            else && w'.stage == w.stage
                 && (if env(w.now).rc != OK then w'.pause == w.pause
                     else w'.pause == Marked(w.pause, bs, Running) && forall s | s in bs :: w'.Held(s) == [])
  {
    hide DrainSlots, CutSlots, ReopenSlots, SettleSlots, World.Bound, Ask;
    PauseAnswers(w, env, c);
    if w.Is(c, Stage.Active) {
      PauseEffect(w, env, c);
      AskHolds(w, env);
      if env(w.now).rc == OK {
        var bs := w.Bound(c);
        DrainedEffect(w, env, bs);
        CutAndDrained(w, env, bs);
        var w1 := DrainSlots(CutSlots(Ask(w, env), bs), env, bs);
        AskHolds(w1, env);
        AskHolds(Ask(w1, env), env);
        MarkedTwice(w.pause, bs, Draining, Running);
        ReopenSlotsEffect(Ask(w1, env), env, bs);
        ReopenSlotsEmpty(Ask(w1, env), env, bs);
        ReopenSlotsEffect(Ask(Ask(w1, env), env), env, bs);
        ReopenSlotsEmpty(Ask(Ask(w1, env), env), env, bs);
      }
    }
  }

  // ---------------------------------------------------------------- the other verbs

  /** A hook and then `ops`: the answer of a verb that is legal from where the component is. */
  ghost predicate BothAnswer(w: World, env: Env, rc: Status) {
    if env(w.now).rc != OK then rc == EABORT else rc == env(w.now + 1).rc
  }

  lemma ResumeAnswers(w: World, env: Env, c: CompId)
    ensures var rc := ResumeVerb(w, env, c).1;
            && (rc == OK <==> w.Is(c, Paused) && env(w.now).rc == OK && env(w.now + 1).rc == OK)
            && (!w.Is(c, Paused) ==> rc == ESTATE) && (w.Is(c, Paused) ==> BothAnswer(w, env, rc))
  {
    hide Ask, ReopenSlots, World.Bound;
    AskHolds(w, env);
  }

  /** A resume that is refused leaves stages and pause states alone; one that is not opens
      every slot of the component. */
  lemma ResumeLeaves(w: World, env: Env, c: CompId)
    ensures var (w', rc) := ResumeVerb(w, env, c);
            if rc == OK then w'.stage == w.stage[c := Stage.Active] && w'.pause == Marked(w.pause, w.Bound(c), Running)
            else w'.stage == w.stage && w'.pause == w.pause && w'.trace == w.trace
  {
    hide Ask, ReopenSlots, World.Bound;
    ResumeAnswers(w, env, c);
    AskHolds(w, env);
    AskHolds(Ask(w, env), env);
    ReopenSlotsEffect(Ask(Ask(w, env), env), env, w.Bound(c));
  }

  lemma ShiftAnswers(w: World, env: Env, c: CompId, to: Stage)
    ensures var (w', rc) := ShiftVerb(w, env, c, to);
            && BothAnswer(w, env, rc) && w'.pause == w.pause && w'.trace == w.trace
            && w'.stage == if rc == OK && c in w.stage then w.stage[c := to] else w.stage
  {
    hide Ask;
    AskHolds(w, env);
    AskHolds(Ask(w, env), env);
  }

  /** Enabling: from READY to ACTIVE. */
  lemma EnableAnswers(w: World, env: Env, c: CompId)
    ensures var (w', rc) := EnableVerb(w, env, c);
            && (rc == OK <==> w.Is(c, Ready) && env(w.now).rc == OK && env(w.now + 1).rc == OK)
            && (!w.Is(c, Ready) ==> rc == ESTATE && w' == w) && (w.Is(c, Ready) ==> BothAnswer(w, env, rc))
            && w'.pause == w.pause && w'.stage == if rc == OK then w.stage[c := Stage.Active] else w.stage
  {
    hide ShiftVerb;
    ShiftAnswers(w, env, c, Stage.Active);
  }

  /** Disabling: from ACTIVE or PAUSED to READY. */
  lemma DisableAnswers(w: World, env: Env, c: CompId)
    ensures var (w', rc), from := DisableVerb(w, env, c), w.Is(c, Stage.Active) || w.Is(c, Paused);
            && (rc == OK <==> from && env(w.now).rc == OK && env(w.now + 1).rc == OK)
            && (!from ==> rc == ESTATE && w' == w) && (from ==> BothAnswer(w, env, rc))
            && w'.pause == w.pause && w'.stage == if rc == OK then w.stage[c := Ready] else w.stage
  {
    hide ShiftVerb;
    ShiftAnswers(w, env, c, Ready);
  }

  /** Destroying: from READY, refused while some registered slot is bound; nobody can veto. */
  lemma DestroyAnswers(w: World, env: Env, c: CompId)
    ensures var (w', rc), bound := DestroyVerb(w, env, c), exists s :: s in w.roster && w.Active(s) == Some(c);
            && rc == (if !w.Is(c, Ready) then ESTATE else if bound then EBUSY else OK)
            && (rc != OK ==> w' == w)
            && w'.pause == w.pause && w'.stage == if rc == OK then w.stage[c := Destroyed] else w.stage
  {
    hide Ask;
    AskHolds(w, env);
    var bs := w.Bound(c);
    if bs != [] { assert bs[0] in bs; }
  }

  // ---------------------------------------------------------------- slots of a component

  /** The slots of a component come in the order of the registry, each as often as there. */
  lemma {:induction false} BoundInOrder(w: World, order: seq<SlotId>, c: CompId)
    ensures w.BoundIn(order, c) == Filter(order, (s: SlotId) => w.Active(s) == Some(c))
  {
    if order != [] {
      var n := |order| - 1;
      BoundInOrder(w, order[..n], c);
      assert order == order[..n] + [order[n]];
      FilterSnoc(order[..n], order[n], (s: SlotId) => w.Active(s) == Some(c));
    }
  }
}
