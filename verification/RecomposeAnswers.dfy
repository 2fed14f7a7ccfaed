/** What `nx_recompose` answers, and whom it notifies. */
module RecomposeAnswers {
  import opened Composition
  import opened Sequences
  import opened Lifecycle
  import opened Recompose

  // ---------------------------------------------------------------- validation

  /** A change that may be carried out: a slot that is not frozen and, if it is to be
      replaced, a new component that is READY. */
  ghost predicate Sound(w: World, sc: SlotChange) {
    && sc.slot.Some? && sc.slot.value !in w.frozen
    && (sc.replace ==> sc.newComp.Some? && w.Is(sc.newComp.value, Ready))
  }

  /** Why a change may not be carried out. */
  ghost predicate Refused(w: World, sc: SlotChange, rc: Status) {
    || (sc.slot.None? && rc == EINVAL)
    || (sc.slot.Some? && sc.slot.value in w.frozen && rc == EPERM)
    || (sc.slot.Some? && sc.slot.value !in w.frozen && sc.replace && sc.newComp.None? && rc == EINVAL)
    || (sc.slot.Some? && sc.slot.value !in w.frozen && sc.replace && sc.newComp.Some? && !w.Is(sc.newComp.value, Ready) && rc == ESTATE)
  }

  /** A plan passes exactly if all its changes are sound; otherwise the first that is not
      gives the reason. */
  lemma {:induction false} ValidateExactly(w: World, changes: seq<SlotChange>)
    ensures Validate(w, changes) == OK <==> forall sc | sc in changes :: Sound(w, sc)
    ensures Validate(w, changes) != OK ==>
              exists i: nat :: i < |changes| && Refused(w, changes[i], Validate(w, changes)) && forall k | 0 <= k < i :: Sound(w, changes[k])
  {
    if changes != [] {
      var n := |changes| - 1;
      assert changes == changes[..n] + [changes[n]];
      ValidateExactly(w, changes[..n]);
      if Validate(w, changes[..n]) != OK {
        var i: nat :| i < n && Refused(w, changes[..n][i], Validate(w, changes[..n])) && forall k | 0 <= k < i :: Sound(w, changes[..n][k]);
        assert Refused(w, changes[i], Validate(w, changes)) && !Sound(w, changes[i]) && changes[i] in changes;
        assert forall k | 0 <= k < i :: changes[..n][k] == changes[k];
      } else if Verdict(w, changes[n]) != OK {
        assert Refused(w, changes[n], Validate(w, changes)) && !Sound(w, changes[n]);
        forall k | 0 <= k < n ensures Sound(w, changes[k]) { assert changes[..n][k] in changes[..n]; }
      }
    }
  }

  // ---------------------------------------------------------------- the answer of the phases

  /** The call answers OK exactly if no pause fails, and otherwise what the first pause that
      fails answers; `k` slots were passed before it. */
  lemma {:induction false} PhaseAnswers(w: World, env: Env, order: seq<SlotId>)
    ensures var r := PausePhase(w, env, order);
            && r.reached <= |order| && (r.rc == OK ==> r.reached == |order|)
            && (r.rc != OK ==>
                  var k := r.reached;
                  && k < |order|
                  && var before := PausePhase(w, env, order[..k]);
                     && before.rc == OK && before.world.Holds(order[k], Stage.Active)
                     && PauseVerb(before.world, env, before.world.Active(order[k]).value) == (r.world, r.rc))
  {
    hide PauseVerb;
    if order != [] {
      var n := |order| - 1;
      PhaseAnswers(w, env, order[..n]);
      var r := PausePhase(w, env, order[..n]);
      if r.rc != OK { assert order[..n][..r.reached] == order[..r.reached]; }
    }
  }

  lemma RunAnswers(w: World, env: Env, plan: Plan, order: seq<SlotId>)
    ensures Run(w, env, plan, order).1 == PausePhase(w, env, order).rc
  {
    hide PausePhase, Unwind, Commit;
  }

  // ---------------------------------------------------------------- notification

  /** The edges into `s` whose other end is bound to a component. */
  ghost function Dependents(w: World, s: SlotId): seq<Connection> {
    Filter(w.conns, (c: Connection) => c.to == s && c.from.Some? && w.Active(c.from.value).Some?)
  }

  /** Calls made for the first `n` changes: one for each such edge of each replaced slot. */
  ghost function Calls(w: World, changes: seq<SlotChange>): nat {
    if changes == [] then 0
    else
      var sc := changes[|changes| - 1];
      Calls(w, changes[..|changes| - 1]) + if sc.replace && sc.slot.Some? then |Dependents(w, sc.slot.value)| else 0
  }

  lemma {:induction false} NotifyOneCalls(w: World, env: Env, conns: seq<Connection>, s: SlotId)
    ensures var w', p := NotifyOne(w, env, conns, s), (c: Connection) => c.to == s && c.from.Some? && w.Active(c.from.value).Some?;
            w'.now == w.now + |Filter(conns, p)| && w'.active == w.active && w'.conns == w.conns
  {
    hide Ask;
    if conns != [] {
      var front, c := conns[..|conns| - 1], conns[|conns| - 1];
      NotifyOneCalls(w, env, front, s);
      assert conns == front + [c];
      FilterSnoc(front, c, (c: Connection) => c.to == s && c.from.Some? && w.Active(c.from.value).Some?);
      AskHolds(NotifyOne(w, env, front, s), env);
    }
  }

  /** After the commit every bound dependent of every replaced slot is called back, once per
      edge, and nobody else. */
  lemma {:induction false} NotifyCalls(w: World, env: Env, changes: seq<SlotChange>)
    ensures var w' := NotifyAll(w, env, changes);
            w'.now == w.now + Calls(w, changes) && w'.active == w.active && w'.conns == w.conns
  {
    hide NotifyOne;
    if changes != [] {
      NotifyCalls(w, env, changes[..|changes| - 1]);
      var front, sc := NotifyAll(w, env, changes[..|changes| - 1]), changes[|changes| - 1];
      if sc.replace && sc.slot.Some? {
        var s := sc.slot.value;
        NotifyOneCalls(front, env, front.conns, s);
        FilterSame(w.conns, (c: Connection) => c.to == s && c.from.Some? && w.Active(c.from.value).Some?,
                   (c: Connection) => c.to == s && c.from.Some? && front.Active(c.from.value).Some?);
      }
    }
  }
}
