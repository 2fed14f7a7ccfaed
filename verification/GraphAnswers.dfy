/** What each change of the registry answers, and that the change log is a full account: who
    follows the events knows the slots, the bindings, the components and the edges. */
module GraphAnswers {
  import opened Composition
  import opened Sequences
  import opened ChangeLog
  import opened GraphLists

  // ---------------------------------------------------------------- answers

  ghost predicate SlotNameTaken(g: Graph, s: SlotId) {
    exists t :: t in g.slots && t in g.slotNames && s in g.slotNames && g.slotNames[t] == g.slotNames[s]
  }

  ghost predicate IdentityInUse(g: Graph, c: CompId) {
    exists d :: d in g.comps && d in g.compNames && c in g.compNames && g.compNames[d] == g.compNames[c] && (d in g.stage ==> g.stage[d] != Destroyed)
  }

  ghost predicate BoundSomewhere(g: Graph, c: CompId) {
    exists s :: s in g.slots && s in g.active && g.active[s] == c
  }

  /** What is refused, and why. */
  ghost function Answer(g: Graph, step: Step): Status {
    match step
    case AddSlot(s) => if s !in g.slotNames then EINVAL else if SlotNameTaken(g, s) then EEXIST else OK
    case Swap(s, c) => if s in g.slots && (c.None? || c.value in g.comps) then OK else ENOENT
    case DropSlot(s) => if s !in g.slots then ENOENT else if (s in g.incoming ==> g.incoming[s] == []) && (s in g.outgoing ==> g.outgoing[s] == []) then OK else EBUSY
    case AddComponent(c) => if c !in g.compNames then EINVAL else if IdentityInUse(g, c) then EEXIST else OK
    case DropComponent(c) => if c !in g.comps then ENOENT else if BoundSomewhere(g, c) then EBUSY else OK
    case SetTo(c, _) => if c in g.comps then OK else ENOENT
    case AddEdge(from, to, _, _, _) =>
      if to.None? then EINVAL else if to.value in g.slots && (from.None? || from.value in g.slots) then OK else ENOENT
    case Tune(c, _, _) => if c in g.conns && c in g.info then OK else ENOENT
    case DropEdge(c) => if c in g.conns && c in g.info then OK else ENOENT
  }

  lemma AnswersExactly(g: Graph, step: Step)
    ensures Next(g, step).1 == Answer(g, step)
    ensures Answer(g, step) != OK ==> Next(g, step).0 == g
  {
  }

  // ---------------------------------------------------------------- the account

  /** The registry as its observers see it.  Edges are counted by their ends. */
  datatype Account = Account(
    slots: seq<SlotId>,
    bound: map<SlotId, CompId>,
    comps: seq<CompId>,
    stage: map<CompId, Stage>,
    edges: multiset<(Option<SlotId>, SlotId)>)

  function Ends(e: Connection): (Option<SlotId>, SlotId) {
    (e.from, e.to)
  }

  function EdgesOf(conns: seq<ConnId>, info: map<ConnId, Connection>): multiset<(Option<SlotId>, SlotId)> {
    if conns == [] then multiset{}
    else (if conns[0] in info then multiset{Ends(info[conns[0]])} else multiset{}) + EdgesOf(conns[1..], info)
  }

  function AccountOf(g: Graph): Account {
    Account(g.slots, g.active, g.comps, g.stage, EdgesOf(g.conns, g.info))
  }

  /** What an observer makes of an event. */
  function Apply(a: Account, what: Change): Account {
    match what
    case SlotCreated(s) => a.(slots := [s] + a.slots)
    case SlotSwapped(s, _, now) => a.(bound := if now.Some? then a.bound[s := now.value] else a.bound - {s})
    case SlotDestroyed(s) => a.(slots := Without(a.slots, s))
    case ComponentRegistered(c) => a.(comps := [c] + a.comps)
    case ComponentUnregistered(c) => a.(comps := Without(a.comps, c))
    case ComponentState(c, _, after) => a.(stage := a.stage[c := after])
    case ConnectionAdded(e) => a.(edges := a.edges + multiset{Ends(e)})
    case ConnectionRetuned(_) => a
    case ConnectionRemoved(e) => a.(edges := a.edges - multiset{Ends(e)})
  }

  /** What an event says of the time before it is right. */
  ghost predicate Tells(g: Graph, step: Step, what: Change) {
    match step
    case AddSlot(s) => what == SlotCreated(s)
    case Swap(s, c) => what == SlotSwapped(s, if s in g.active then Some(g.active[s]) else None, c)
    case DropSlot(s) => what == SlotDestroyed(s)
    case AddComponent(c) => what == ComponentRegistered(c)
    case DropComponent(c) => what == ComponentUnregistered(c)
    case SetTo(c, to) => what == ComponentState(c, if c in g.stage then g.stage[c] else Uninit, to)
    case AddEdge(from, to, mode, stateful, policy) => to.Some? && what == ConnectionAdded(Connection(from, to.value, mode, stateful, policy))
    case Tune(c, mode, stateful) => c in g.info && what == ConnectionRetuned(g.info[c].(mode := mode, stateful := stateful))
    case DropEdge(c) => c in g.info && what == ConnectionRemoved(g.info[c])
  }

  lemma {:induction false} EdgesSame(conns: seq<ConnId>, info: map<ConnId, Connection>, info': map<ConnId, Connection>)
    requires forall c | c in conns :: (c in info <==> c in info') && (c in info ==> Ends(info'[c]) == Ends(info[c]))
    ensures EdgesOf(conns, info') == EdgesOf(conns, info)
  {
    if conns != [] {
      assert conns[0] in conns;
      EdgesSame(conns[1..], info, info');
    }
  }

  lemma {:induction false} EdgesLess(conns: seq<ConnId>, info: map<ConnId, Connection>, c: ConnId)
    requires c in conns && c in info
    ensures Ends(info[c]) in EdgesOf(conns, info)
    ensures EdgesOf(Without<ConnId>(conns, c), info) == EdgesOf(conns, info) - multiset{Ends(info[c])}
  {
    if conns[0] == c {
      assert Without<ConnId>(conns, c) == conns[1..];
    } else {
      EdgesLess(conns[1..], info, c);
      var less := Without<ConnId>(conns, c);
      assert less[1..] == Without<ConnId>(conns[1..], c) && less[0] == conns[0];
    }
  }

  /** `g'` comes after `g` by a change its one new event tells, and that an observer follows. */
  ghost predicate Told(g: Graph, step: Step, g': Graph) {
    && |g'.events| == |g.events| + 1 && g'.events[..|g.events|] == g.events
    && var e := g'.events[|g.events|];
       e.generation == g.generation + 1 && Tells(g, step, e.what) && AccountOf(g') == Apply(AccountOf(g), e.what)
  }

  lemma Emitted(g: Graph, step: Step, h: Graph, what: Change)
    requires h.events == g.events && h.generation == g.generation
    requires Tells(g, step, what) && AccountOf(h) == Apply(AccountOf(g), what)
    ensures Told(g, step, Emit(h, what))
  {
    hide Tells, Apply, EdgesOf;
    assert AccountOf(Emit(h, what)) == AccountOf(h);
  }

  lemma SlotsTold(g: Graph, step: Step)
    requires step.AddSlot? || step.Swap? || step.DropSlot?
    ensures Next(g, step).1 == OK ==> Told(g, step, Next(g, step).0)
  {
    hide NameTaken, EdgesOf;
    match step
    case AddSlot(s) =>
      Emitted(g, step, g.(slots := [s] + g.slots, incoming := g.incoming[s := []], outgoing := g.outgoing[s := []]), SlotCreated(s));
    case Swap(s, c) =>
      Emitted(g, step, g.(active := if c.Some? then g.active[s := c.value] else g.active - {s}), SlotSwapped(s, g.Bound(s), c));
    case DropSlot(s) =>
      var lists := g.(incoming := g.incoming - {s}, outgoing := g.outgoing - {s});
      Emitted(g, step, lists.(slots := Without<SlotId>(g.slots, s)), SlotDestroyed(s));
  }

  lemma ComponentsTold(g: Graph, step: Step)
    requires step.AddComponent? || step.DropComponent? || step.SetTo?
    ensures Next(g, step).1 == OK ==> Told(g, step, Next(g, step).0)
  {
    hide IdentityTaken, IsBound, EdgesOf;
    match step
    case AddComponent(c) => Emitted(g, step, g.(comps := [c] + g.comps), ComponentRegistered(c));
    case DropComponent(c) => Emitted(g, step, g.(comps := Without<CompId>(g.comps, c)), ComponentUnregistered(c));
    case SetTo(c, to) => Emitted(g, step, g.(stage := g.stage[c := to]), ComponentState(c, g.StageOf(c), to));
  }

  lemma EdgeMore(conns: seq<ConnId>, info: map<ConnId, Connection>, c: ConnId, e: Connection)
    requires c !in conns
    ensures EdgesOf([c] + conns, info[c := e]) == EdgesOf(conns, info) + multiset{Ends(e)}
  {
    EdgesSame(conns, info, info[c := e]);
    assert ([c] + conns)[1..] == conns;
  }

  lemma AddTold(g: Graph, step: Step)
    requires Inv(g) && step.AddEdge?
    ensures Next(g, step).1 == OK ==> Told(g, step, Next(g, step).0)
  {
    hide Filter, LogOk, NamesOk, ListsOk, EdgesOf;
    if Next(g, step).1 == OK {
      var e, c := Connection(step.from, step.target.value, step.mode, step.stateful, step.policy), g.made;
      forall x | x in g.conns ensures x < c { assert EdgeOk(g, x); }
      EdgeMore(g.conns, g.info, c, e);
      var outgoing := if e.from.Some? then g.outgoing[e.from.value := [c] + g.Out(e.from.value)] else g.outgoing;
      Emitted(g, step, g.(conns := [c] + g.conns, info := g.info[c := e], made := c + 1,
                          incoming := g.incoming[e.to := [c] + g.In(e.to)], outgoing := outgoing), ConnectionAdded(e));
    }
  }

  lemma TuneTold(g: Graph, step: Step)
    requires step.Tune?
    ensures Next(g, step).1 == OK ==> Told(g, step, Next(g, step).0)
  {
    hide EdgesOf;
    if Next(g, step).1 == OK {
      var e := g.info[step.conn].(mode := step.mode, stateful := step.stateful);
      EdgesSame(g.conns, g.info, g.info[step.conn := e]);
      Emitted(g, step, g.(info := g.info[step.conn := e]), ConnectionRetuned(e));
    }
  }

  lemma DropTold(g: Graph, step: Step)
    requires step.DropEdge?
    ensures Next(g, step).1 == OK ==> Told(g, step, Next(g, step).0)
  {
    hide EdgesOf;
    if Next(g, step).1 == OK {
      var c := step.conn;
      var e := g.info[c];
      EdgesLess(g.conns, g.info, c);
      var incoming := if e.to in g.slots then g.incoming[e.to := Without<ConnId>(g.In(e.to), c)] else g.incoming;
      var outgoing := if e.from.Some? && e.from.value in g.slots
                      then g.outgoing[e.from.value := Without<ConnId>(g.Out(e.from.value), c)] else g.outgoing;
      Emitted(g, step, g.(conns := Without<ConnId>(g.conns, c), incoming := incoming, outgoing := outgoing), ConnectionRemoved(e));
    }
  }

  /** A change that is not refused logs one event, numbered next, which tells it, and an
      observer who applies it knows the registry again; one that is refused logs none. */
  lemma StepTells(g: Graph, step: Step)
    requires Inv(g)
    ensures var (g', rc) := Next(g, step); if rc == OK then Told(g, step, g') else g' == g
  {
    hide Next, Told, Inv;
    AnswersExactly(g, step);
    match step
    case AddSlot(_) => SlotsTold(g, step);
    case Swap(_, _) => SlotsTold(g, step);
    case DropSlot(_) => SlotsTold(g, step);
    case AddComponent(_) => ComponentsTold(g, step);
    case DropComponent(_) => ComponentsTold(g, step);
    case SetTo(_, _) => ComponentsTold(g, step);
    case AddEdge(_, _, _, _, _) => AddTold(g, step);
    case Tune(_, _, _) => TuneTold(g, step);
    case DropEdge(_) => DropTold(g, step);
  }

  /** Applying events one after the other. */
  function ApplyAll(a: Account, events: seq<Event>): Account {
    if events == [] then a else Apply(ApplyAll(a, events[..|events| - 1]), events[|events| - 1].what)
  }

  lemma ApplySnoc(a: Account, events: seq<Event>, e: Event)
    ensures ApplyAll(a, events + [e]) == Apply(ApplyAll(a, events), e.what)
  {
    assert (events + [e])[..|events|] == events;
  }

  /** After every run, the log since its start is all an observer needs to know the registry. */
  lemma {:induction false} LogTells(g: Graph, steps: seq<Step>)
    requires Inv(g) && Run(g, steps).Some?
    ensures var h := Run(g, steps).value;
            && |h.events| >= |g.events| && h.events[..|g.events|] == g.events
            && AccountOf(h) == ApplyAll(AccountOf(g), h.events[|g.events|..])
  {
    hide Inv, Next, AccountOf, Fits;
    if steps == [] {
      assert g.events[|g.events|..] == [];
    } else {
      var front, step := steps[..|steps| - 1], steps[|steps| - 1];
      LogTells(g, front);
      RunInv(g, front);
      var before := Run(g, front).value;
      StepTells(before, step);
      var h := Next(before, step).0;
      if Next(before, step).1 == OK {
        var n := |g.events|;
        assert h.events == before.events + [h.events[|before.events|]];
        assert h.events[n..] == before.events[n..] + [h.events[|before.events|]];
        ApplySnoc(AccountOf(g), before.events[n..], h.events[|before.events|]);
      }
    }
  }

  /** Retuning changes the mode and the state flag of one connection, and nothing else. */
  lemma TuneExactly(g: Graph, c: ConnId, mode: Mode, stateful: bool)
    requires c in g.conns && c in g.info
    ensures var g' := Next(g, Tune(c, mode, stateful)).0;
            && g'.info.Keys == g.info.Keys && (forall d | d in g.info && d != c :: g'.info[d] == g.info[d])
            && g'.info[c].mode == mode && g'.info[c].stateful == stateful
            && g'.info[c].from == g.info[c].from && g'.info[c].to == g.info[c].to && g'.info[c].policy == g.info[c].policy
            && g'.conns == g.conns && g'.incoming == g.incoming && g'.outgoing == g.outgoing && g'.made == g.made
  {
  }

  /** A new connection is listed at its two ends and nowhere else. */
  lemma AddExactly(g: Graph, from: Option<SlotId>, to: SlotId, mode: Mode, stateful: bool, policy: Policy, s: SlotId)
    requires Answer(g, AddEdge(from, Some(to), mode, stateful, policy)) == OK
    ensures var g' := Next(g, AddEdge(from, Some(to), mode, stateful, policy)).0;
            var c := g'.conns[..1];
            && |c| == 1 && c[0] in g'.info && g'.info[c[0]] == Connection(from, to, mode, stateful, policy) && g'.conns == c + g.conns
            && g'.In(s) == (if s == to then c else []) + g.In(s)
            && g'.Out(s) == (if from == Some(s) then c else []) + g.Out(s)
  {
  }
}
