/** The registry of framework/registry.c as lists: slots, components, connections, and each
    slot's own incoming and outgoing connections, with one logged event per change. */
module GraphLists {
  import opened Composition
  import opened Sequences
  import opened ChangeLog

  type ConnId = nat
  type Name = nat

  datatype Change =
    | SlotCreated(slot: SlotId)
    | SlotSwapped(slot: SlotId, was: Option<CompId>, now: Option<CompId>)
    | SlotDestroyed(slot: SlotId)
    | ComponentRegistered(comp: CompId)
    | ComponentUnregistered(comp: CompId)
    | ComponentState(comp: CompId, before: Stage, after: Stage)
    | ConnectionAdded(edge: Connection)
    | ConnectionRetuned(edge: Connection)
    | ConnectionRemoved(edge: Connection)

  type Event = Stamped<Change>

  /** `slots`, `comps` and `conns` are the three global lists, newest first.  What is kept in
      a slot or component object survives its time in the registry: `active`, `stage`, and
      the names, which never change. */
  datatype Graph = Graph(
    slots: seq<SlotId>,
    comps: seq<CompId>,
    conns: seq<ConnId>,
    info: map<ConnId, Connection>,
    incoming: map<SlotId, seq<ConnId>>,
    outgoing: map<SlotId, seq<ConnId>>,
    active: map<SlotId, CompId>,
    stage: map<CompId, Stage>,
    slotNames: map<SlotId, Name>,
    compNames: map<CompId, (Name, Name)>,
    made: nat,
    generation: nat,
    events: seq<Event>)
  {
    function In(s: SlotId): seq<ConnId> {
      if s in incoming then incoming[s] else []
    }

    function Out(s: SlotId): seq<ConnId> {
      if s in outgoing then outgoing[s] else []
    }

    function Bound(s: SlotId): Option<CompId> {
      if s in active then Some(active[s]) else None
    }

    function StageOf(c: CompId): Stage {
      if c in stage then stage[c] else Uninit
    }
  }

  // ---------------------------------------------------------------- mutations

  /** `bump_gen` and `emit_event`. */
  function Emit(g: Graph, what: Change): Graph {
    g.(generation := g.generation + 1, events := g.events + [Stamped(g.generation + 1, what)])
  }

  predicate NameTaken(g: Graph, n: Name) {
    exists s :: s in g.slots && s in g.slotNames && g.slotNames[s] == n
  }

  predicate IdentityTaken(g: Graph, n: (Name, Name)) {
    exists c :: c in g.comps && c in g.compNames && g.compNames[c] == n && g.StageOf(c) != Destroyed
  }

  function RegisterSlot(g: Graph, s: SlotId): (Graph, Status) {
    if s !in g.slotNames then (g, EINVAL)
    else if NameTaken(g, g.slotNames[s]) then (g, EEXIST)
    else (Emit(g.(slots := [s] + g.slots, incoming := g.incoming[s := []], outgoing := g.outgoing[s := []]), SlotCreated(s)), OK)
  }

  function SwapSlot(g: Graph, s: SlotId, c: Option<CompId>): (Graph, Status) {
    if s !in g.slots || (c.Some? && c.value !in g.comps) then (g, ENOENT)
    else
      var active := if c.Some? then g.active[s := c.value] else g.active - {s};
      (Emit(g.(active := active), SlotSwapped(s, g.Bound(s), c)), OK)
  }

  function UnregisterSlot(g: Graph, s: SlotId): (Graph, Status) {
    if s !in g.slots then (g, ENOENT)
    else if g.In(s) != [] || g.Out(s) != [] then (g, EBUSY)
    else (Emit(g.(slots := Without<SlotId>(g.slots, s), incoming := g.incoming - {s}, outgoing := g.outgoing - {s}), SlotDestroyed(s)), OK)
  }

  function RegisterComponent(g: Graph, c: CompId): (Graph, Status) {
    if c !in g.compNames then (g, EINVAL)
    else if IdentityTaken(g, g.compNames[c]) then (g, EEXIST)
    else (Emit(g.(comps := [c] + g.comps), ComponentRegistered(c)), OK)
  }

  predicate IsBound(g: Graph, c: CompId) {
    exists s :: s in g.slots && g.Bound(s) == Some(c)
  }

  function UnregisterComponent(g: Graph, c: CompId): (Graph, Status) {
    if c !in g.comps then (g, ENOENT)
    else if IsBound(g, c) then (g, EBUSY)
    else (Emit(g.(comps := Without<CompId>(g.comps, c)), ComponentUnregistered(c)), OK)
  }

  function SetStage(g: Graph, c: CompId, to: Stage): (Graph, Status) {
    if c !in g.comps then (g, ENOENT)
    else (Emit(g.(stage := g.stage[c := to]), ComponentState(c, g.StageOf(c), to)), OK)
  }

  function Connect(g: Graph, from: Option<SlotId>, to: Option<SlotId>, mode: Mode, stateful: bool, policy: Policy): (Graph, Status) {
    if to.None? then (g, EINVAL)
    else if to.value !in g.slots || (from.Some? && from.value !in g.slots) then (g, ENOENT)
    else (Attach(g, Connection(from, to.value, mode, stateful, policy)), OK)
  }

  function Attach(g: Graph, e: Connection): Graph {
    var c := g.made;
    var outgoing := if e.from.Some? then g.outgoing[e.from.value := [c] + g.Out(e.from.value)] else g.outgoing;
    Emit(g.(conns := [c] + g.conns, info := g.info[c := e], made := c + 1,
            incoming := g.incoming[e.to := [c] + g.In(e.to)], outgoing := outgoing), ConnectionAdded(e))
  }

  function Retune(g: Graph, c: ConnId, mode: Mode, stateful: bool): (Graph, Status) {
    if c !in g.conns || c !in g.info then (g, ENOENT)
    else
      var e := g.info[c].(mode := mode, stateful := stateful);
      (Emit(g.(info := g.info[c := e]), ConnectionRetuned(e)), OK)
  }

  function Disconnect(g: Graph, c: ConnId): (Graph, Status) {
    if c !in g.conns || c !in g.info then (g, ENOENT)
    else
      var e := g.info[c];
      var incoming := if e.to in g.slots then g.incoming[e.to := Without<ConnId>(g.In(e.to), c)] else g.incoming;
      var outgoing := if e.from.Some? && e.from.value in g.slots
                      then g.outgoing[e.from.value := Without<ConnId>(g.Out(e.from.value), c)] else g.outgoing;
      (Emit(g.(conns := Without<ConnId>(g.conns, c), incoming := incoming, outgoing := outgoing), ConnectionRemoved(e)), OK)
  }

  // ---------------------------------------------------------------- the invariant

  function Enters(info: map<ConnId, Connection>, s: SlotId): ConnId -> bool {
    (c: ConnId) => c in info && info[c].to == s
  }

  function Leaves(info: map<ConnId, Connection>, s: SlotId): ConnId -> bool {
    (c: ConnId) => c in info && info[c].from == Some(s)
  }

  /** A slot's own lists are the global list, filtered. */
  predicate ListsOk(g: Graph, s: SlotId) {
    g.In(s) == Filter(g.conns, Enters(g.info, s)) && g.Out(s) == Filter(g.conns, Leaves(g.info, s))
  }

  /** A connection's ends are registered. */
  predicate EdgeOk(g: Graph, c: ConnId) {
    && c < g.made && c in g.info && g.info[c].to in g.slots
    && (g.info[c].from.Some? ==> g.info[c].from.value in g.slots)
  }

  predicate BindingOk(g: Graph, s: SlotId) {
    g.Bound(s).Some? ==> g.Bound(s).value in g.comps
  }

  ghost predicate NamesOk(g: Graph) {
    && (forall s | s in g.slots :: s in g.slotNames)
    && (forall i, j | 0 <= i < j < |g.slots| :: g.slotNames[g.slots[i]] != g.slotNames[g.slots[j]])
  }

  ghost predicate LogOk(g: Graph) {
    |g.events| == g.generation && forall i | 0 <= i < |g.events| :: g.events[i].generation == i + 1
  }

  ghost predicate Inv(g: Graph) {
    && NamesOk(g) && Distinct(g.conns) && LogOk(g)
    && (forall s | s in g.slots :: ListsOk(g, s))
    && (forall c | c in g.conns :: EdgeOk(g, c))
    && (forall s | s in g.slots :: BindingOk(g, s))
  }

  // ---------------------------------------------------------------- steps

  datatype Step =
    | AddSlot(s: SlotId)
    | Swap(s: SlotId, c: Option<CompId>)
    | DropSlot(s: SlotId)
    | AddComponent(comp: CompId)
    | DropComponent(comp: CompId)
    | SetTo(comp: CompId, to: Stage)
    | AddEdge(from: Option<SlotId>, target: Option<SlotId>, mode: Mode, stateful: bool, policy: Policy)
    | Tune(conn: ConnId, mode: Mode, stateful: bool)
    | DropEdge(conn: ConnId)

  function Next(g: Graph, s: Step): (Graph, Status) {
    match s
    case AddSlot(s) => RegisterSlot(g, s)
    case Swap(s, c) => SwapSlot(g, s, c)
    case DropSlot(s) => UnregisterSlot(g, s)
    case AddComponent(c) => RegisterComponent(g, c)
    case DropComponent(c) => UnregisterComponent(g, c)
    case SetTo(c, to) => SetStage(g, c, to)
    case AddEdge(from, to, mode, stateful, policy) => Connect(g, from, to, mode, stateful, policy)
    case Tune(c, mode, stateful) => Retune(g, c, mode, stateful)
    case DropEdge(c) => Disconnect(g, c)
  }

  // ---------------------------------------------------------------- every mutation

  lemma LogOn(g: Graph, what: Change)
    requires LogOk(g)
    ensures LogOk(Emit(g, what))
  {
  }

  /** Distinct names make distinct slots. */
  lemma SlotsDistinct(g: Graph)
    requires NamesOk(g)
    ensures Distinct(g.slots)
  {
  }

  lemma NoneTouches(g: Graph, s: SlotId)
    requires (forall c | c in g.conns :: EdgeOk(g, c)) && s !in g.slots
    ensures Filter(g.conns, Enters(g.info, s)) == [] && Filter(g.conns, Leaves(g.info, s)) == []
  {
    FilterNone(g.conns, Enters(g.info, s));
    FilterNone(g.conns, Leaves(g.info, s));
  }

  lemma FreshName(g: Graph, s: SlotId)
    requires NamesOk(g) && s in g.slotNames && !NameTaken(g, g.slotNames[s])
    ensures s !in g.slots && NamesOk(g.(slots := [s] + g.slots))
  {
    var more := [s] + g.slots;
    forall i, j | 0 <= i < j < |more| ensures g.slotNames[more[i]] != g.slotNames[more[j]] {
      assert more[j] == g.slots[j - 1] && more[j] in g.slots;
      if i > 0 { assert more[i] == g.slots[i - 1]; }
    }
  }

  /** Registering a slot keeps the registry right exactly if the slot is unbound, or bound
      to a registered component. */
  lemma RegisterSlotExactly(g: Graph, s: SlotId)
    requires Inv(g)
    ensures Inv(RegisterSlot(g, s).0) <==> (RegisterSlot(g, s).1 == OK ==> BindingOk(g, s))
  {
    hide Filter, NameTaken, NamesOk, LogOk;
    if s in g.slotNames && !NameTaken(g, g.slotNames[s]) {
      FreshName(g, s);
      NoneTouches(g, s);
      var g' := RegisterSlot(g, s).0;
      LogOn(g, SlotCreated(s));
      SameNames(g.(slots := [s] + g.slots), g');
      SameLog(Emit(g, SlotCreated(s)), g');
      assert s in g'.slots;
      forall x | x in g'.slots ensures ListsOk(g', x) { assert x != s ==> ListsOk(g, x); }
      forall c | c in g'.conns ensures EdgeOk(g', c) { assert EdgeOk(g, c); }
      forall x | x in g'.slots ensures BindingOk(g', x) == BindingOk(g, x) { }
    }
  }

  lemma SameNames(g: Graph, h: Graph)
    requires NamesOk(g) && h.slots == g.slots && h.slotNames == g.slotNames
    ensures NamesOk(h)
  {
  }

  lemma SameLog(g: Graph, h: Graph)
    requires LogOk(g) && h.events == g.events && h.generation == g.generation
    ensures LogOk(h)
  {
  }

  lemma NamesCut(g: Graph, k: nat)
    requires NamesOk(g) && k < |g.slots|
    ensures NamesOk(g.(slots := g.slots[..k] + g.slots[k + 1..]))
  {
    var less := g.slots[..k] + g.slots[k + 1..];
    forall s | s in less ensures s in g.slotNames { assert s in g.slots; }
    forall i, j | 0 <= i < j < |less| ensures g.slotNames[less[i]] != g.slotNames[less[j]] {
      var i0, j0 := if i < k then i else i + 1, if j < k then j else j + 1;
      assert less[i] == g.slots[i0] && less[j] == g.slots[j0];
    }
  }

  lemma NamesLess(g: Graph, s: SlotId)
    requires NamesOk(g)
    ensures NamesOk(g.(slots := Without(g.slots, s))) && forall x :: x in Without(g.slots, s) <==> x in g.slots && x != s
  {
    hide NamesOk, Without, FirstIndex;
    SlotsDistinct(g);
    WithoutIs(g.slots, s);
    if s in g.slots {
      var k := FirstIndex(g.slots, s);
      WithoutAt(g.slots, s, k);
      NamesCut(g, k);
    } else {
      SameWithout(g.slots, s);
      assert g.(slots := g.slots) == g;
    }
  }

  lemma UnregisterSlotKeeps(g: Graph, s: SlotId)
    requires Inv(g)
    ensures Inv(UnregisterSlot(g, s).0)
  {
    hide Filter, NamesOk, LogOk, Without;
    if UnregisterSlot(g, s).1 == OK {
      NamesLess(g, s);
      var g' := UnregisterSlot(g, s).0;
      LogOn(g, SlotDestroyed(s));
      SameNames(g.(slots := Without(g.slots, s)), g');
      SameLog(Emit(g, SlotDestroyed(s)), g');
      FilterIn(g.conns, Enters(g.info, s));
      FilterIn(g.conns, Leaves(g.info, s));
      assert ListsOk(g, s);
      forall x | x in g'.slots ensures ListsOk(g', x) && BindingOk(g', x) { assert ListsOk(g, x) && BindingOk(g, x); }
      forall c | c in g'.conns ensures EdgeOk(g', c) {
        assert EdgeOk(g, c);
        assert c !in Filter(g.conns, Enters(g.info, s)) && c !in Filter(g.conns, Leaves(g.info, s));
      }
    }
  }

  lemma SwapKeeps(g: Graph, s: SlotId, c: Option<CompId>)
    requires Inv(g)
    ensures Inv(SwapSlot(g, s, c).0)
  {
    hide Filter, NamesOk, LogOk;
    if SwapSlot(g, s, c).1 == OK {
      var g' := SwapSlot(g, s, c).0;
      LogOn(g, SlotSwapped(s, g.Bound(s), c));
      SameNames(g, g');
      SameLog(Emit(g, SlotSwapped(s, g.Bound(s), c)), g');
      forall x | x in g'.slots ensures ListsOk(g', x) && BindingOk(g', x) { assert ListsOk(g, x) && BindingOk(g, x); }
      forall e | e in g'.conns ensures EdgeOk(g', e) { assert EdgeOk(g, e); }
    }
  }

  lemma {:induction false} WithoutKeeps(q: seq<nat>, x: nat, y: nat)
    requires x in q && x != y
    ensures x in Without(q, y)
  {
    if q[0] != y && x != q[0] {
      assert q == [q[0]] + q[1..];
      WithoutKeeps(q[1..], x, y);
    } else {
      assert q == [q[0]] + q[1..];
    }
  }

  /** A change that leaves slots, connections and their lists alone. */
  lemma OnlyComponents(g: Graph, h: Graph, what: Change)
    requires Inv(g) && h == Emit(g.(comps := h.comps, stage := h.stage), what)
    requires forall x | x in g.slots :: BindingOk(h, x)
    ensures Inv(h)
  {
    hide Filter, NamesOk, LogOk, BindingOk;
    LogOn(g, what);
    SameNames(g, h);
    SameLog(Emit(g, what), h);
    forall x | x in h.slots ensures ListsOk(h, x) { assert ListsOk(g, x); }
    forall e | e in h.conns ensures EdgeOk(h, e) { assert EdgeOk(g, e); }
  }

  lemma AddComponentKeeps(g: Graph, c: CompId)
    requires Inv(g)
    ensures Inv(RegisterComponent(g, c).0)
  {
    hide ListsOk, NamesOk, LogOk, IdentityTaken, EdgeOk, Distinct;
    if RegisterComponent(g, c).1 == OK {
      OnlyComponents(g, RegisterComponent(g, c).0, ComponentRegistered(c));
    }
  }

  lemma DropComponentKeeps(g: Graph, c: CompId)
    requires Inv(g)
    ensures Inv(UnregisterComponent(g, c).0)
  {
    hide ListsOk, NamesOk, LogOk, Without, EdgeOk, Distinct;
    if UnregisterComponent(g, c).1 == OK {
      var h := UnregisterComponent(g, c).0;
      forall x | x in g.slots ensures BindingOk(h, x) {
        assert BindingOk(g, x);
        if g.Bound(x).Some? { WithoutKeeps(g.comps, g.Bound(x).value, c); }
      }
      OnlyComponents(g, h, ComponentUnregistered(c));
    }
  }

  lemma SetStageKeeps(g: Graph, c: CompId, to: Stage)
    requires Inv(g)
    ensures Inv(SetStage(g, c, to).0)
  {
    hide ListsOk, NamesOk, LogOk, EdgeOk, Distinct;
    if SetStage(g, c, to).1 == OK {
      OnlyComponents(g, SetStage(g, c, to).0, ComponentState(c, g.StageOf(c), to));
    }
  }

  // ---------------------------------------------------------------- connections

  lemma FilterCons(c: ConnId, conns: seq<ConnId>, p: ConnId -> bool)
    ensures Filter([c] + conns, p) == if p(c) then [c] + Filter(conns, p) else Filter(conns, p)
  {
    assert ([c] + conns)[1..] == conns;
  }

  /** A new connection goes to the front of the global list and of its ends' lists. */
  lemma AttachLists(g: Graph, e: Connection, x: SlotId)
    requires Inv(g) && ListsOk(g, x)
    ensures ListsOk(Attach(g, e), x)
  {
    hide Filter, NamesOk, LogOk;
    var c, h := g.made, Attach(g, e);
    forall k | k in g.conns ensures Enters(h.info, x)(k) == Enters(g.info, x)(k) && Leaves(h.info, x)(k) == Leaves(g.info, x)(k) {
      assert EdgeOk(g, k);
    }
    FilterCons(c, g.conns, Enters(h.info, x));
    FilterCons(c, g.conns, Leaves(h.info, x));
    FilterSame(g.conns, Enters(h.info, x), Enters(g.info, x));
    FilterSame(g.conns, Leaves(h.info, x), Leaves(g.info, x));
  }

  lemma AttachKeeps(g: Graph, e: Connection)
    requires Inv(g) && e.to in g.slots && (e.from.Some? ==> e.from.value in g.slots)
    ensures Inv(Attach(g, e))
  {
    hide Filter, NamesOk, LogOk, ListsOk;
    var h := Attach(g, e);
    LogOn(g, ConnectionAdded(e));
    SameNames(g, h);
    SameLog(Emit(g, ConnectionAdded(e)), h);
    forall x | x in h.slots ensures ListsOk(h, x) && BindingOk(h, x) {
      assert ListsOk(g, x) && BindingOk(g, x);
      AttachLists(g, e, x);
    }
    forall k | k in h.conns ensures EdgeOk(h, k) { assert k != g.made ==> EdgeOk(g, k); }
    forall k | k in g.conns ensures k < g.made { assert EdgeOk(g, k); }
    assert h.conns[0] == g.made && h.conns[1..] == g.conns;
    forall i, j | 0 <= i < j < |h.conns| ensures h.conns[i] != h.conns[j] {
      assert h.conns[j] == g.conns[j - 1] && g.conns[j - 1] in g.conns;
    }
  }

  lemma RetuneKeeps(g: Graph, c: ConnId, mode: Mode, stateful: bool)
    requires Inv(g)
    ensures Inv(Retune(g, c, mode, stateful).0)
  {
    hide Filter, NamesOk, LogOk;
    if Retune(g, c, mode, stateful).1 == OK {
      var h, e := Retune(g, c, mode, stateful).0, g.info[c].(mode := mode, stateful := stateful);
      LogOn(g, ConnectionRetuned(e));
      SameNames(g, h);
      SameLog(Emit(g, ConnectionRetuned(e)), h);
      forall x | x in h.slots ensures ListsOk(h, x) && BindingOk(h, x) {
        assert ListsOk(g, x) && BindingOk(g, x);
        FilterSame(g.conns, Enters(h.info, x), Enters(g.info, x));
        FilterSame(g.conns, Leaves(h.info, x), Leaves(g.info, x));
      }
      forall k | k in h.conns ensures EdgeOk(h, k) { assert EdgeOk(g, k); }
    }
  }

  lemma DisconnectLists(g: Graph, c: ConnId, x: SlotId)
    requires Inv(g) && Disconnect(g, c).1 == OK && ListsOk(g, x) && x in g.slots
    ensures ListsOk(Disconnect(g, c).0, x)
  {
    hide Filter, NamesOk, LogOk, Without;
    assert EdgeOk(g, c);
    FilterWithout(g.conns, c, Enters(g.info, x));
    FilterWithout(g.conns, c, Leaves(g.info, x));
  }

  lemma DisconnectKeeps(g: Graph, c: ConnId)
    requires Inv(g)
    ensures Inv(Disconnect(g, c).0)
  {
    hide Filter, NamesOk, LogOk, ListsOk, Without;
    if Disconnect(g, c).1 == OK {
      var h, e := Disconnect(g, c).0, g.info[c];
      LogOn(g, ConnectionRemoved(e));
      SameNames(g, h);
      SameLog(Emit(g, ConnectionRemoved(e)), h);
      WithoutIs(g.conns, c);
      forall x | x in h.slots ensures ListsOk(h, x) && BindingOk(h, x) {
        assert ListsOk(g, x) && BindingOk(g, x);
        DisconnectLists(g, c, x);
      }
      forall k | k in h.conns ensures EdgeOk(h, k) { assert EdgeOk(g, k); }
    }
  }

  // ---------------------------------------------------------------- all mutations

  /** A slot may be registered unbound, or bound to a component that is registered. */
  predicate Fits(g: Graph, s: Step) {
    s.AddSlot? && RegisterSlot(g, s.s).1 == OK ==> BindingOk(g, s.s)
  }

  lemma StepExactly(g: Graph, s: Step)
    requires Inv(g)
    ensures Inv(Next(g, s).0) <==> Fits(g, s)
  {
    hide Inv, RegisterSlot, SwapSlot, UnregisterSlot, RegisterComponent, UnregisterComponent, SetStage, Attach, Retune, Disconnect;
    match s {
      case AddSlot(x) => RegisterSlotExactly(g, x);
      case Swap(x, c) => SwapKeeps(g, x, c);
      case DropSlot(x) => UnregisterSlotKeeps(g, x);
      case AddComponent(c) => AddComponentKeeps(g, c);
      case DropComponent(c) => DropComponentKeeps(g, c);
      case SetTo(c, to) => SetStageKeeps(g, c, to);
      case AddEdge(from, to, mode, stateful, policy) =>
        if Connect(g, from, to, mode, stateful, policy).1 == OK {
          AttachKeeps(g, Connection(from, to.value, mode, stateful, policy));
        }
      case Tune(c, mode, stateful) => RetuneKeeps(g, c, mode, stateful);
      case DropEdge(c) => DisconnectKeeps(g, c);
    }
  }

  /** An empty registry in a world of named objects. */
  predicate Fresh(g: Graph) {
    g.slots == [] && g.conns == [] && g.generation == 0 && g.events == []
  }

  function Run(g: Graph, steps: seq<Step>): Option<Graph> {
    if steps == [] then Some(g)
    else
      var before, s := Run(g, steps[..|steps| - 1]), steps[|steps| - 1];
      if before.Some? && Fits(before.value, s) then Some(Next(before.value, s).0) else None
  }

  lemma {:induction false} RunInv(g: Graph, steps: seq<Step>)
    requires Inv(g)
    ensures Run(g, steps).Some? ==> Inv(Run(g, steps).value)
  {
    hide Inv, Next, Fits;
    if steps != [] {
      RunInv(g, steps[..|steps| - 1]);
      var before, s := Run(g, steps[..|steps| - 1]), steps[|steps| - 1];
      if before.Some? { StepExactly(before.value, s); }
    }
  }

  /** After any run: no edge or binding leads out of the registry, each slot's lists are the
      global list filtered, and the events are numbered without a gap. */
  lemma NothingDangles(g: Graph, steps: seq<Step>, s: SlotId, c: ConnId)
    requires Fresh(g) && Run(g, steps).Some?
    ensures var h := Run(g, steps).value;
            && (s in h.slots ==> h.In(s) == Filter(h.conns, Enters(h.info, s)) && h.Out(s) == Filter(h.conns, Leaves(h.info, s)))
            && (s in h.slots && h.Bound(s).Some? ==> h.Bound(s).value in h.comps)
            && (c in h.conns ==> EdgeOk(h, c))
            && |h.events| == h.generation && forall i | 0 <= i < |h.events| :: h.events[i].generation == i + 1
  {
    hide Run, Filter;
    RunInv(g, steps);
    var h := Run(g, steps).value;
    assert s in h.slots ==> ListsOk(h, s) && BindingOk(h, s);
    assert c in h.conns ==> EdgeOk(h, c);
  }

  // ---------------------------------------------------------------- a binding left behind

  /** One slot and one component, neither registered. */
  function Bare(): Graph {
    Graph([], [], [], map[], map[], map[], map[], map[], map[0 := 0], map[0 := (0, 0)], 0, 0, [])
  }

  /** Both are registered and bound; the slot goes while still bound, then the component,
      which no registered slot holds any more. */
  const LEFT_BEHIND: seq<Step> := [] + [AddSlot(0)] + [AddComponent(0)] + [Swap(0, Some(0))] + [DropSlot(0)] + [DropComponent(0)]

  predicate Goes(g: Graph, s: Step, h: Graph) {
    Fits(g, s) && Next(g, s).0 == h
  }

  lemma Onward(g: Graph, steps: seq<Step>, mid: Graph, s: Step, h: Graph)
    requires Run(g, steps) == Some(mid) && Goes(mid, s, h)
    ensures Run(g, steps + [s]) == Some(h)
  {
    assert (steps + [s])[..|steps|] == steps;
  }

  function Event0(n: nat, what: Change): Event {
    Stamped(n, what)
  }

  function Bare1(): Graph {
    Bare().(slots := [0], incoming := map[0 := []], outgoing := map[0 := []], generation := 1, events := [Event0(1, SlotCreated(0))])
  }

  function Bare2(): Graph {
    Bare1().(comps := [0], generation := 2, events := Bare1().events + [Event0(2, ComponentRegistered(0))])
  }

  function Bare3(): Graph {
    Bare2().(active := map[0 := 0], generation := 3, events := Bare2().events + [Event0(3, SlotSwapped(0, None, Some(0)))])
  }

  function Bare4(): Graph {
    Bare3().(slots := [], incoming := map[], outgoing := map[], generation := 4, events := Bare3().events + [Event0(4, SlotDestroyed(0))])
  }

  function Bare5(): Graph {
    Bare4().(comps := [], generation := 5, events := Bare4().events + [Event0(5, ComponentUnregistered(0))])
  }

  lemma BareSteps()
    ensures Goes(Bare(), AddSlot(0), Bare1()) && Goes(Bare1(), AddComponent(0), Bare2()) && Goes(Bare2(), Swap(0, Some(0)), Bare3())
  {
  }

  lemma BareDrops()
    ensures Goes(Bare3(), DropSlot(0), Bare4()) && Goes(Bare4(), DropComponent(0), Bare5())
  {
    var lists: map<SlotId, seq<ConnId>> := map[0 := []];
    assert lists - {0} == map[] && [0][1..] == [];
  }

  /** Registering the slot again brings the old binding back, to a component that is gone. */
  lemma StaleBindingFails()
    ensures Fresh(Bare())
    ensures var r := Run(Bare(), LEFT_BEHIND);
            r.Some? && Inv(r.value) && RegisterSlot(r.value, 0).1 == OK && !Inv(RegisterSlot(r.value, 0).0)
  {
    hide Inv, Goes, Bare1, Bare2, Bare3, Bare4;
    BareSteps();
    BareDrops();
    var g := Bare();
    assert Run(g, []) == Some(g);
    Onward(g, [], g, AddSlot(0), Bare1());
    Onward(g, [] + [AddSlot(0)], Bare1(), AddComponent(0), Bare2());
    Onward(g, [] + [AddSlot(0)] + [AddComponent(0)], Bare2(), Swap(0, Some(0)), Bare3());
    Onward(g, [] + [AddSlot(0)] + [AddComponent(0)] + [Swap(0, Some(0))], Bare3(), DropSlot(0), Bare4());
    Onward(g, [] + [AddSlot(0)] + [AddComponent(0)] + [Swap(0, Some(0))] + [DropSlot(0)], Bare4(), DropComponent(0), Bare5());
    FreshInv(g);
    RunInv(g, LEFT_BEHIND);
    StaleBinding(Bare5());
    RegisterSlotExactly(Bare5(), 0);
  }

  lemma FreshInv(g: Graph)
    requires Fresh(g)
    ensures Inv(g)
  {
  }

  lemma StaleBinding(g: Graph)
    requires g == Bare5()
    ensures RegisterSlot(g, 0).1 == OK && !BindingOk(g, 0)
  {
  }
}
