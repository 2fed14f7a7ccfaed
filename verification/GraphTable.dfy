/** framework/registry.c in place: the lists, the generation counter and the log ring that
    every mutation updates, proved against GraphLists. */
module GraphTable {
  import opened Composition
  import opened Sequences
  import opened ChangeLog
  import opened GraphLists

  class Tables {
    var slots: seq<SlotId>
    var comps: seq<CompId>
    var conns: seq<ConnId>
    var info: map<ConnId, Connection>
    var incoming: map<SlotId, seq<ConnId>>
    var outgoing: map<SlotId, seq<ConnId>>
    var active: map<SlotId, CompId>
    var stage: map<CompId, Stage>
    const slotNames: map<SlotId, Name>
    const compNames: map<CompId, (Name, Name)>
    var made: nat
    var generation: nat
    const log: Ring<Change>

    ghost predicate Valid()
      reads this, log, log.ring
    {
      log.Valid()
    }

    ghost function Value(): Graph
      reads this, log
    {
      Graph(slots, comps, conns, info, incoming, outgoing, active, stage, slotNames, compNames, made, generation, log.history)
    }

    constructor (slotNames: map<SlotId, Name>, compNames: map<CompId, (Name, Name)>, capacity: nat)
      requires capacity > 0
      ensures Valid() && Fresh(Value()) && log.ring.Length == capacity && fresh(log) && fresh(log.ring)
    {
      slots, comps, conns, info, incoming, outgoing := [], [], [], map[], map[], map[];
      active, stage, made, generation := map[], map[], 0, 0;
      this.slotNames, this.compNames := slotNames, compNames;
      var ring := new Ring<Change>(capacity, SlotCreated(0));
      log := ring;
    }

    /** `bump_gen` and `emit_event`. */
    method Announce(what: Change)
      requires Valid()
      modifies this`generation, log, log.ring
      ensures Valid() && Value() == Emit(old(Value()), what)
    {
      generation := generation + 1;
      log.Append(Stamped(generation, what));
    }

    method NameOnList(n: Name) returns (found: bool)
      ensures found == NameTaken(Value(), n)
    {
      for i := 0 to |slots|
        invariant forall s | s in slots[..i] :: s in slotNames ==> slotNames[s] != n
      {
        if slots[i] in slotNames && slotNames[slots[i]] == n { return true; }
        assert slots[..i + 1] == slots[..i] + [slots[i]];
      }
      assert slots[..|slots|] == slots;
      return false;
    }

    method IdentityOnList(n: (Name, Name)) returns (found: bool)
      ensures found == IdentityTaken(Value(), n)
    {
      for i := 0 to |comps|
        invariant forall c | c in comps[..i] && c in compNames :: compNames[c] != n || Value().StageOf(c) == Destroyed
      {
        var c := comps[i];
        var st := if c in stage then stage[c] else Uninit;
        if st != Destroyed && c in compNames && compNames[c] == n {
          assert c in comps;
          return true;
        }
        assert comps[..i + 1] == comps[..i] + [comps[i]];
      }
      assert comps[..|comps|] == comps;
      return false;
    }

    method BoundSomewhere(c: CompId) returns (found: bool)
      ensures found == IsBound(Value(), c)
    {
      for i := 0 to |slots|
        invariant forall s | s in slots[..i] :: Value().Bound(s) != Some(c)
      {
        if slots[i] in active && active[slots[i]] == c {
          assert slots[i] in slots && Value().Bound(slots[i]) == Some(c);
          return true;
        }
        assert slots[..i + 1] == slots[..i] + [slots[i]];
      }
      assert slots[..|slots|] == slots;
      return false;
    }

    method AddSlotNode(s: SlotId) returns (rc: Status)
      requires Valid()
      modifies this`slots, this`incoming, this`outgoing, this`generation, log, log.ring
      ensures Valid() && (Value(), rc) == RegisterSlot(old(Value()), s)
    {
      if s !in slotNames { return EINVAL; }
      var taken := NameOnList(slotNames[s]);
      if taken { return EEXIST; }
      slots, incoming, outgoing := [s] + slots, incoming[s := []], outgoing[s := []];
      Announce(SlotCreated(s));
      return OK;
    }

    method SwapActive(s: SlotId, c: Option<CompId>) returns (rc: Status)
      requires Valid()
      modifies this`active, this`generation, log, log.ring
      ensures Valid() && (Value(), rc) == SwapSlot(old(Value()), s, c)
    {
      var known := OnList(slots, s);
      if !known { return ENOENT; }
      if c.Some? {
        var registered := OnList(comps, c.value);
        if !registered { return ENOENT; }
      }
      var was := if s in active then Some(active[s]) else None;
      active := if c.Some? then active[s := c.value] else active - {s};
      Announce(SlotSwapped(s, was, c));
      return OK;
    }

    method DropSlotNode(s: SlotId) returns (rc: Status)
      requires Valid()
      modifies this`slots, this`incoming, this`outgoing, this`generation, log, log.ring
      ensures Valid() && (Value(), rc) == UnregisterSlot(old(Value()), s)
    {
      hide Without;
      var known := OnList(slots, s);
      if !known { return ENOENT; }
      if (s in incoming && incoming[s] != []) || (s in outgoing && outgoing[s] != []) { return EBUSY; }
      slots := Unlink(slots, s);
      incoming, outgoing := incoming - {s}, outgoing - {s};
      Announce(SlotDestroyed(s));
      return OK;
    }

    method AddComponentNode(c: CompId) returns (rc: Status)
      requires Valid()
      modifies this`comps, this`generation, log, log.ring
      ensures Valid() && (Value(), rc) == RegisterComponent(old(Value()), c)
    {
      if c !in compNames { return EINVAL; }
      var taken := IdentityOnList(compNames[c]);
      if taken { return EEXIST; }
      comps := [c] + comps;
      Announce(ComponentRegistered(c));
      return OK;
    }

    method DropComponentNode(c: CompId) returns (rc: Status)
      requires Valid()
      modifies this`comps, this`generation, log, log.ring
      ensures Valid() && (Value(), rc) == UnregisterComponent(old(Value()), c)
    {
      hide Without;
      var known := OnList(comps, c);
      if !known { return ENOENT; }
      var bound := BoundSomewhere(c);
      if bound { return EBUSY; }
      comps := Unlink(comps, c);
      Announce(ComponentUnregistered(c));
      return OK;
    }

    method SetState(c: CompId, to: Stage) returns (rc: Status)
      requires Valid()
      modifies this`stage, this`generation, log, log.ring
      ensures Valid() && (Value(), rc) == SetStage(old(Value()), c, to)
    {
      var known := OnList(comps, c);
      if !known { return ENOENT; }
      var was := if c in stage then stage[c] else Uninit;
      stage := stage[c := to];
      Announce(ComponentState(c, was, to));
      return OK;
    }

    method AddConnection(from: Option<SlotId>, to: Option<SlotId>, mode: Mode, stateful: bool, policy: Policy) returns (rc: Status, c: ConnId)
      requires Valid()
      modifies this`conns, this`info, this`made, this`incoming, this`outgoing, this`generation, log, log.ring
      ensures Valid() && (Value(), rc) == Connect(old(Value()), from, to, mode, stateful, policy)
      ensures rc == OK ==> c == old(made)
    {
      hide Attach;
      c := made;
      if to.None? { return EINVAL, c; }
      var known := OnList(slots, to.value);
      if !known { return ENOENT, c; }
      if from.Some? {
        var knownFrom := OnList(slots, from.value);
        if !knownFrom { return ENOENT, c; }
      }
      AttachEdge(Connection(from, to.value, mode, stateful, policy));
      return OK, c;
    }

    /** The new edge goes to the front of the global list and of both ends' lists. */
    method AttachEdge(e: Connection)
      requires Valid()
      modifies this`conns, this`info, this`made, this`incoming, this`outgoing, this`generation, log, log.ring
      ensures Valid() && Value() == Attach(old(Value()), e)
    {
      hide Emit;
      var c := made;
      var ins := [c] + if e.to in incoming then incoming[e.to] else [];
      var outs := outgoing;
      if e.from.Some? {
        var s := e.from.value;
        outs := outgoing[s := [c] + if s in outgoing then outgoing[s] else []];
      }
      info, made, conns, incoming, outgoing := info[c := e], made + 1, [c] + conns, incoming[e.to := ins], outs;
      Announce(ConnectionAdded(e));
    }

    method TuneConnection(c: ConnId, mode: Mode, stateful: bool) returns (rc: Status)
      requires Valid()
      modifies this`info, this`generation, log, log.ring
      ensures Valid() && (Value(), rc) == Retune(old(Value()), c, mode, stateful)
    {
      var known := OnList(conns, c);
      if !known || c !in info { return ENOENT; }
      var e := info[c].(mode := mode, stateful := stateful);
      info := info[c := e];
      Announce(ConnectionRetuned(e));
      return OK;
    }

    method DropConnection(c: ConnId) returns (rc: Status)
      requires Valid()
      modifies this`conns, this`incoming, this`outgoing, this`generation, log, log.ring
      ensures Valid() && (Value(), rc) == Disconnect(old(Value()), c)
    {
      hide Without;
      var known := OnList(conns, c);
      if !known || c !in info { return ENOENT; }
      conns := Unlink(conns, c);
      var e := info[c];
      var knownTo := OnList(slots, e.to);
      if knownTo {
        var less := Unlink(if e.to in incoming then incoming[e.to] else [], c);
        incoming := incoming[e.to := less];
      }
      if e.from.Some? {
        var knownFrom := OnList(slots, e.from.value);
        if knownFrom {
          var less := Unlink(if e.from.value in outgoing then outgoing[e.from.value] else [], c);
          outgoing := outgoing[e.from.value := less];
        }
      }
      Announce(ConnectionRemoved(e));
      return OK;
    }
  }
}
