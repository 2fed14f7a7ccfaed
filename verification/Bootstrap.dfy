/** framework/bootstrap.c: bind components to the boot slots, then bring them up in
    dependency order; and what the build-time cycle check buys the boot. */
module Bootstrap {
  import opened Composition
  import opened Digraph
  import opened Sequences
  import opened CycleFinder

  datatype Dep = Dep(name: Name, required: bool)

  datatype Descriptor = Descriptor(name: Name, deps: seq<Dep>)

  /** A row of the generated slot table; `impl` names the component that fills it. */
  datatype BootSlot = BootSlot(name: Name, impl: Option<Name>)

  // ---------------------------------------------------------------- binding

  /** `find_slot_for`: the first row naming the component. */
  function FindSlot(table: seq<BootSlot>, name: Name): (r: Option<Name>)
    ensures r.Some? ==> exists b :: b in table && b.impl == Some(name) && b.name == r.value
    ensures r.None? ==> forall b | b in table :: b.impl != Some(name)
  {
    if table == [] then None
    else if table[0].impl == Some(name) then assert table[0] in table; Some(table[0].name)
    else FindSlot(table[1..], name)
  }

  type Bindings = map<Name, nat>

  /** Slot name to descriptor index, after the registration pass over `descs`. */
  function Bind(table: seq<BootSlot>, descs: seq<Descriptor>): (active: Bindings)
    ensures forall s | s in active :: active[s] < |descs| && FindSlot(table, descs[active[s]].name) == Some(s)
    ensures forall i | 0 <= i < |descs| && FindSlot(table, descs[i].name).Some? :: FindSlot(table, descs[i].name).value in active
  {
    if descs == [] then map[]
    else
      var n := |descs| - 1;
      var front := Bind(table, descs[..n]);
      var s := FindSlot(table, descs[n].name);
      if s.Some? then front[s.value := n] else front
  }

  /** Component `i` requires the component bound to one of its required slots, `j`. */
  ghost predicate Needs(descs: seq<Descriptor>, active: Bindings, i: nat, j: nat) {
    i < |descs| && exists d :: d in descs[i].deps && d.required && d.name in active && active[d.name] == j
  }

  ghost function NeedEdges(descs: seq<Descriptor>, active: Bindings): set<(nat, nat)>
    requires forall s | s in active :: active[s] < |descs|
  {
    set i: nat, j: nat | i < |descs| && j < |descs| && Needs(descs, active, i, j) :: (i, j)
  }

  predicate Bound(active: Bindings, deps: seq<Dep>) {
    forall d | d in deps && d.required :: d.name in active
  }

  ghost predicate AllBound(descs: seq<Descriptor>, active: Bindings) {
    forall i | 0 <= i < |descs| :: Bound(active, descs[i].deps)
  }

  // ---------------------------------------------------------------- readiness

  ghost predicate Ready(descs: seq<Descriptor>, active: Bindings, visited: seq<bool>, i: nat)
    requires i < |descs| && |visited| == |descs|
  {
    && Bound(active, descs[i].deps)
    && forall j | 0 <= j < |descs| && Needs(descs, active, i, j) :: visited[j]
  }

  method DepsReady(descs: seq<Descriptor>, active: Bindings, visited: array<bool>, i: nat) returns (ready: bool)
    requires i < |descs| && visited.Length == |descs|
    requires forall s | s in active :: active[s] < |descs|
    ensures ready <==> Ready(descs, active, visited[..], i)
  {
    var deps := descs[i].deps;
    for k := 0 to |deps|
      invariant forall d | d in deps[..k] && d.required :: d.name in active && visited[active[d.name]]
    {
      assert deps[..k + 1] == deps[..k] + [deps[k]] && deps[k] in deps;
      if !deps[k].required { continue; }
      if deps[k].name !in active { return false; }
      if !visited[active[deps[k].name]] {
        assert Needs(descs, active, i, active[deps[k].name]);
        return false;
      }
    }
    assert deps[..|deps|] == deps;
    ready := true;
  }

  // ---------------------------------------------------------------- the bring-up loop

  /** What resolving, initialising and enabling a component returns. */
  datatype Bring = Bring(resolve: Status, init: Status, enable: Status)

  predicate Works(b: Bring) {
    b.resolve == OK && b.init == OK && b.enable == OK
  }

  /** Components in the order they were initialised: each once, after all it requires. */
  ghost predicate InitOrder(descs: seq<Descriptor>, active: Bindings, order: seq<nat>) {
    && Distinct(order)
    && (forall i | i in order :: i < |descs|)
    && (forall k | 0 <= k < |order| ::
          order[k] < |descs| && Bound(active, descs[order[k]].deps)
          && forall j: nat | Needs(descs, active, order[k], j) :: j in order[..k])
  }

  ghost predicate Marks(visited: seq<bool>, order: seq<nat>) {
    forall i: nat | i < |visited| :: visited[i] <==> i in order
  }

  lemma OrderGrows(descs: seq<Descriptor>, active: Bindings, visited: seq<bool>, order: seq<nat>, i: nat)
    requires InitOrder(descs, active, order) && i < |descs| && i !in order
    requires |visited| == |descs| && Marks(visited, order) && Ready(descs, active, visited, i)
    requires forall s | s in active :: active[s] < |descs|
    ensures InitOrder(descs, active, order + [i])
  {
    var longer := order + [i];
    forall k | 0 <= k < |longer|
      ensures longer[k] < |descs| && Bound(active, descs[longer[k]].deps)
      ensures forall j: nat | Needs(descs, active, longer[k], j) :: j in longer[..k]
    {
      if k < |order| {
        assert longer[k] == order[k] && longer[..k] == order[..k];
      } else {
        assert longer[..k] == order;
        forall j: nat | Needs(descs, active, i, j) ensures j in order {
          assert visited[j];
        }
      }
    }
  }

  /** Nobody left is ready though everything is bound: the requirements are cyclic. */
  lemma StuckIsCyclic(descs: seq<Descriptor>, active: Bindings, visited: seq<bool>, order: seq<nat>)
    requires InitOrder(descs, active, order) && |order| < |descs| && |visited| == |descs| && Marks(visited, order)
    requires forall s | s in active :: active[s] < |descs|
    requires forall i: nat | i < |descs| && i !in order :: !Ready(descs, active, visited, i)
    ensures !AllBound(descs, active) || !Acyclic(NeedEdges(descs, active))
  {
    hide InitOrder, Acyclic, Marks, Ready, AllBound, NeedEdges;
    if AllBound(descs, active) {
      var left := set i: nat | i < |descs| && i !in order;
      OrderDistinct(descs, active, order);
      DistinctLength(|descs|, order);
      var spare: nat :| spare < |descs| && spare !in order;
      assert spare in left;
      forall i | i in left ensures HasSuccessor(left, NeedEdges(descs, active), i) {
        StuckNeeds(descs, active, visited, order, i, left);
      }
      SuccessorsCycle(left, NeedEdges(descs, active));
    }
  }

  lemma OrderDistinct(descs: seq<Descriptor>, active: Bindings, order: seq<nat>)
    requires InitOrder(descs, active, order)
    ensures Distinct(order) && forall v | v in order :: v < |descs|
  {
  }

  /** One that is not ready needs another that is not up either. */
  lemma StuckNeeds(descs: seq<Descriptor>, active: Bindings, visited: seq<bool>, order: seq<nat>, i: nat, left: set<nat>)
    requires i < |descs| && |visited| == |descs| && Marks(visited, order) && AllBound(descs, active)
    requires (forall s | s in active :: active[s] < |descs|) && !Ready(descs, active, visited, i)
    requires left == (set k: nat | k < |descs| && k !in order)
    ensures HasSuccessor(left, NeedEdges(descs, active), i)
  {
    var j :| 0 <= j < |descs| && Needs(descs, active, i, j) && !visited[j];
    assert j in left && (i, j) in NeedEdges(descs, active);
  }

  /** A complete order shows everything bound and nothing cyclic. */
  lemma CompleteIsAcyclic(descs: seq<Descriptor>, active: Bindings, order: seq<nat>)
    requires InitOrder(descs, active, order) && |order| == |descs|
    requires forall s | s in active :: active[s] < |descs|
    ensures AllBound(descs, active) && Acyclic(NeedEdges(descs, active))
  {
    DistinctLength(|descs|, order);
    forall i | 0 <= i < |descs| ensures Bound(active, descs[i].deps) {
      var k := FirstIndex(order, i);
      assert order[k] == i;
    }
    var rank: map<nat, int> := map i | i in order :: |order| - FirstIndex(order, i);
    forall e | e in NeedEdges(descs, active) ensures e.0 in rank && e.1 in rank && rank[e.0] < rank[e.1] {
      var k := FirstIndex(order, e.0);
      assert order[k] == e.0 && e.1 in order[..k];
      FirstIndexPrefix(order, k, e.1);
    }
    RankedIsAcyclic(NeedEdges(descs, active), rank);
  }

  /** Step 3 of the bootstrap.  `order` lists the components whose `init` went through;
      `stalled` tells the loop's own NX_ELOOP from an error a component returned. */
  method BringUp(descs: seq<Descriptor>, active: Bindings, bound: seq<bool>, env: nat -> Bring)
    returns (rc: Status, order: seq<nat>, stalled: bool)
    requires |bound| == |descs|
    requires forall s | s in active :: active[s] < |descs|
    ensures InitOrder(descs, active, order)
    ensures rc == OK ==> Permutation(|descs|, order)
    ensures rc == OK ==> AllBound(descs, active) && Acyclic(NeedEdges(descs, active))
    ensures stalled ==> rc == ELOOP && (!AllBound(descs, active) || !Acyclic(NeedEdges(descs, active)))
    ensures rc != OK && !stalled ==> exists i: nat :: i < |descs| && !Works(env(i))
    ensures (forall i: nat | i < |descs| :: Works(env(i))) ==>
              (rc == OK <==> AllBound(descs, active) && Acyclic(NeedEdges(descs, active)))
  {
    var n := |descs|;
    var visited := new bool[n](_ => false);
    order := [];
    while |order| < n
      invariant InitOrder(descs, active, order) && Marks(visited[..], order)
      invariant |order| <= n
      decreases n - |order|
    {
      var progressed := false;
      ghost var before := order;
      for i := 0 to n
        invariant InitOrder(descs, active, order) && Marks(visited[..], order)
        invariant if progressed then |order| > |before| else order == before
        invariant !progressed ==> forall k: nat | k < i && k !in order :: !Ready(descs, active, visited[..], k)
      {
        assert visited[..][i] == visited[i];
        if visited[i] { continue; }
        var ready := DepsReady(descs, active, visited, i);
        if !ready { continue; }
        if env(i).resolve != OK { return env(i).resolve, order, false; }
        if env(i).init != OK { return env(i).init, order, false; }
        OrderGrows(descs, active, visited[..], order, i);
        order := order + [i];
        if bound[i] && env(i).enable != OK { return env(i).enable, order, false; }
        visited[i] := true;
        progressed := true;
      }
      DistinctLength(n, order);
      if !progressed {
        StuckIsCyclic(descs, active, visited[..], order);
        return ELOOP, order, true;
      }
    }
    CompleteIsAcyclic(descs, active, order);
    assert forall k | 0 <= k < n :: order[k] in order;
    return OK, order, false;
  }

  // ---------------------------------------------------------------- what validation buys

  /** The kernel image was generated from the configuration that was validated. */
  ghost predicate Generated(impl: map<Name, Name>, manifests: map<Name, Manifest>,
                            table: seq<BootSlot>, descs: seq<Descriptor>) {
    && (forall b | b in table :: b.impl.Some? ==> b.name in impl && impl[b.name] == b.impl.value)
    && (forall d | d in descs :: d.name in manifests
          && forall dep | dep in d.deps && dep.required :: dep.name in manifests[d.name].required)
  }

  /** A required edge between bound components is an edge between their slots. */
  lemma NeedIsSlotEdge(impl: map<Name, Name>, manifests: map<Name, Manifest>, table: seq<BootSlot>,
                       descs: seq<Descriptor>, i: nat, j: nat)
    requires Generated(impl, manifests, table, descs)
    requires i < |descs| && j < |descs| && Needs(descs, Bind(table, descs), i, j)
    requires FindSlot(table, descs[i].name).Some?
    ensures FindSlot(table, descs[j].name).Some?
    ensures DependsOn(impl, manifests, FindSlot(table, descs[i].name).value, FindSlot(table, descs[j].name).value)
  {
    var active := Bind(table, descs);
    var dep :| dep in descs[i].deps && dep.required && dep.name in active && active[dep.name] == j;
    assert descs[i] in descs && descs[j] in descs;
    var b :| b in table && b.impl == Some(descs[i].name) && b.name == FindSlot(table, descs[i].name).value;
    var t :| t in table && t.impl == Some(descs[j].name) && t.name == FindSlot(table, descs[j].name).value;
  }

  lemma NeedHasSlot(table: seq<BootSlot>, descs: seq<Descriptor>, i: nat, j: nat)
    requires i < |descs| && j < |descs| && Needs(descs, Bind(table, descs), i, j)
    ensures FindSlot(table, descs[j].name).Some?
  {
  }

  /** If the validator finds no cycle among the slots, the requirements of the components,
      unbound alternatives included, have none either. */
  lemma ValidatedIsAcyclic(impl: map<Name, Name>, manifests: map<Name, Manifest>, graph: Graph,
                           table: seq<BootSlot>, descs: seq<Descriptor>)
    requires Generated(impl, manifests, table, descs)
    requires forall s, d :: (s, d) in EdgesOf(graph) <==> DependsOn(impl, manifests, s, d)
    requires Acyclic(EdgesOf(graph))
    ensures Acyclic(NeedEdges(descs, Bind(table, descs)))
  {
    var needs := NeedEdges(descs, Bind(table, descs));
    var placed := set i: nat | i < |descs| && FindSlot(table, descs[i].name).Some?;
    var inner := set e | e in needs && e.0 in placed;
    var slotOf := (i: nat) => if i < |descs| && FindSlot(table, descs[i].name).Some? then FindSlot(table, descs[i].name).value else "";
    forall e | e in inner ensures (slotOf(e.0), slotOf(e.1)) in EdgesOf(graph) {
      NeedIsSlotEdge(impl, manifests, table, descs, e.0, e.1);
    }
    PullbackAcyclic<nat, Name>(inner, EdgesOf(graph), slotOf);
    forall e | e in needs ensures e.1 in placed {
      NeedHasSlot(table, descs, e.0, e.1);
    }
    TrimAcyclic(needs, placed);
  }

  /** Validate, then boot: with every required slot bound the bring-up loop never stalls. */
  method ValidateThenBoot(slots: seq<Name>, impl: map<Name, Name>, manifests: map<Name, Manifest>,
                          table: seq<BootSlot>, descs: seq<Descriptor>, env: nat -> Bring)
    returns (cycle: Option<seq<Name>>, rc: Status, order: seq<nat>, stalled: bool)
    requires forall s :: s in slots <==> s in impl
    requires Generated(impl, manifests, table, descs)
    requires AllBound(descs, Bind(table, descs))
    ensures cycle.None? ==> !stalled && InitOrder(descs, Bind(table, descs), order)
    ensures cycle.None? && (forall i: nat | i < |descs| :: Works(env(i))) ==> rc == OK && Permutation(|descs|, order)
  {
    var graph := BuildDepGraph(slots, impl, manifests);
    cycle := FindCycle(graph, slots);
    if cycle.Some? { return cycle, EINVAL, [], false; }
    ValidatedIsAcyclic(impl, manifests, graph, table, descs);
    var bound := seq(|descs|, i requires 0 <= i < |descs| => FindSlot(table, descs[i].name).Some?);
    rc, order, stalled := BringUp(descs, Bind(table, descs), bound, env);
  }
}
