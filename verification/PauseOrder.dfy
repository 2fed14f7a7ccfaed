/** `build_pause_order` of framework/recompose.c: collect the slots a plan touches,
    read the edges among them out of the registry, and peel sources (Kahn) so that
    dependents come before dependencies. */
module PauseOrder {
  import opened Composition
  import opened Digraph
  import opened Sequences

  // ---------------------------------------------------------------- affected slots

  /** Targets of REWIRE entries not met before, appended in plan order. */
  function AddRewired(found: seq<SlotId>, connections: seq<ConnChange>): seq<SlotId> {
    if connections == [] then found
    else
      var front := AddRewired(found, connections[..|connections| - 1]);
      var last := connections[|connections| - 1];
      if last.action == Rewire && last.to.Some? && last.to.value !in front
      then front + [last.to.value]
      else front
  }

  function Affected(changes: seq<SlotId>, connections: seq<ConnChange>): seq<SlotId> {
    AddRewired(changes, connections)
  }

  lemma {:induction false} AffectedGrows(changes: seq<SlotId>, connections: seq<ConnChange>, k: nat)
    requires k <= |connections|
    ensures |Affected(changes, connections[..k])| <= |Affected(changes, connections)|
    decreases |connections| - k
  {
    if k < |connections| {
      assert connections[..k + 1][..k] == connections[..k];
      AffectedGrows(changes, connections, k + 1);
    } else {
      assert connections[..k] == connections;
    }
  }

  /** Exactly the changed slots and the REWIRE targets; distinct if the changes are. */
  lemma {:induction false} AffectedSlots(changes: seq<SlotId>, connections: seq<ConnChange>)
    ensures changes <= Affected(changes, connections)
    ensures forall s :: s in Affected(changes, connections) <==>
                        s in changes || exists c :: c in connections && c.action == Rewire && c.to == Some(s)
    ensures Distinct(changes) ==> Distinct(Affected(changes, connections))
  {
    if connections != [] {
      var front, last := connections[..|connections| - 1], connections[|connections| - 1];
      assert connections == front + [last];
      AffectedSlots(changes, front);
    }
  }

  method CollectAffected(changes: seq<SlotId>, connections: seq<ConnChange>, maxSlots: nat)
    returns (rc: Status, found: seq<SlotId>)
    ensures rc == if |Affected(changes, connections)| > maxSlots then ENOMEM else OK
    ensures rc == OK ==> found == Affected(changes, connections)
  {
    found := [];
    for i := 0 to |changes|
      invariant found == changes[..i] && |found| <= maxSlots
    {
      if |found| >= maxSlots {
        AffectedGrows(changes, connections, 0);
        return ENOMEM, found;
      }
      found := found + [changes[i]];
    }
    assert found == changes == Affected(changes, connections[..0]);
    for i := 0 to |connections|
      invariant found == Affected(changes, connections[..i]) && |found| <= maxSlots
    {
      var cc := connections[i];
      assert connections[..i + 1][..i] == connections[..i];
      if cc.action != Rewire || cc.to.None? { continue; }
      var j := 0;
      while j < |found| && found[j] != cc.to.value
        invariant j <= |found| && cc.to.value !in found[..j]
      {
        j := j + 1;
      }
      if j == |found| {
        if |found| >= maxSlots {
          AffectedGrows(changes, connections, i + 1);
          return ENOMEM, found;
        }
        found := found + [cc.to.value];
      }
    }
    assert connections[..|connections|] == connections;
    rc := OK;
  }

  // ---------------------------------------------------------------- edges in the plan

  /** What `scan_dep_cb` records for source index `i` over the targets `ts`. */
  function ScanOne(found: seq<SlotId>, i: nat, ts: seq<SlotId>): seq<(nat, nat)> {
    if ts == [] then []
    else
      var front := ScanOne(found, i, ts[..|ts| - 1]);
      var t := ts[|ts| - 1];
      if t in found then front + [(i, FirstIndex(found, t))] else front
  }

  function ScanAll(found: seq<SlotId>, conns: seq<Connection>, n: nat): seq<(nat, nat)>
    requires n <= |found|
  {
    if n == 0 then []
    else ScanAll(found, conns, n - 1) + ScanOne(found, n - 1, Dependencies(conns, found[n - 1]))
  }

  lemma {:induction false} ScanAllGrows(found: seq<SlotId>, conns: seq<Connection>, n: nat)
    requires n <= |found|
    ensures |ScanAll(found, conns, n)| <= |ScanAll(found, conns, |found|)|
    decreases |found| - n
  {
    if n < |found| {
      ScanAllGrows(found, conns, n + 1);
    }
  }

  lemma {:induction false} ScanOneEdges(found: seq<SlotId>, i: nat, ts: seq<SlotId>)
    ensures forall e :: e in ScanOne(found, i, ts) <==>
                        e.0 == i && e.1 < |found| && found[e.1] in ts && e.1 == FirstIndex(found, found[e.1])
  {
    if ts != [] {
      var front, last := ts[..|ts| - 1], ts[|ts| - 1];
      assert ts == front + [last];
      ScanOneEdges(found, i, front);
    }
  }

  lemma {:induction false} ScanAllEdges(found: seq<SlotId>, conns: seq<Connection>, n: nat)
    requires n <= |found|
    ensures forall e :: e in ScanAll(found, conns, n) <==>
                        e.0 < n && e.1 < |found| && found[e.1] in Dependencies(conns, found[e.0])
                        && e.1 == FirstIndex(found, found[e.1])
  {
    if n > 0 {
      ScanAllEdges(found, conns, n - 1);
      ScanOneEdges(found, n - 1, Dependencies(conns, found[n - 1]));
    }
  }

  method ScanEdges(found: seq<SlotId>, conns: seq<Connection>, maxEdges: nat)
    returns (rc: Status, edges: seq<(nat, nat)>)
    ensures rc == if |ScanAll(found, conns, |found|)| > maxEdges then ENOMEM else OK
    ensures rc == OK ==> edges == ScanAll(found, conns, |found|)
  {
    edges := [];
    for i := 0 to |found|
      invariant edges == ScanAll(found, conns, i) && |edges| <= maxEdges
    {
      var outgoing := Dependencies(conns, found[i]);
      var before := edges;
      var overflow := false;
      for k := 0 to |outgoing|
        invariant !overflow ==> edges == before + ScanOne(found, i, outgoing[..k]) && |edges| <= maxEdges
        invariant overflow ==> |before| + |ScanOne(found, i, outgoing[..k])| > maxEdges
      {
        assert outgoing[..k + 1][..k] == outgoing[..k];
        var j := 0;
        while j < |found| && found[j] != outgoing[k]
          invariant j <= |found| && outgoing[k] !in found[..j]
        {
          j := j + 1;
        }
        if j < |found| {
          assert j == FirstIndex(found, outgoing[k]) by { FirstIndexIsFirst(found, j); }
          if |edges| >= maxEdges {
            overflow := true;
          } else {
            edges := edges + [(i, j)];
          }
        }
      }
      assert outgoing[..|outgoing|] == outgoing;
      if overflow {
        ScanAllGrows(found, conns, i + 1);
        return ENOMEM, edges;
      }
    }
    rc := OK;
  }

  // ---------------------------------------------------------------- peeling sources

  function EdgeSet(edges: seq<(nat, nat)>): set<(nat, nat)> {
    set e | e in edges
  }

  /** Number of edges into `j` whose source is not in `peeled`; parallel edges count apart. */
  ghost function OpenInto(edges: seq<(nat, nat)>, peeled: set<nat>, j: nat): nat {
    if edges == [] then 0
    else
      var last := edges[|edges| - 1];
      OpenInto(edges[..|edges| - 1], peeled, j) + if last.1 == j && last.0 !in peeled then 1 else 0
  }

  lemma {:induction false} OpenIntoZero(edges: seq<(nat, nat)>, peeled: set<nat>, j: nat)
    ensures OpenInto(edges, peeled, j) == 0 <==> forall e | e in edges && e.1 == j :: e.0 in peeled
  {
    if edges != [] {
      var front, last := edges[..|edges| - 1], edges[|edges| - 1];
      assert edges == front + [last];
      OpenIntoZero(front, peeled, j);
    }
  }

  ghost predicate Forward(edges: seq<(nat, nat)>, order: seq<nat>) {
    forall a, b | 0 <= a < |order| && 0 <= b < |order| && (order[a], order[b]) in edges :: a < b
  }

  ghost predicate Peeling(n: nat, edges: seq<(nat, nat)>, order: seq<nat>) {
    && Distinct(order)
    && (forall v | v in order :: v < n)
    && (forall e | e in edges && e.1 in order :: e.0 in order)
    && Forward(edges, order)
  }

  /** A vertex with no open edge extends a peeling. */
  lemma PeelOne(n: nat, edges: seq<(nat, nat)>, order: seq<nat>, i: nat)
    requires Peeling(n, edges, order) && i < n && i !in order
    requires OpenInto(edges, Elements(order), i) == 0
    ensures Peeling(n, edges, order + [i])
  {
    OpenIntoZero(edges, Elements(order), i);
    var longer := order + [i];
    forall a, b | 0 <= a < |longer| && 0 <= b < |longer| && (longer[a], longer[b]) in edges
      ensures a < b
    {
      if b == |order| {
        assert longer[a] in order;
      } else {
        assert order[b] in order && longer[a] in order;
      }
    }
  }

  /** A complete peeling is a topological order, so there is no cycle. */
  lemma CompletePeeling(n: nat, edges: seq<(nat, nat)>, order: seq<nat>)
    requires Peeling(n, edges, order) && |order| == n
    requires forall e | e in edges :: e.0 < n && e.1 < n
    ensures Acyclic(EdgeSet(edges))
  {
    DistinctLength(n, order);
    var rank := map v | v in order :: PositionOf(order, v);
    RankedIsAcyclic(EdgeSet(edges), rank);
  }

  ghost function PositionOf(order: seq<nat>, v: nat): (k: int)
    requires v in order
    ensures 0 <= k < |order| && order[k] == v
  {
    var k :| 0 <= k < |order| && order[k] == v; k
  }

  /** If everything left has an open edge into it, what is left contains a cycle. */
  lemma StuckIsCyclic(n: nat, edges: seq<(nat, nat)>, order: seq<nat>)
    requires Peeling(n, edges, order) && |order| < n
    requires forall e | e in edges :: e.0 < n && e.1 < n
    requires forall i: nat | i < n && i !in order :: OpenInto(edges, Elements(order), i) != 0
    ensures !Acyclic(EdgeSet(edges))
  {
    var left := set i: nat | i < n && i !in order;
    DistinctLength(n, order);
    var spare: nat :| spare < n && spare !in order;
    assert spare in left;
    forall i | i in left
      ensures HasPredecessor(left, EdgeSet(edges), i)
    {
      OpenIntoZero(edges, Elements(order), i);
      var e :| e in edges && e.1 == i && e.0 !in order;
      assert e.0 in left && (e.0, i) in EdgeSet(edges);
    }
    PredecessorsCycle(left, EdgeSet(edges));
  }

  /** The arrays agree with the order built so far. */
  ghost predicate Books(n: nat, edges: seq<(nat, nat)>, order: seq<nat>, done: seq<bool>, deg: seq<int>) {
    && |done| == n && |deg| == n
    && Peeling(n, edges, order)
    && (forall j | 0 <= j < n :: done[j] == (j in order))
    && (forall j | 0 <= j < n :: deg[j] == OpenInto(edges, Elements(order), j))
  }

  method CountIncoming(edges: seq<(nat, nat)>, deg: array<int>)
    requires forall e | e in edges :: e.1 < deg.Length
    modifies deg
    ensures forall j | 0 <= j < deg.Length :: deg[j] == OpenInto(edges, {}, j)
  {
    for i := 0 to deg.Length
      invariant forall j | 0 <= j < i :: deg[j] == 0
    {
      deg[i] := 0;
    }
    for e := 0 to |edges|
      invariant forall j | 0 <= j < deg.Length :: deg[j] == OpenInto(edges[..e], {}, j)
    {
      assert edges[..e + 1][..e] == edges[..e];
      deg[edges[e].1] := deg[edges[e].1] + 1;
    }
    assert edges[..|edges|] == edges;
  }

  /** Peeling `i` closes its outgoing edges. */
  method Release(edges: seq<(nat, nat)>, i: nat, deg: array<int>, ghost peeled: set<nat>)
    requires forall e | e in edges :: e.1 < deg.Length
    requires i !in peeled
    requires forall j | 0 <= j < deg.Length :: deg[j] == OpenInto(edges, peeled, j)
    modifies deg
    ensures forall j | 0 <= j < deg.Length :: deg[j] == OpenInto(edges, peeled + {i}, j)
  {
    for e := 0 to |edges|
      invariant forall j | 0 <= j < deg.Length ::
                  deg[j] == OpenInto(edges, peeled, j) - OpenInto(edges[..e], peeled, j) + OpenInto(edges[..e], peeled + {i}, j)
    {
      assert edges[..e + 1][..e] == edges[..e];
      if edges[e].0 == i {
        deg[edges[e].1] := deg[edges[e].1] - 1;
      }
    }
    assert edges[..|edges|] == edges;
  }

  /** One sweep over all vertices, peeling each that is a source when reached. */
  method Sweep(n: nat, edges: seq<(nat, nat)>, deg: array<int>, done: array<bool>, order: seq<nat>)
    returns (longer: seq<nat>)
    requires deg.Length == n && done.Length == n
    requires forall e | e in edges :: e.0 < n && e.1 < n
    requires Books(n, edges, order, done[..], deg[..])
    modifies deg, done
    ensures Books(n, edges, longer, done[..], deg[..])
    ensures |longer| >= |order|
    ensures |longer| == |order| ==>
              longer == order && forall j: nat | j < n && j !in order :: OpenInto(edges, Elements(order), j) != 0
  {
    longer := order;
    for i := 0 to n
      invariant Books(n, edges, longer, done[..], deg[..])
      invariant |longer| > |order| || longer == order
      invariant longer == order ==> forall j: nat | j < i && j !in order :: OpenInto(edges, Elements(order), j) != 0
    {
      assert done[..][i] == done[i] && deg[..][i] == deg[i];
      if done[i] || deg[i] != 0 { continue; }
      PeelOne(n, edges, longer, i);
      done[i] := true;
      Release(edges, i, deg, Elements(longer));
      assert Elements<nat>(longer + [i]) == Elements(longer) + {i};
      longer := longer + [i];
    }
  }

  method PeelSources(n: nat, edges: seq<(nat, nat)>) returns (rc: Status, order: seq<nat>)
    requires forall e | e in edges :: e.0 < n && e.1 < n
    ensures rc == if Acyclic(EdgeSet(edges)) then OK else EINVAL
    ensures rc == OK ==> Permutation(n, order) && Forward(edges, order)
  {
    var deg := new int[n];
    var done := new bool[n](_ => false);
    CountIncoming(edges, deg);
    order := [];
    assert Elements(order) == {};
    while |order| < n
      invariant Books(n, edges, order, done[..], deg[..])
      decreases n - |order|
    {
      var longer := Sweep(n, edges, deg, done, order);
      if |longer| == |order| {
        StuckIsCyclic(n, edges, order);
        return EINVAL, order;
      }
      order := longer;
    }
    DistinctLength(n, order);
    CompletePeeling(n, edges, order);
    assert forall k | 0 <= k < n :: order[k] in order;
    rc := OK;
  }

  // ---------------------------------------------------------------- the pause order

  /** The registry's edges with both ends in `found`, self-loops included. */
  ghost function PlanEdges(found: seq<SlotId>, conns: seq<Connection>): set<(SlotId, SlotId)> {
    set c | c in conns && c.from.Some? && c.from.value in found && c.to in found :: (c.from.value, c.to)
  }

  ghost predicate InPlanEdge(found: seq<SlotId>, conns: seq<Connection>, u: SlotId, v: SlotId) {
    u in found && v in found && v in Dependencies(conns, u)
  }

  lemma PlanEdgesAre(found: seq<SlotId>, conns: seq<Connection>, u: SlotId, v: SlotId)
    ensures (u, v) in PlanEdges(found, conns) <==> InPlanEdge(found, conns, u, v)
  {
    DependenciesAreEdges(conns, u, v);
    if (u, v) in PlanEdges(found, conns) {
      var c :| c in conns && c.from.Some? && c.from.value in found && c.to in found && (c.from.value, c.to) == (u, v);
      assert c.from == Some(u);
    }
  }

  lemma NamedEdgeIndexed(found: seq<SlotId>, conns: seq<Connection>, u: SlotId, v: SlotId)
    requires (u, v) in PlanEdges(found, conns)
    ensures u in found && v in found
    ensures (FirstIndex(found, u), FirstIndex(found, v)) in ScanAll(found, conns, |found|)
  {
    PlanEdgesAre(found, conns, u, v);
    ScanAllEdges(found, conns, |found|);
    var e := (FirstIndex(found, u), FirstIndex(found, v));
    assert found[e.0] == u && found[e.1] == v;
  }

  lemma IndexedEdgeNamed(found: seq<SlotId>, conns: seq<Connection>, e: (nat, nat))
    requires e in ScanAll(found, conns, |found|)
    ensures e.0 < |found| && e.1 < |found| && (found[e.0], found[e.1]) in PlanEdges(found, conns)
  {
    ScanAllEdges(found, conns, |found|);
    PlanEdgesAre(found, conns, found[e.0], found[e.1]);
  }

  lemma NamedAcyclicIndexed(found: seq<SlotId>, conns: seq<Connection>)
    requires Acyclic(PlanEdges(found, conns))
    ensures Acyclic(EdgeSet(ScanAll(found, conns, |found|)))
  {
    var indexed, named := EdgeSet(ScanAll(found, conns, |found|)), PlanEdges(found, conns);
    var nameOf := (i: nat) => if i < |found| then found[i] else 0;
    forall e | e in indexed ensures (nameOf(e.0), nameOf(e.1)) in named {
      IndexedEdgeNamed(found, conns, e);
    }
    PullbackAcyclic<nat, SlotId>(indexed, named, nameOf);
  }

  lemma IndexedAcyclicNamed(found: seq<SlotId>, conns: seq<Connection>)
    requires Acyclic(EdgeSet(ScanAll(found, conns, |found|)))
    ensures Acyclic(PlanEdges(found, conns))
  {
    var indexed, named := EdgeSet(ScanAll(found, conns, |found|)), PlanEdges(found, conns);
    var indexOf := (s: SlotId) => if s in found then FirstIndex(found, s) else 0;
    forall e | e in named ensures (indexOf(e.0), indexOf(e.1)) in indexed {
      NamedEdgeIndexed(found, conns, e.0, e.1);
    }
    PullbackAcyclic<SlotId, nat>(named, indexed, indexOf);
  }

  /** The index graph that is sorted has a cycle exactly when the slots do. */
  lemma SameCycles(found: seq<SlotId>, conns: seq<Connection>)
    ensures Acyclic(EdgeSet(ScanAll(found, conns, |found|))) <==> Acyclic(PlanEdges(found, conns))
  {
    if Acyclic(PlanEdges(found, conns)) {
      NamedAcyclicIndexed(found, conns);
    }
    if Acyclic(EdgeSet(ScanAll(found, conns, |found|))) {
      IndexedAcyclicNamed(found, conns);
    }
  }

  /** `order` lists `found`, and every edge among distinct slots points to a later one. */
  ghost predicate DependentsFirst(found: seq<SlotId>, conns: seq<Connection>, order: seq<SlotId>) {
    && multiset(order) == multiset(found)
    && (Distinct(found) ==>
          Distinct(order) &&
          forall a, b | 0 <= a < |order| && 0 <= b < |order| && (order[a], order[b]) in PlanEdges(found, conns) :: a < b)
  }

  function Rename(found: seq<SlotId>, perm: seq<nat>): (order: seq<SlotId>)
    requires forall k | 0 <= k < |perm| :: perm[k] < |found|
    ensures |order| == |perm| && forall k | 0 <= k < |perm| :: order[k] == found[perm[k]]
  {
    seq(|perm|, k requires 0 <= k < |perm| => found[perm[k]])
  }

  /** Renaming through a permutation of the indices permutes the sequence. */
  lemma {:induction false} RenamePermutes(found: seq<SlotId>, perm: seq<nat>)
    requires Permutation(|found|, perm)
    ensures multiset(Rename(found, perm)) == multiset(found)
  {
    if found == [] {
      assert Rename(found, perm) == [];
    } else {
      var n := |found| - 1;
      var k := PermutationHits(|found|, perm, n);
      var front, rest := found[..n], perm[..k] + perm[k + 1..];
      RenamePermutes(front, rest);
      var order := Rename(found, perm);
      assert Rename(front, rest) == order[..k] + order[k + 1..];
      assert order == order[..k] + [found[n]] + order[k + 1..];
      assert found == front + [found[n]];
    }
  }

  lemma ForwardSlots(found: seq<SlotId>, conns: seq<Connection>, perm: seq<nat>)
    requires Permutation(|found|, perm)
    requires Forward(ScanAll(found, conns, |found|), perm)
    ensures DependentsFirst(found, conns, Rename(found, perm))
  {
    RenamePermutes(found, perm);
    var order := Rename(found, perm);
    if Distinct(found) {
      forall i, j | 0 <= i < j < |order| ensures order[i] != order[j] {
        assert perm[i] != perm[j];
      }
      forall a, b | 0 <= a < |order| && 0 <= b < |order| && (order[a], order[b]) in PlanEdges(found, conns)
        ensures a < b
      {
        NamedEdgeIndexed(found, conns, order[a], order[b]);
        assert FirstIndex(found, order[a]) == perm[a] && FirstIndex(found, order[b]) == perm[b];
      }
    }
  }

  /** `build_pause_order`: the three outcomes are told apart exactly, for every plan and
      registry graph.  The source's limits are `maxSlots` 32 and `maxEdges` 1024. */
  method BuildPauseOrder(changes: seq<SlotId>, connections: seq<ConnChange>, conns: seq<Connection>,
                         maxSlots: nat, maxEdges: nat)
    returns (rc: Status, order: seq<SlotId>)
    ensures var found := Affected(changes, connections);
            rc == if |found| > maxSlots || |ScanAll(found, conns, |found|)| > maxEdges then ENOMEM
                  else if Acyclic(PlanEdges(found, conns)) then OK
                  else EINVAL
    ensures rc == OK ==> DependentsFirst(Affected(changes, connections), conns, order)
  {
    var found, edges, perm;
    rc, found := CollectAffected(changes, connections, maxSlots);
    if rc != OK { return rc, []; }
    rc, edges := ScanEdges(found, conns, maxEdges);
    if rc != OK { return rc, []; }
    ScanAllEdges(found, conns, |found|);
    rc, perm := PeelSources(|found|, edges);
    SameCycles(found, conns);
    if rc != OK { return rc, []; }
    order := Rename(found, perm);
    ForwardSlots(found, conns, perm);
  }
}
