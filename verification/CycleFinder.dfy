/** tools/validate-config.py: the slot dependency graph of a configuration and the
    iterative depth-first search that rejects cycles in it. */
module CycleFinder {
  import opened Composition
  import opened Digraph
  import opened Sequences

  type Name = string
  type Graph = map<Name, seq<Name>>

  ghost function EdgesOf(graph: Graph): set<(Name, Name)> {
    set u, v | u in graph && v in graph[u] :: (u, v)
  }

  datatype Colour = White | Gray | Black

  /** One frame of the explicit stack: a node and the next neighbour to look at. */
  datatype Frame = Frame(node: Name, next: nat)

  // ---------------------------------------------------------------- search invariant

  ghost predicate Settled(graph: Graph, colour: map<Name, Colour>, v: Name) {
    v !in graph || (v in colour && colour[v] == Black)
  }

  ghost function Nodes(stack: seq<Frame>): (ns: seq<Name>)
    ensures |ns| == |stack| && forall i | 0 <= i < |ns| :: ns[i] == stack[i].node
  {
    seq(|stack|, i requires 0 <= i < |stack| => stack[i].node)
  }

  ghost predicate Framed(graph: Graph, f: Frame) {
    f.node in graph && f.next <= |graph[f.node]|
  }

  /** Frame `b` hangs off the neighbour its parent frame `a` looked at last. */
  ghost predicate Hangs(graph: Graph, parent: map<Name, Option<Name>>, a: Frame, b: Frame) {
    && Framed(graph, a) && a.next > 0 && graph[a.node][a.next - 1] == b.node
    && b.node in parent && parent[b.node] == Some(a.node)
  }

  ghost predicate Chained(graph: Graph, parent: map<Name, Option<Name>>, stack: seq<Frame>) {
    && (forall i | 0 <= i < |stack| :: Framed(graph, stack[i]))
    && (forall i | 0 <= i < |stack| - 1 :: Hangs(graph, parent, stack[i], stack[i + 1]))
    && (stack != [] ==> stack[0].node in parent && parent[stack[0].node] == None)
    && Distinct(Nodes(stack))
  }

  /** The first `n` neighbours of a node are settled. */
  ghost predicate Looked(graph: Graph, colour: map<Name, Colour>, v: Name, n: int) {
    v in graph && forall k | 0 <= k < n && k < |graph[v]| :: Settled(graph, colour, graph[v][k])
  }

  /** Neighbours already looked at are settled, bar the one being explored. */
  ghost predicate Explored(graph: Graph, colour: map<Name, Colour>, stack: seq<Frame>) {
    forall i | 0 <= i < |stack| ::
      Looked(graph, colour, stack[i].node, if i + 1 < |stack| then stack[i].next - 1 else stack[i].next)
  }

  ghost predicate Painted(graph: Graph, colour: map<Name, Colour>, nodes: seq<Name>, finished: seq<Name>) {
    && colour.Keys == graph.Keys
    && (forall v | v in graph :: colour[v] == Gray <==> v in nodes)
    && (forall v | v in graph :: colour[v] == Black <==> v in finished)
    && (forall v | v in finished :: v in graph)
    && Distinct(finished)
  }

  ghost predicate Precedes(graph: Graph, v: Name, earlier: seq<Name>) {
    forall u | v in graph && u in graph[v] && u in graph :: u in earlier
  }

  /** Everything a finished node points to finished before it. */
  ghost predicate Postorder(graph: Graph, finished: seq<Name>) {
    forall i | 0 <= i < |finished| :: Precedes(graph, finished[i], finished[..i])
  }

  ghost predicate Searching(graph: Graph, colour: map<Name, Colour>, parent: map<Name, Option<Name>>,
                            stack: seq<Frame>, finished: seq<Name>) {
    && parent.Keys == graph.Keys
    && Chained(graph, parent, stack)
    && Painted(graph, colour, Nodes(stack), finished)
    && Explored(graph, colour, stack)
    && Postorder(graph, finished)
  }

  ghost function Whites(colour: map<Name, Colour>): set<Name> {
    set v | v in colour && colour[v] == White
  }

  /** Work left on the stack: neighbours to look at, plus one per frame to pop. */
  ghost function Work(graph: Graph, stack: seq<Frame>): int {
    if stack == [] then 0
    else
      var top := stack[|stack| - 1];
      Work(graph, stack[..|stack| - 1]) + if Framed(graph, top) then |graph[top.node]| - top.next + 1 else 0
  }

  lemma {:induction false} WorkNatural(graph: Graph, stack: seq<Frame>)
    ensures Work(graph, stack) >= 0
  {
    if stack != [] { WorkNatural(graph, stack[..|stack| - 1]); }
  }

  function Moved(stack: seq<Frame>): seq<Frame>
    requires stack != []
  {
    var n := |stack| - 1;
    stack[n := Frame(stack[n].node, stack[n].next + 1)]
  }

  lemma IsEdge(graph: Graph, u: Name, k: nat)
    requires u in graph && k < |graph[u]|
    ensures (u, graph[u][k]) in EdgesOf(graph)
  {
  }

  lemma WorkShrinks(graph: Graph, stack: seq<Frame>)
    requires stack != [] && Framed(graph, stack[|stack| - 1])
    ensures 0 <= Work(graph, stack[..|stack| - 1]) < Work(graph, stack)
    ensures stack[|stack| - 1].next < |graph[stack[|stack| - 1].node]| ==> 0 <= Work(graph, Moved(stack)) < Work(graph, stack)
  {
    var n := |stack| - 1;
    WorkNatural(graph, stack[..n]);
    assert Moved(stack)[..n] == stack[..n];
  }

  lemma WhitesShrink(colour: map<Name, Colour>, v: Name)
    requires v in colour && colour[v] == White
    ensures |Whites(colour[v := Gray])| < |Whites(colour)|
  {
    assert Whites(colour[v := Gray]) == Whites(colour) - {v};
  }

  lemma WhitesKeep(colour: map<Name, Colour>, v: Name)
    requires v in colour && colour[v] == Gray
    ensures Whites(colour[v := Black]) == Whites(colour)
  {
  }

  // ---------------------------------------------------------------- steps of the search

  /** Blackening a node settles more, never less. */
  lemma BlackenLooked(graph: Graph, colour: map<Name, Colour>, v: Name, stack: seq<Frame>)
    requires Explored(graph, colour, stack)
    ensures Explored(graph, colour[v := Black], stack)
  {
    forall i | 0 <= i < |stack|
      ensures Looked(graph, colour[v := Black], stack[i].node, if i + 1 < |stack| then stack[i].next - 1 else stack[i].next)
    {
      assert Looked(graph, colour, stack[i].node, if i + 1 < |stack| then stack[i].next - 1 else stack[i].next);
    }
  }

  lemma PopExplored(graph: Graph, colour: map<Name, Colour>, parent: map<Name, Option<Name>>, stack: seq<Frame>)
    requires stack != [] && Chained(graph, parent, stack) && Explored(graph, colour, stack)
    requires Settled(graph, colour, stack[|stack| - 1].node)
    ensures Explored(graph, colour, stack[..|stack| - 1])
  {
    var n := |stack| - 1;
    if n > 0 {
      assert Hangs(graph, parent, stack[n - 1], stack[n]);
      assert Looked(graph, colour, stack[n - 1].node, stack[n - 1].next - 1);
      assert Looked(graph, colour, stack[n - 1].node, stack[n - 1].next);
    }
    forall i | 0 <= i < n
      ensures Looked(graph, colour, stack[i].node, if i + 1 < n then stack[i].next - 1 else stack[i].next)
    {
      if i < n - 1 {
        assert Looked(graph, colour, stack[i].node, stack[i].next - 1);
      }
    }
  }

  lemma FinishPostorder(graph: Graph, colour: map<Name, Colour>, nodes: seq<Name>, finished: seq<Name>, v: Name)
    requires Painted(graph, colour, nodes, finished) && Postorder(graph, finished)
    requires v in graph && Looked(graph, colour, v, |graph[v]|)
    ensures Postorder(graph, finished + [v])
  {
    var longer := finished + [v];
    forall i | 0 <= i < |longer| ensures Precedes(graph, longer[i], longer[..i]) {
      if i < |finished| {
        assert Precedes(graph, finished[i], finished[..i]);
        assert longer[..i] == finished[..i];
      } else {
        assert longer[..i] == finished;
        forall u | u in graph[v] && u in graph ensures u in finished {
          var k :| 0 <= k < |graph[v]| && graph[v][k] == u;
          assert Settled(graph, colour, graph[v][k]);
        }
      }
    }
  }

  /** Finishing the top node keeps the postorder. */
  lemma Finish(graph: Graph, colour: map<Name, Colour>, parent: map<Name, Option<Name>>,
               stack: seq<Frame>, finished: seq<Name>)
    requires Searching(graph, colour, parent, stack, finished)
    requires stack != [] && stack[|stack| - 1].node in graph && stack[|stack| - 1].next == |graph[stack[|stack| - 1].node]|
    ensures var top := stack[|stack| - 1].node;
            Searching(graph, colour[top := Black], parent, stack[..|stack| - 1], finished + [top])
  {
    var n := |stack| - 1;
    var top, rest := stack[n].node, stack[..n];
    assert Nodes(stack) == Nodes(rest) + [top];
    assert top in Nodes(stack);
    assert Looked(graph, colour, stack[n].node, stack[n].next);
    FinishPostorder(graph, colour, Nodes(stack), finished, top);
    BlackenLooked(graph, colour, top, stack);
    PopExplored(graph, colour[top := Black], parent, stack);
    PopChained(graph, parent, stack);
  }

  lemma PopChained(graph: Graph, parent: map<Name, Option<Name>>, stack: seq<Frame>)
    requires stack != [] && Chained(graph, parent, stack)
    ensures Chained(graph, parent, stack[..|stack| - 1])
  {
    var rest := stack[..|stack| - 1];
    assert Nodes(rest) == Nodes(stack)[..|rest|];
    forall i | 0 <= i < |rest| - 1 ensures Hangs(graph, parent, rest[i], rest[i + 1]) {
      assert Hangs(graph, parent, stack[i], stack[i + 1]);
    }
  }

  /** The top frame moves on: still a stack of the same nodes. */
  lemma MovedFrames(graph: Graph, parent: map<Name, Option<Name>>, stack: seq<Frame>)
    requires stack != [] && Chained(graph, parent, stack)
    requires stack[|stack| - 1].next < |graph[stack[|stack| - 1].node]|
    ensures Nodes(Moved(stack)) == Nodes(stack) && Chained(graph, parent, Moved(stack))
  {
    var moved := Moved(stack);
    assert Nodes(moved) == Nodes(stack);
    forall i | 0 <= i < |moved| - 1 ensures Hangs(graph, parent, moved[i], moved[i + 1]) {
      assert Hangs(graph, parent, stack[i], stack[i + 1]);
    }
  }

  /** Looking at a settled neighbour only moves the frame on. */
  lemma Advance(graph: Graph, colour: map<Name, Colour>, parent: map<Name, Option<Name>>,
                stack: seq<Frame>, finished: seq<Name>)
    requires Searching(graph, colour, parent, stack, finished)
    requires stack != [] && Framed(graph, stack[|stack| - 1]) && stack[|stack| - 1].next < |graph[stack[|stack| - 1].node]|
    requires Settled(graph, colour, graph[stack[|stack| - 1].node][stack[|stack| - 1].next])
    ensures Searching(graph, colour, parent, Moved(stack), finished)
  {
    var n := |stack| - 1;
    MovedFrames(graph, parent, stack);
    assert Looked(graph, colour, stack[n].node, stack[n].next);
    assert Looked(graph, colour, stack[n].node, stack[n].next + 1);
    assert forall i | 0 <= i < n :: Looked(graph, colour, stack[i].node, stack[i].next - 1);
  }

  lemma DescendChained(graph: Graph, parent: map<Name, Option<Name>>, stack: seq<Frame>, nxt: Name)
    requires stack != [] && Chained(graph, parent, stack) && nxt in graph && nxt !in Nodes(stack)
    requires stack[|stack| - 1].next < |graph[stack[|stack| - 1].node]|
    requires nxt == graph[stack[|stack| - 1].node][stack[|stack| - 1].next]
    ensures Chained(graph, parent[nxt := Some(stack[|stack| - 1].node)], Moved(stack) + [Frame(nxt, 0)])
  {
    MovedFrames(graph, parent, stack);
    var moved, stack', parent' := Moved(stack), Moved(stack) + [Frame(nxt, 0)], parent[nxt := Some(stack[|stack| - 1].node)];
    assert Nodes(stack') == Nodes(moved) + [nxt];
    forall i | 0 <= i < |stack'| - 1 ensures Hangs(graph, parent', stack'[i], stack'[i + 1]) {
      if i < |moved| - 1 {
        assert Hangs(graph, parent, moved[i], moved[i + 1]);
        assert Nodes(stack)[i + 1] != nxt;
      }
    }
    assert Nodes(stack)[0] != nxt;
  }

  lemma DescendExplored(graph: Graph, colour: map<Name, Colour>, stack: seq<Frame>, nxt: Name)
    requires stack != [] && Explored(graph, colour, stack) && nxt in graph
    requires nxt in colour && colour[nxt] == White
    ensures Explored(graph, colour[nxt := Gray], Moved(stack) + [Frame(nxt, 0)])
  {
    var stack', colour' := Moved(stack) + [Frame(nxt, 0)], colour[nxt := Gray];
    forall i | 0 <= i < |stack'|
      ensures Looked(graph, colour', stack'[i].node, if i + 1 < |stack'| then stack'[i].next - 1 else stack'[i].next)
    {
      if i < |stack| {
        assert Looked(graph, colour, stack[i].node, if i + 1 < |stack| then stack[i].next - 1 else stack[i].next);
      }
    }
  }

  /** Descending into a white neighbour. */
  lemma Descend(graph: Graph, colour: map<Name, Colour>, parent: map<Name, Option<Name>>,
                stack: seq<Frame>, finished: seq<Name>, nxt: Name)
    requires Searching(graph, colour, parent, stack, finished)
    requires stack != [] && Framed(graph, stack[|stack| - 1]) && stack[|stack| - 1].next < |graph[stack[|stack| - 1].node]|
    requires nxt == graph[stack[|stack| - 1].node][stack[|stack| - 1].next] && nxt in graph && nxt in colour && colour[nxt] == White
    ensures Searching(graph, colour[nxt := Gray], parent[nxt := Some(stack[|stack| - 1].node)],
                      Moved(stack) + [Frame(nxt, 0)], finished)
  {
    DescendChained(graph, parent, stack, nxt);
    DescendExplored(graph, colour, stack, nxt);
    assert Nodes(Moved(stack) + [Frame(nxt, 0)]) == Nodes(stack) + [nxt];
  }

  // ---------------------------------------------------------------- outcomes

  /** Later finishers rank lower; names without a node rank highest. */
  ghost function FinishRank(finished: seq<Name>, v: Name): int {
    if v in finished then |finished| - FirstIndex(finished, v) else |finished| + 1
  }

  lemma EdgeClimbs(graph: Graph, finished: seq<Name>, u: Name, v: Name)
    requires Postorder(graph, finished) && u in finished && u in graph && v in graph[u]
    requires v in finished ==> v in graph
    ensures FinishRank(finished, u) < FinishRank(finished, v)
  {
    var i := FirstIndex(finished, u);
    assert Precedes(graph, finished[i], finished[..i]);
    if v in finished {
      FirstIndexPrefix(finished, i, v);
    }
  }

  /** All finished in postorder: no cycle. */
  lemma FinishedIsAcyclic(graph: Graph, finished: seq<Name>)
    requires Postorder(graph, finished) && forall v :: v in graph <==> v in finished
    ensures Acyclic(EdgesOf(graph))
  {
    var edges := EdgesOf(graph);
    var names := (set e | e in edges :: e.0) + (set e | e in edges :: e.1);
    var rank := map v | v in names :: FinishRank(finished, v);
    forall e | e in edges ensures e.0 in rank && e.1 in rank && rank[e.0] < rank[e.1] {
      EdgeClimbs(graph, finished, e.0, e.1);
    }
    RankedIsAcyclic(edges, rank);
  }

  /** The stack spells a walk. */
  lemma StackIsWalk(graph: Graph, parent: map<Name, Option<Name>>, stack: seq<Frame>)
    requires Chained(graph, parent, stack)
    ensures Walk(EdgesOf(graph), Nodes(stack))
  {
    forall i: nat | i + 1 < |stack| ensures Linked(EdgesOf(graph), Nodes(stack), i) {
      assert Hangs(graph, parent, stack[i], stack[i + 1]);
    }
  }

  /** From the node where the back edge lands to the top, and back over that edge. */
  lemma BackEdgeCloses(graph: Graph, parent: map<Name, Option<Name>>, stack: seq<Frame>, i: nat)
    requires i < |stack| && Chained(graph, parent, stack)
    requires (stack[|stack| - 1].node, stack[i].node) in EdgesOf(graph)
    ensures ClosedWalk(EdgesOf(graph), Nodes(stack)[i..] + [stack[i].node])
  {
    StackIsWalk(graph, parent, stack);
    SegmentIsWalk(EdgesOf(graph), Nodes(stack), i, |stack|);
    var seg := Nodes(stack)[i..|stack|];
    var w := seg + [stack[i].node];
    assert w == Nodes(stack)[i..] + [stack[i].node];
    forall k: nat | k + 1 < |w| ensures Linked(EdgesOf(graph), w, k) {
      if k + 1 < |seg| { assert Linked(EdgesOf(graph), seg, k); }
    }
  }

  function Reverse(s: seq<Name>): (r: seq<Name>)
    ensures |r| == |s| && forall i | 0 <= i < |s| :: r[i] == s[|s| - 1 - i]
  {
    seq(|s|, i requires 0 <= i < |s| => s[|s| - 1 - i])
  }

  lemma ReverseGrows(ns: seq<Name>, j: nat)
    requires 0 < j <= |ns|
    ensures Reverse(ns[j..]) + [ns[j - 1]] == Reverse(ns[j - 1..])
  {
  }

  lemma ReverseBack(ns: seq<Name>, i: nat)
    requires i < |ns|
    ensures Reverse([ns[i]] + Reverse(ns[i + 1..]) + [ns[i]]) == ns[i..] + [ns[i]]
  {
  }

  /** The parent links retrace the stack. */
  lemma ParentIsBelow(graph: Graph, parent: map<Name, Option<Name>>, stack: seq<Frame>, j: nat)
    requires Chained(graph, parent, stack) && j < |stack|
    ensures stack[j].node in parent && parent[stack[j].node] == if j > 0 then Some(stack[j - 1].node) else None
  {
    if j > 0 { assert Hangs(graph, parent, stack[j - 1], stack[j]); }
  }

  /** Read the cycle off the parent links, from `node` back to `nxt`. */
  method Reconstruct(graph: Graph, parent: map<Name, Option<Name>>, ghost stack: seq<Frame>, nxt: Name, node: Name)
    returns (cycle: seq<Name>)
    requires parent.Keys == graph.Keys
    requires Chained(graph, parent, stack) && stack != [] && stack[|stack| - 1].node == node
    requires nxt in Nodes(stack) && (node, nxt) in EdgesOf(graph)
    ensures ClosedWalk(EdgesOf(graph), cycle)
  {
    hide ClosedWalk, EdgesOf, Chained, Reverse;
    ghost var ns := Nodes(stack);
    ghost var i :| 0 <= i < |ns| && ns[i] == nxt;
    BackEdgeCloses(graph, parent, stack, i);
    NodesDistinct(graph, parent, stack, i, |stack| - 1);
    if nxt == node {
      assert ns[i..] + [stack[i].node] == [nxt, nxt];
      return [nxt, nxt];
    }
    cycle := [nxt, node];
    ghost var j := |stack| - 1;
    ParentIsBelow(graph, parent, stack, j);
    var p := parent[node];
    assert ns[j..] == [node];
    while p.Some? && p.value != nxt
      invariant i < j <= |stack| - 1
      invariant p == Some(stack[j - 1].node)
      invariant cycle == [nxt] + Reverse(ns[j..])
      decreases j
    {
      ReverseGrows(ns, j);
      j := j - 1;
      ParentIsBelow(graph, parent, stack, j);
      assert j > i;
      cycle := cycle + [p.value];
      p := parent[p.value];
    }
    NodesDistinct(graph, parent, stack, i, j - 1);
    cycle := Reverse(cycle + [nxt]);
    ReverseBack(ns, i);
  }

  lemma NodesDistinct(graph: Graph, parent: map<Name, Option<Name>>, stack: seq<Frame>, i: nat, j: nat)
    requires Chained(graph, parent, stack) && i < |stack| && j < |stack|
    ensures stack[i].node == stack[j].node ==> i == j
  {
    assert Nodes(stack)[i] == stack[i].node && Nodes(stack)[j] == stack[j].node;
  }

  /** `find_cycle`: no answer exactly when the graph is acyclic; otherwise a closed walk.
      `roots` is the order in which the keys are tried (the source sorts them). */
  method FindCycle(graph: Graph, roots: seq<Name>) returns (cycle: Option<seq<Name>>)
    requires forall v :: v in roots <==> v in graph
    ensures cycle.None? <==> Acyclic(EdgesOf(graph))
    ensures cycle.Some? ==> ClosedWalk(EdgesOf(graph), cycle.value)
  {
    hide Searching, ClosedWalk, Acyclic, EdgesOf;
    var colour: map<Name, Colour> := map v | v in graph :: White;
    var parent: map<Name, Option<Name>> := map v | v in graph :: None;
    ghost var finished: seq<Name> := [];
    NothingSearched(graph, colour, parent);
    for r := 0 to |roots|
      invariant Searching(graph, colour, parent, [], finished)
      invariant colour.Keys == graph.Keys && forall k | 0 <= k < r :: colour[roots[k]] == Black
    {
      TopFacts(graph, colour, parent, [], finished);
      var root := roots[r];
      assert root in graph;
      if colour[root] != White { continue; }
      ghost var before, shade := finished, colour;
      cycle, colour, parent, finished := Search(graph, colour, parent, root, finished);
      if cycle.Some? {
        CycleMeans(graph, cycle.value);
        return;
      }
      TopFacts(graph, colour, parent, [], finished);
      StillBlack(graph, shade, before, colour, finished, parent);
    }
    forall v | v in graph ensures colour[v] == Black { assert v in roots; }
    AllBlackIsAcyclic(graph, colour, parent, finished);
    cycle := None;
  }

  lemma NothingSearched(graph: Graph, colour: map<Name, Colour>, parent: map<Name, Option<Name>>)
    requires colour == (map v | v in graph :: White) && parent == (map v | v in graph :: None)
    ensures Searching(graph, colour, parent, [], [])
  {
  }

  lemma CycleMeans(graph: Graph, w: seq<Name>)
    requires ClosedWalk(EdgesOf(graph), w)
    ensures !Acyclic(EdgesOf(graph))
  {
  }

  lemma StillBlack(graph: Graph, colour: map<Name, Colour>, finished: seq<Name>, colour': map<Name, Colour>, finished': seq<Name>,
                   parent': map<Name, Option<Name>>)
    requires exists parent :: Searching(graph, colour, parent, [], finished)
    requires Searching(graph, colour', parent', [], finished') && finished <= finished'
    ensures forall v | v in colour && colour[v] == Black :: v in colour' && colour'[v] == Black
  {
  }

  lemma AllBlackIsAcyclic(graph: Graph, colour: map<Name, Colour>, parent: map<Name, Option<Name>>, finished: seq<Name>)
    requires Searching(graph, colour, parent, [], finished)
    requires forall v | v in graph :: v in colour && colour[v] == Black
    ensures Acyclic(EdgesOf(graph))
  {
    FinishedIsAcyclic(graph, finished);
  }

  /** What the loop reads off its invariant. */
  lemma TopFacts(graph: Graph, colour: map<Name, Colour>, parent: map<Name, Option<Name>>, stack: seq<Frame>, finished: seq<Name>)
    requires Searching(graph, colour, parent, stack, finished)
    ensures parent.Keys == graph.Keys == colour.Keys && Chained(graph, parent, stack)
    ensures forall v | v in graph :: colour[v] == Gray <==> v in Nodes(stack)
    ensures stack != [] ==> Framed(graph, stack[|stack| - 1]) && colour[stack[|stack| - 1].node] == Gray
  {
    if stack != [] { assert Nodes(stack)[|stack| - 1] in Nodes(stack); }
  }

  lemma Begin(graph: Graph, colour: map<Name, Colour>, parent: map<Name, Option<Name>>, root: Name, finished: seq<Name>)
    requires Searching(graph, colour, parent, [], finished) && root in graph && colour[root] == White
    ensures Searching(graph, colour[root := Gray], parent[root := None], [Frame(root, 0)], finished)
  {
    assert Nodes([Frame(root, 0)]) == [root];
  }

  /** The inner loop: explore everything reachable from a white root. */
  method Search(graph: Graph, colour0: map<Name, Colour>, parent0: map<Name, Option<Name>>, root: Name, ghost finished0: seq<Name>)
    returns (cycle: Option<seq<Name>>, colour: map<Name, Colour>, parent: map<Name, Option<Name>>, ghost finished: seq<Name>)
    requires Searching(graph, colour0, parent0, [], finished0)
    requires root in graph && root in colour0 && colour0[root] == White
    ensures cycle.Some? ==> ClosedWalk(EdgesOf(graph), cycle.value)
    ensures cycle.None? ==>
              Searching(graph, colour, parent, [], finished)
              && finished0 <= finished && root in colour && colour[root] == Black
  {
    hide Searching, Chained, EdgesOf, ClosedWalk, Work, Whites;
    var stack := [Frame(root, 0)];
    parent := parent0[root := None];
    colour := colour0[root := Gray];
    finished := finished0;
    Begin(graph, colour0, parent0, root, finished0);
    while stack != []
      invariant Searching(graph, colour, parent, stack, finished)
      invariant finished0 <= finished && root in colour && colour[root] != White
      decreases |Whites(colour)|, Work(graph, stack)
    {
      TopFacts(graph, colour, parent, stack, finished);
      var n := |stack| - 1;
      var node, idx := stack[n].node, stack[n].next;
      WorkShrinks(graph, stack);
      if idx < |graph[node]| {
        var nxt := graph[node][idx];
        if nxt in colour && colour[nxt] == Gray {
          IsEdge(graph, node, idx);
          var found := Reconstruct(graph, parent, stack, nxt, node);
          return Some(found), colour, parent, finished;
        }
        if nxt in colour && colour[nxt] == White {
          Descend(graph, colour, parent, stack, finished, nxt);
          WhitesShrink(colour, nxt);
          stack := Moved(stack) + [Frame(nxt, 0)];
          colour := colour[nxt := Gray];
          parent := parent[nxt := Some(node)];
        } else {
          Advance(graph, colour, parent, stack, finished);
          stack := Moved(stack);
        }
      } else {
        Finish(graph, colour, parent, stack, finished);
        WhitesKeep(colour, node);
        colour := colour[node := Black];
        stack := stack[..n];
        finished := finished + [node];
      }
    }
    cycle := None;
    TopFacts(graph, colour, parent, stack, finished);
  }

  // ---------------------------------------------------------------- the slot graph

  /** The dependency names of a component manifest. */
  datatype Manifest = Manifest(required: seq<Name>, optional: seq<Name>)

  /** `deps` without repetition, keeping the names of configured slots. */
  method SlotDeps(slots: seq<Name>, deps: seq<Name>) returns (out: seq<Name>)
    ensures forall d :: d in out <==> d in deps && d in slots
    ensures Distinct(out)
  {
    out := [];
    for i := 0 to |deps|
      invariant forall d :: d in out <==> d in deps[..i] && d in slots
      invariant Distinct(out)
    {
      assert deps[..i + 1] == deps[..i] + [deps[i]];
      if deps[i] in slots && deps[i] !in out {
        out := out + [deps[i]];
      }
    }
    assert deps[..|deps|] == deps;
  }

  ghost predicate DependsOn(impl: map<Name, Name>, manifests: map<Name, Manifest>, s: Name, d: Name) {
    s in impl && d in impl && impl[s] in manifests
    && (d in manifests[impl[s]].required || d in manifests[impl[s]].optional)
  }

  /** `build_dep_graph`: required and optional edges between configured slots, no others. */
  method BuildDepGraph(slots: seq<Name>, impl: map<Name, Name>, manifests: map<Name, Manifest>) returns (graph: Graph)
    requires forall s :: s in slots <==> s in impl
    ensures graph.Keys == impl.Keys
    ensures forall s, d :: (s, d) in EdgesOf(graph) <==> DependsOn(impl, manifests, s, d)
  {
    graph := map[];
    for i := 0 to |slots|
      invariant forall s :: s in graph <==> s in slots[..i]
      invariant forall s, d | s in graph :: d in graph[s] <==> DependsOn(impl, manifests, s, d)
    {
      var s := slots[i];
      assert s in slots && slots[..i + 1] == slots[..i] + [s];
      var m := if impl[s] in manifests then manifests[impl[s]] else Manifest([], []);
      var deps := SlotDeps(slots, m.required + m.optional);
      graph := graph[s := deps];
    }
    assert slots[..|slots|] == slots;
  }
}
