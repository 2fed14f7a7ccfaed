/** Finite directed graphs as edge sets: walks, cycles, and the two facts every
    topological algorithm of the kernel rests on.  A graph with a ranking has no
    cycle; a non-empty set in which every vertex has a successor (or every vertex
    has a predecessor) contains one. */
module Digraph {

  ghost predicate Linked<V>(edges: set<(V, V)>, w: seq<V>, i: nat)
    requires i + 1 < |w|
  {
    (w[i], w[i + 1]) in edges
  }

  ghost predicate Walk<V>(edges: set<(V, V)>, w: seq<V>) {
    forall i: nat | i + 1 < |w| :: Linked(edges, w, i)
  }

  /** A cycle, written out with its first vertex repeated at the end. */
  ghost predicate ClosedWalk<V>(edges: set<(V, V)>, w: seq<V>) {
    |w| >= 2 && w[0] == w[|w| - 1] && Walk(edges, w)
  }

  ghost predicate Acyclic<V(!new)>(edges: set<(V, V)>) {
    forall w: seq<V> :: !ClosedWalk(edges, w)
  }

  /** `rank` strictly increases along every edge. */
  ghost predicate Ranked<V>(edges: set<(V, V)>, rank: map<V, int>) {
    forall e | e in edges :: e.0 in rank && e.1 in rank && rank[e.0] < rank[e.1]
  }

  lemma {:induction false} WalkClimbs<V>(edges: set<(V, V)>, rank: map<V, int>, w: seq<V>, k: nat)
    requires Ranked(edges, rank) && Walk(edges, w)
    requires 0 < k < |w|
    ensures w[0] in rank && w[k] in rank && rank[w[0]] < rank[w[k]]
  {
    assert Linked(edges, w, k - 1);
    if k > 1 {
      WalkClimbs(edges, rank, w, k - 1);
    }
  }

  lemma RankedIsAcyclic<V(!new)>(edges: set<(V, V)>, rank: map<V, int>)
    requires Ranked(edges, rank)
    ensures Acyclic(edges)
  {
    forall w: seq<V>
      ensures !ClosedWalk(edges, w)
    {
      if ClosedWalk(edges, w) {
        WalkClimbs(edges, rank, w, |w| - 1);
      }
    }
  }

  /** Pigeonhole: more positions than vertices means a vertex occurs twice. */
  lemma {:induction false} Repeats<V>(s: set<V>, w: seq<V>) returns (i: nat, j: nat)
    requires forall v | v in w :: v in s
    requires |w| > |s|
    ensures i < j < |w| && w[i] == w[j]
  {
    var last := w[|w| - 1];
    var front := w[..|w| - 1];
    if last in front {
      i :| 0 <= i < |front| && front[i] == last;
      j := |w| - 1;
    } else {
      i, j := Repeats(s - {last}, front);
    }
  }

  lemma SegmentIsWalk<V>(edges: set<(V, V)>, w: seq<V>, i: nat, j: nat)
    requires Walk(edges, w) && i <= j <= |w|
    ensures Walk(edges, w[i..j])
  {
    forall k: nat | k + 1 < j - i
      ensures Linked(edges, w[i..j], k)
    {
      assert Linked(edges, w, i + k);
    }
  }

  lemma RepetitionIsCycle<V(!new)>(s: set<V>, edges: set<(V, V)>, w: seq<V>)
    requires Walk(edges, w) && |w| > |s|
    requires forall v | v in w :: v in s
    ensures !Acyclic(edges)
  {
    var i, j := Repeats(s, w);
    SegmentIsWalk(edges, w, i, j + 1);
    assert ClosedWalk(edges, w[i..j + 1]);
  }

  ghost predicate HasSuccessor<V>(s: set<V>, edges: set<(V, V)>, v: V) {
    exists u :: u in s && (v, u) in edges
  }

  ghost predicate EachHasSuccessor<V>(s: set<V>, edges: set<(V, V)>) {
    forall v {:trigger HasSuccessor(s, edges, v)} | v in s :: HasSuccessor(s, edges, v)
  }

  ghost predicate HasPredecessor<V>(s: set<V>, edges: set<(V, V)>, v: V) {
    exists u :: u in s && (u, v) in edges
  }

  ghost predicate EachHasPredecessor<V>(s: set<V>, edges: set<(V, V)>) {
    forall v {:trigger HasPredecessor(s, edges, v)} | v in s :: HasPredecessor(s, edges, v)
  }

  lemma {:induction false} WalkForward<V>(s: set<V>, edges: set<(V, V)>, n: nat) returns (w: seq<V>)
    requires s != {}
    requires EachHasSuccessor(s, edges)
    ensures |w| == n + 1 && Walk(edges, w)
    ensures forall v | v in w :: v in s
  {
    if n == 0 {
      var v :| v in s;
      w := [v];
    } else {
      var front := WalkForward(s, edges, n - 1);
      var last := front[n - 1];
      assert HasSuccessor(s, edges, last);
      var u :| u in s && (last, u) in edges;
      w := front + [u];
      forall i: nat | i + 1 < |w|
        ensures Linked(edges, w, i)
      {
        if i + 1 < n { assert Linked(edges, front, i); }
      }
    }
  }

  lemma {:induction false} WalkBackward<V>(s: set<V>, edges: set<(V, V)>, n: nat) returns (w: seq<V>)
    requires s != {}
    requires EachHasPredecessor(s, edges)
    ensures |w| == n + 1 && Walk(edges, w)
    ensures forall v | v in w :: v in s
  {
    if n == 0 {
      var v :| v in s;
      w := [v];
    } else {
      var rest := WalkBackward(s, edges, n - 1);
      var first := rest[0];
      assert HasPredecessor(s, edges, first);
      var u :| u in s && (u, first) in edges;
      w := [u] + rest;
      forall i: nat | i + 1 < |w|
        ensures Linked(edges, w, i)
      {
        if i > 0 { assert Linked(edges, rest, i - 1); }
      }
    }
  }

  /** Nobody in `s` is a sink of `s`: following successors never stops, so it cycles. */
  lemma SuccessorsCycle<V(!new)>(s: set<V>, edges: set<(V, V)>)
    requires s != {}
    requires EachHasSuccessor(s, edges)
    ensures !Acyclic(edges)
  {
    var w := WalkForward(s, edges, |s|);
    RepetitionIsCycle(s, edges, w);
  }

  lemma PredecessorsCycle<V(!new)>(s: set<V>, edges: set<(V, V)>)
    requires s != {}
    requires EachHasPredecessor(s, edges)
    ensures !Acyclic(edges)
  {
    var w := WalkBackward(s, edges, |s|);
    RepetitionIsCycle(s, edges, w);
  }

  /** Acyclicity is inherited along any map of vertices that carries edges to edges. */
  lemma PullbackAcyclic<V(!new), W(!new)>(edges: set<(V, V)>, image: set<(W, W)>, f: V -> W)
    requires forall e | e in edges :: (f(e.0), f(e.1)) in image
    requires Acyclic(image)
    ensures Acyclic(edges)
  {
    forall w: seq<V>
      ensures !ClosedWalk(edges, w)
    {
      if ClosedWalk(edges, w) {
        var x := seq(|w|, i requires 0 <= i < |w| => f(w[i]));
        forall i: nat | i + 1 < |x|
          ensures Linked(image, x, i)
        {
          assert Linked(edges, w, i);
        }
        assert ClosedWalk(image, x);
      }
    }
  }

  /** Vertices that nothing points to lie on no cycle: their edges can be dropped. */
  lemma TrimAcyclic<V(!new)>(edges: set<(V, V)>, keep: set<V>)
    requires forall e | e in edges :: e.1 in keep
    requires Acyclic(set e | e in edges && e.0 in keep)
    ensures Acyclic(edges)
  {
    var inner := set e | e in edges && e.0 in keep;
    forall w: seq<V>
      ensures !ClosedWalk(edges, w)
    {
      if ClosedWalk(edges, w) {
        forall i: nat | i + 1 < |w|
          ensures Linked(inner, w, i)
        {
          assert Linked(edges, w, i);
          assert Linked(edges, w, if i == 0 then |w| - 2 else i - 1);
        }
        assert ClosedWalk(inner, w);
      }
    }
  }
}
