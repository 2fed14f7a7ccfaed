/** What a committed plan does to the registry's edges, entry by entry and pair by pair. */
module RecomposeEdges {
  import opened Composition
  import opened Sequences
  import opened Lifecycle
  import opened Recompose

  // ---------------------------------------------------------------- one entry

  /** `c` leads from `from` to `to`. */
  predicate Leads(c: Connection, from: Option<SlotId>, to: Option<SlotId>) {
    c.from == from && Some(c.to) == to
  }

  /** Position `i` has the first edge from `from` to `to`. */
  ghost predicate FirstAt(conns: seq<Connection>, from: Option<SlotId>, to: Option<SlotId>, i: nat) {
    i < |conns| && Leads(conns[i], from, to) && forall k | 0 <= k < i :: !Leads(conns[k], from, to)
  }

  ghost predicate NoneLeads(conns: seq<Connection>, from: Option<SlotId>, to: Option<SlotId>) {
    forall c | c in conns :: !Leads(c, from, to)
  }

  /** A REMOVE entry takes out the first edge of its pair and no other; anything else waits. */
  ghost predicate Removal(a: seq<Connection>, cc: ConnChange, b: seq<Connection>) {
    if cc.action == Remove && !NoneLeads(a, cc.from, cc.to)
    then exists i: nat :: FirstAt(a, cc.from, cc.to, i) && b == a[..i] + a[i + 1..]
    else b == a
  }

  /** An ADD entry puts one edge in front, exactly if its ends are registered; a REWIRE entry
      gives the first edge of its pair the mode and changes nothing else of it. */
  ghost predicate Addition(a: seq<Connection>, registered: seq<SlotId>, cc: ConnChange, b: seq<Connection>) {
    match cc.action
    case Remove => b == a
    case Add =>
      if cc.to.Some? && cc.to.value in registered && (cc.from.None? || cc.from.value in registered)
      then |b| == |a| + 1 && b[1..] == a && b[0] == Connection(cc.from, cc.to.value, cc.mode, cc.stateful, cc.policy)
      else b == a
    case Rewire =>
      if NoneLeads(a, cc.from, cc.to) then b == a
      else exists i: nat :: FirstAt(a, cc.from, cc.to, i) && b == a[i := a[i].(mode := cc.mode)]
  }

  /** All removals in the order of the plan, then all additions in the order of the plan:
      `via` are the lists in between. */
  ghost predicate Via(conns: seq<Connection>, registered: seq<SlotId>, changes: seq<ConnChange>, out: seq<Connection>,
                      via: seq<seq<Connection>>)
  {
    var n := |changes|;
    && |via| == 2 * n + 1 && via[0] == conns && via[2 * n] == out
    && (forall i | 0 <= i < n :: Removal(via[i], changes[i], via[i + 1]))
    && forall i | 0 <= i < n :: Addition(via[n + i], registered, changes[i], via[n + i + 1])
  }

  ghost predicate EdgesBy(conns: seq<Connection>, registered: seq<SlotId>, changes: seq<ConnChange>, out: seq<Connection>) {
    exists via :: Via(conns, registered, changes, out, via)
  }

  // ---------------------------------------------------------------- the code does so

  lemma RemovalIs(a: seq<Connection>, cc: ConnChange)
    ensures Removal(a, cc, RemoveOne(a, cc))
  {
    var i := FindEdge(a, cc.from, cc.to);
    if i.Some? { assert FirstAt(a, cc.from, cc.to, i.value) && a[i.value] in a; }
  }

  lemma AdditionIs(a: seq<Connection>, registered: seq<SlotId>, cc: ConnChange)
    ensures Addition(a, registered, cc, AddOne(a, registered, cc))
  {
    var i := FindEdge(a, cc.from, cc.to);
    if i.Some? { assert FirstAt(a, cc.from, cc.to, i.value) && a[i.value] in a; }
  }

  ghost predicate RemovingBy(conns: seq<Connection>, changes: seq<ConnChange>, via: seq<seq<Connection>>) {
    && |via| == |changes| + 1 && via[0] == conns && via[|changes|] == RemoveEdges(conns, changes)
    && forall i | 0 <= i < |changes| :: Removal(via[i], changes[i], via[i + 1])
  }

  lemma RemovingOn(conns: seq<Connection>, changes: seq<ConnChange>, n: nat, front: seq<seq<Connection>>)
    requires |changes| == n + 1 && RemovingBy(conns, changes[..n], front)
    ensures RemovingBy(conns, changes, front + [RemoveEdges(conns, changes)])
  {
    hide Removal;
    var via := front + [RemoveEdges(conns, changes)];
    RemovalIs(RemoveEdges(conns, changes[..n]), changes[n]);
    forall i | 0 <= i < |changes| ensures Removal(via[i], changes[i], via[i + 1]) {
      if i < n { assert Removal(front[i], changes[..n][i], front[i + 1]); }
    }
  }

  ghost predicate AddingBy(conns: seq<Connection>, registered: seq<SlotId>, changes: seq<ConnChange>, via: seq<seq<Connection>>) {
    && |via| == |changes| + 1 && via[0] == conns && via[|changes|] == AddEdges(conns, registered, changes)
    && forall i | 0 <= i < |changes| :: Addition(via[i], registered, changes[i], via[i + 1])
  }

  lemma AddingOn(conns: seq<Connection>, registered: seq<SlotId>, changes: seq<ConnChange>, n: nat, front: seq<seq<Connection>>)
    requires |changes| == n + 1 && AddingBy(conns, registered, changes[..n], front)
    ensures AddingBy(conns, registered, changes, front + [AddEdges(conns, registered, changes)])
  {
    hide Addition;
    var via := front + [AddEdges(conns, registered, changes)];
    AdditionIs(AddEdges(conns, registered, changes[..n]), registered, changes[n]);
    forall i | 0 <= i < |changes| ensures Addition(via[i], registered, changes[i], via[i + 1]) {
      if i < n { assert Addition(front[i], registered, changes[..n][i], front[i + 1]); }
    }
  }

  /** The lists while edges are taken out. */
  ghost function Removing(conns: seq<Connection>, changes: seq<ConnChange>): (via: seq<seq<Connection>>)
    ensures RemovingBy(conns, changes, via)
  {
    if changes == [] then [conns]
    else
      var n := |changes| - 1;
      var front := Removing(conns, changes[..n]);
      RemovingOn(conns, changes, n, front);
      front + [RemoveEdges(conns, changes)]
  }

  /** The lists while edges are put in or retuned. */
  ghost function Adding(conns: seq<Connection>, registered: seq<SlotId>, changes: seq<ConnChange>): (via: seq<seq<Connection>>)
    ensures AddingBy(conns, registered, changes, via)
  {
    if changes == [] then [conns]
    else
      var n := |changes| - 1;
      var front := Adding(conns, registered, changes[..n]);
      AddingOn(conns, registered, changes, n, front);
      front + [AddEdges(conns, registered, changes)]
  }

  /** The edges after a commit come about by the plan's entries, and in no other way. */
  lemma CommitEdges(conns: seq<Connection>, registered: seq<SlotId>, changes: seq<ConnChange>)
    ensures EdgesBy(conns, registered, changes, AddEdges(RemoveEdges(conns, changes), registered, changes))
  {
    hide Removal, Addition, RemoveEdges, AddEdges;
    var n, mid := |changes|, RemoveEdges(conns, changes);
    var a, b := Removing(conns, changes), Adding(mid, registered, changes);
    var via := a[..n] + b;
    forall i | 0 <= i < n ensures Removal(via[i], changes[i], via[i + 1]) { assert Removal(a[i], changes[i], a[i + 1]); }
    forall i | 0 <= i < n ensures Addition(via[n + i], registered, changes[i], via[n + i + 1]) {
      assert via[n + i] == b[i] && via[n + i + 1] == b[i + 1];
    }
    assert Via(conns, registered, changes, AddEdges(mid, registered, changes), via);
  }

  // ---------------------------------------------------------------- pair by pair

  /** The edges of a pair, in order. */
  ghost function Of(conns: seq<Connection>, from: Option<SlotId>, to: SlotId): seq<Connection> {
    Filter(conns, (c: Connection) => c.from == from && c.to == to)
  }

  lemma OfOne(conns: seq<Connection>, i: nat, from: Option<SlotId>, to: SlotId)
    requires i < |conns|
    ensures var c := conns[i];
            Of(conns, from, to) == Of(conns[..i], from, to) + (if Leads(c, from, Some(to)) then [c] else []) + Of(conns[i + 1..], from, to)
  {
    var p := (c: Connection) => c.from == from && c.to == to;
    assert conns == conns[..i] + [conns[i]] + conns[i + 1..];
    FilterConcat(conns[..i] + [conns[i]], conns[i + 1..], p);
    FilterConcat(conns[..i], [conns[i]], p);
    assert [conns[i]][1..] == [];
  }

  lemma OfNone(conns: seq<Connection>, from: Option<SlotId>, to: SlotId)
    requires NoneLeads(conns, from, Some(to))
    ensures Of(conns, from, to) == []
  {
    FilterNone(conns, (c: Connection) => c.from == from && c.to == to);
  }

  /** A removal takes the first edge of its own pair, and leaves every other pair's alone. */
  lemma RemovalOf(a: seq<Connection>, cc: ConnChange, b: seq<Connection>, from: Option<SlotId>, to: SlotId)
    requires Removal(a, cc, b)
    ensures var was, now := Of(a, from, to), Of(b, from, to);
            now == if cc.action == Remove && cc.from == from && cc.to == Some(to) && was != [] then was[1..] else was
  {
    hide Of;
    if cc.action == Remove && !NoneLeads(a, cc.from, cc.to) {
      var i: nat :| FirstAt(a, cc.from, cc.to, i) && b == a[..i] + a[i + 1..];
      OfOne(a, i, from, to);
      OfConcat(a[..i], a[i + 1..], from, to);
      if cc.from == from && cc.to == Some(to) { OfNone(a[..i], from, to); }
    } else if cc.action == Remove && cc.from == from && cc.to == Some(to) {
      OfNone(a, from, to);
    }
  }

  lemma OfConcat(s: seq<Connection>, t: seq<Connection>, from: Option<SlotId>, to: SlotId)
    ensures Of(s + t, from, to) == Of(s, from, to) + Of(t, from, to)
  {
    FilterConcat(s, t, (c: Connection) => c.from == from && c.to == to);
  }

  /** An addition to another pair leaves this one alone; one to this pair puts an edge in
      front, or changes the mode of the first. */
  lemma AdditionOf(a: seq<Connection>, registered: seq<SlotId>, cc: ConnChange, b: seq<Connection>, from: Option<SlotId>, to: SlotId)
    requires Addition(a, registered, cc, b)
    ensures var was, now := Of(a, from, to), Of(b, from, to);
            if cc.from != from || cc.to != Some(to) || cc.action == Remove then now == was
            else if cc.action == Add then
              now == (if to in registered && (from.None? || from.value in registered)
                      then [Connection(from, to, cc.mode, cc.stateful, cc.policy)] else []) + was
            else now == if was == [] then [] else [was[0].(mode := cc.mode)] + was[1..]
  {
    hide Of;
    match cc.action {
      case Remove =>
      case Add =>
        if cc.to.Some? && cc.to.value in registered && (cc.from.None? || cc.from.value in registered) {
          OfOne(b, 0, from, to);
          OfEmpty(from, to);
          assert b[..0] == [];
        } else {
          assert [] + Of(a, from, to) == Of(a, from, to);
        }
      case Rewire => RewireOf(a, cc, b, from, to, registered);
    }
  }

  lemma OfEmpty(from: Option<SlotId>, to: SlotId)
    ensures Of([], from, to) == []
  {
  }

  lemma RewireOf(a: seq<Connection>, cc: ConnChange, b: seq<Connection>, from: Option<SlotId>, to: SlotId, registered: seq<SlotId>)
    requires cc.action == Rewire && Addition(a, registered, cc, b)
    ensures var was, now := Of(a, from, to), Of(b, from, to);
            now == if cc.from == from && cc.to == Some(to) && was != [] then [was[0].(mode := cc.mode)] + was[1..] else was
  {
    hide Of;
    if NoneLeads(a, cc.from, cc.to) {
      if cc.from == from && cc.to == Some(to) { OfNone(a, from, to); }
    } else {
      var i: nat :| FirstAt(a, cc.from, cc.to, i) && b == a[i := a[i].(mode := cc.mode)];
      assert b[..i] == a[..i] && b[i + 1..] == a[i + 1..];
      OfOne(a, i, from, to);
      OfOne(b, i, from, to);
      if cc.from == from && cc.to == Some(to) { OfNone(a[..i], from, to); }
    }
  }

  /** How many entries of the plan remove an edge of the pair, and how many add one. */
  ghost function Removes(changes: seq<ConnChange>, from: Option<SlotId>, to: SlotId): nat {
    |Filter(changes, (cc: ConnChange) => cc.action == Remove && cc.from == from && cc.to == Some(to))|
  }

  ghost function Adds(changes: seq<ConnChange>, from: Option<SlotId>, to: SlotId): nat {
    |Filter(changes, (cc: ConnChange) => cc.action == Add && cc.from == from && cc.to == Some(to))|
  }

  lemma CountSnoc(changes: seq<ConnChange>, n: nat, p: ConnChange -> bool)
    requires n < |changes|
    ensures |Filter(changes[..n + 1], p)| == |Filter(changes[..n], p)| + if p(changes[n]) then 1 else 0
  {
    assert changes[..n + 1] == changes[..n] + [changes[n]];
    FilterConcat(changes[..n], [changes[n]], p);
    assert [changes[n]][1..] == [];
  }

  lemma RemovesSnoc(changes: seq<ConnChange>, n: nat, from: Option<SlotId>, to: SlotId)
    requires n < |changes|
    ensures var cc := changes[n];
            Removes(changes[..n + 1], from, to) ==
            Removes(changes[..n], from, to) + if cc.action == Remove && cc.from == from && cc.to == Some(to) then 1 else 0
  {
    CountSnoc(changes, n, (cc: ConnChange) => cc.action == Remove && cc.from == from && cc.to == Some(to));
  }

  lemma AddsSnoc(changes: seq<ConnChange>, n: nat, from: Option<SlotId>, to: SlotId)
    requires n < |changes|
    ensures var cc := changes[n];
            Adds(changes[..n + 1], from, to) == Adds(changes[..n], from, to) + if cc.action == Add && cc.from == from && cc.to == Some(to) then 1 else 0
  {
    CountSnoc(changes, n, (cc: ConnChange) => cc.action == Add && cc.from == from && cc.to == Some(to));
  }

  function Less(n: nat, k: nat): nat {
    if k <= n then n - k else 0
  }

  lemma {:induction false} RemovedSoFar(conns: seq<Connection>, registered: seq<SlotId>, changes: seq<ConnChange>, out: seq<Connection>,
                                        via: seq<seq<Connection>>, n: nat, from: Option<SlotId>, to: SlotId)
    requires Via(conns, registered, changes, out, via) && n <= |changes|
    ensures |Of(via[n], from, to)| == Less(|Of(conns, from, to)|, Removes(changes[..n], from, to))
  {
    hide Of, Removes, Removal, Addition;
    if n == 0 {
      NoneCounted(from, to);
      assert changes[..0] == [];
    } else {
      RemovedSoFar(conns, registered, changes, out, via, n - 1, from, to);
      RemovesSnoc(changes, n - 1, from, to);
      RemovalOf(via[n - 1], changes[n - 1], via[n], from, to);
    }
  }

  lemma NoneCounted(from: Option<SlotId>, to: SlotId)
    ensures Removes([], from, to) == 0 && Adds([], from, to) == 0
  {
  }

  ghost predicate Known(registered: seq<SlotId>, from: Option<SlotId>, to: SlotId) {
    to in registered && (from.None? || from.value in registered)
  }

  lemma {:induction false} AddedSoFar(conns: seq<Connection>, registered: seq<SlotId>, changes: seq<ConnChange>, out: seq<Connection>,
                                      via: seq<seq<Connection>>, n: nat, from: Option<SlotId>, to: SlotId)
    requires Via(conns, registered, changes, out, via) && n <= |changes|
    ensures |Of(via[|changes| + n], from, to)| ==
            |Of(via[|changes|], from, to)| + if Known(registered, from, to) then Adds(changes[..n], from, to) else 0
  {
    hide Of, Adds, Removal, Addition;
    if n == 0 {
      NoneCounted(from, to);
      assert changes[..0] == [];
    } else {
      AddedSoFar(conns, registered, changes, out, via, n - 1, from, to);
      AddsSnoc(changes, n - 1, from, to);
      var k := |changes| + n - 1;
      assert Addition(via[k], registered, changes[n - 1], via[k + 1]);
      AdditionOf(via[k], registered, changes[n - 1], via[k + 1], from, to);
    }
  }

  /** The balance of a pair: what there was, less the removals (never below none), plus the
      additions if its ends are registered. */
  lemma EdgeBalance(conns: seq<Connection>, registered: seq<SlotId>, changes: seq<ConnChange>, out: seq<Connection>,
                    from: Option<SlotId>, to: SlotId)
    requires EdgesBy(conns, registered, changes, out)
    ensures |Of(out, from, to)| == Less(|Of(conns, from, to)|, Removes(changes, from, to))
                                   + if Known(registered, from, to) then Adds(changes, from, to) else 0
  {
    hide Of, Adds, Removes, Known;
    var via :| Via(conns, registered, changes, out, via);
    RemovedSoFar(conns, registered, changes, out, via, |changes|, from, to);
    AddedSoFar(conns, registered, changes, out, via, |changes|, from, to);
    assert changes[..|changes|] == changes;
  }

  /** No entry of the plan names the pair. */
  ghost predicate Unnamed(changes: seq<ConnChange>, from: Option<SlotId>, to: Option<SlotId>) {
    forall cc | cc in changes :: cc.from != from || cc.to != to
  }

  /** The edges of pairs the plan does not name, in order. */
  ghost function Unaffected(conns: seq<Connection>, changes: seq<ConnChange>): seq<Connection> {
    Filter(conns, Spared(changes))
  }

  ghost function Spared(changes: seq<ConnChange>): Connection -> bool {
    (c: Connection) => Unnamed(changes, c.from, Some(c.to))
  }

  lemma UnaffectedConcat(s: seq<Connection>, t: seq<Connection>, changes: seq<ConnChange>)
    ensures Unaffected(s + t, changes) == Unaffected(s, changes) + Unaffected(t, changes)
  {
    FilterConcat(s, t, Spared(changes));
  }

  lemma UnaffectedOne(c: Connection, changes: seq<ConnChange>)
    ensures Unaffected([c], changes) == if Unnamed(changes, c.from, Some(c.to)) then [c] else []
  {
    assert [c][1..] == [] && Spared(changes)(c) == Unnamed(changes, c.from, Some(c.to));
    assert Filter([c][1..], Spared(changes)) == [];
  }

  lemma UnaffectedAt(a: seq<Connection>, i: nat, changes: seq<ConnChange>)
    requires i < |a| && !Unnamed(changes, a[i].from, Some(a[i].to))
    ensures Unaffected(a, changes) == Unaffected(a[..i], changes) + Unaffected(a[i + 1..], changes)
  {
    hide Unaffected, Unnamed;
    assert a == a[..i] + [a[i]] + a[i + 1..];
    UnaffectedConcat(a[..i] + [a[i]], a[i + 1..], changes);
    UnaffectedConcat(a[..i], [a[i]], changes);
    UnaffectedOne(a[i], changes);
  }

  lemma RemovalSpares(a: seq<Connection>, cc: ConnChange, b: seq<Connection>, changes: seq<ConnChange>)
    requires Removal(a, cc, b) && cc in changes
    ensures Unaffected(b, changes) == Unaffected(a, changes)
  {
    hide Unaffected;
    if cc.action == Remove && !NoneLeads(a, cc.from, cc.to) {
      var i: nat :| FirstAt(a, cc.from, cc.to, i) && b == a[..i] + a[i + 1..];
      UnaffectedAt(a, i, changes);
      UnaffectedConcat(a[..i], a[i + 1..], changes);
    }
  }

  lemma AdditionSpares(a: seq<Connection>, registered: seq<SlotId>, cc: ConnChange, b: seq<Connection>, changes: seq<ConnChange>)
    requires Addition(a, registered, cc, b) && cc in changes
    ensures Unaffected(b, changes) == Unaffected(a, changes)
  {
    hide Unaffected;
    if cc.action == Add && b != a {
      assert b == [b[0]] + a;
      UnaffectedConcat([b[0]], a, changes);
      UnaffectedOne(b[0], changes);
    } else if cc.action == Rewire && !NoneLeads(a, cc.from, cc.to) {
      var i: nat :| FirstAt(a, cc.from, cc.to, i) && b == a[i := a[i].(mode := cc.mode)];
      UnaffectedAt(a, i, changes);
      UnaffectedAt(b, i, changes);
      assert b[..i] == a[..i] && b[i + 1..] == a[i + 1..];
    }
  }

  lemma {:induction false} SparedSoFar(conns: seq<Connection>, registered: seq<SlotId>, changes: seq<ConnChange>, out: seq<Connection>,
                                       via: seq<seq<Connection>>, k: nat)
    requires Via(conns, registered, changes, out, via) && k < |via|
    ensures Unaffected(via[k], changes) == Unaffected(conns, changes)
  {
    hide Unaffected, Removal, Addition;
    var n := |changes|;
    if k > 0 {
      SparedSoFar(conns, registered, changes, out, via, k - 1);
      if k <= n {
        assert Removal(via[k - 1], changes[k - 1], via[k]);
        RemovalSpares(via[k - 1], changes[k - 1], via[k], changes);
      } else {
        var i := k - 1 - n;
        assert Addition(via[n + i], registered, changes[i], via[n + i + 1]);
        AdditionSpares(via[k - 1], registered, changes[i], via[k], changes);
      }
    }
  }

  /** Edges of pairs the plan does not name stay as they are, in the order they were. */
  lemma OthersStay(conns: seq<Connection>, registered: seq<SlotId>, changes: seq<ConnChange>, out: seq<Connection>)
    requires EdgesBy(conns, registered, changes, out)
    ensures Unaffected(out, changes) == Unaffected(conns, changes)
  {
    hide Unaffected;
    var via :| Via(conns, registered, changes, out, via);
    SparedSoFar(conns, registered, changes, out, via, 2 * |changes|);
  }
}
