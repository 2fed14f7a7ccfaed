/** Distinctness and counting for finite sequences. */
module Sequences {

  ghost function Elements<T>(s: seq<T>): set<T> {
    set v | v in s
  }

  lemma NonEmptyHas<T>(s: seq<T>)
    ensures s != [] ==> exists x :: x in s
  {
    if s != [] {
      assert s[0] in s;
    }
  }

  ghost predicate Distinct<T>(s: seq<T>) {
    forall i, j | 0 <= i < j < |s| :: s[i] != s[j]
  }

  lemma {:induction false} DistinctCard<T>(s: seq<T>)
    requires Distinct(s)
    ensures |Elements(s)| == |s|
  {
    if s != [] {
      var front, last := s[..|s| - 1], s[|s| - 1];
      DistinctCard(front);
      assert Elements(s) == Elements(front) + {last};
    }
  }

  lemma {:induction false} SubsetCard<T>(a: set<T>, b: set<T>)
    requires a <= b
    ensures |a| <= |b|
    ensures |a| == |b| ==> a == b
  {
    if a != {} {
      var x :| x in a;
      SubsetCard(a - {x}, b - {x});
    }
  }

  lemma OneElement<T>(s: seq<T>, x: T)
    requires Distinct(s) && x in s && forall y | y in s :: y == x
    ensures s == [x]
  {
    DistinctCard(s);
    assert Elements(s) == {x};
  }

  ghost function Below(n: nat): (s: set<nat>)
    ensures |s| == n && forall v: nat :: v in s <==> v < n
  {
    if n == 0 then {} else Below(n - 1) + {n - 1}
  }

  lemma DistinctLength(n: nat, order: seq<nat>)
    requires Distinct(order) && forall v | v in order :: v < n
    ensures |order| <= n
    ensures |order| == n ==> forall v: nat | v < n :: v in order
    ensures |order| < n ==> exists v: nat :: v < n && v !in order
  {
    DistinctCard(order);
    SubsetCard(Elements(order), Below(n));
    if |order| == n {
      forall v: nat | v < n ensures v in order { assert v in Below(n); }
    } else {
      assert !(Below(n) <= Elements(order)) by {
        if Below(n) <= Elements(order) { SubsetCard(Below(n), Elements(order)); }
      }
      var v :| v in Below(n) && v !in Elements(order);
    }
  }

  /** `perm` lists every index below `n` once. */
  ghost predicate Permutation(n: nat, perm: seq<nat>) {
    |perm| == n && Distinct(perm) && forall k | 0 <= k < |perm| :: perm[k] < n
  }

  lemma PermutationHits(n: nat, perm: seq<nat>, v: nat) returns (k: nat)
    requires Permutation(n, perm) && v < n
    ensures k < n && perm[k] == v
  {
    DistinctLength(n, perm);
    assert v in perm;
    k :| 0 <= k < |perm| && perm[k] == v;
  }

  function FirstIndex<T(==)>(s: seq<T>, x: T): (j: nat)
    requires x in s
    ensures j < |s| && s[j] == x && x !in s[..j]
  {
    if s[0] == x then 0 else 1 + FirstIndex(s[1..], x)
  }

  lemma FirstIndexIsFirst<T>(s: seq<T>, j: nat)
    requires j < |s| && s[j] !in s[..j]
    ensures FirstIndex(s, s[j]) == j
  {
    var i := FirstIndex(s, s[j]);
    assert forall k | 0 <= k < j :: s[..j][k] != s[j];
    assert forall k | 0 <= k < i :: s[..i][k] != s[j];
  }

  lemma FirstIndexPrefix<T>(s: seq<T>, p: nat, x: T)
    requires p <= |s| && x in s[..p]
    ensures FirstIndex(s, x) < p
  {
    var q := FirstIndex(s[..p], x);
    assert s[q] == x && s[..p][..q] == s[..q];
    FirstIndexIsFirst(s, q);
  }

  /** At most the first `n` elements. */
  function Cut<T>(s: seq<T>, n: nat): seq<T> {
    if |s| <= n then s else s[..n]
  }

  /** `s` without the first `x` in it. */
  function Without<T(==)>(s: seq<T>, x: T): seq<T> {
    if s == [] then [] else if s[0] == x then s[1..] else [s[0]] + Without(s[1..], x)
  }

  lemma {:induction false} WithoutAt<T>(s: seq<T>, x: T, i: nat)
    requires i < |s| && s[i] == x && x !in s[..i]
    ensures Without(s, x) == s[..i] + s[i + 1..]
  {
    if i > 0 {
      var rest := s[1..];
      assert s[..i] == [s[0]] + rest[..i - 1];
      WithoutAt(rest, x, i - 1);
      assert s[i + 1..] == rest[i..];
    }
  }

  lemma {:induction false} WithoutIs<T>(s: seq<T>, x: T)
    requires Distinct(s)
    ensures var r := Without(s, x);
            && Distinct(r) && (forall y :: y in r <==> y in s && y != x) && |r| == |s| - if x in s then 1 else 0
  {
    if s != [] {
      WithoutIs(s[1..], x);
      assert s == [s[0]] + s[1..] && s[0] !in s[1..];
    }
  }

  /** The elements that satisfy `p`, in order. */
  function Filter<T>(s: seq<T>, p: T -> bool): seq<T> {
    if s == [] then [] else if p(s[0]) then [s[0]] + Filter(s[1..], p) else Filter(s[1..], p)
  }

  lemma {:induction false} FilterIn<T>(s: seq<T>, p: T -> bool)
    ensures forall x :: x in Filter(s, p) <==> x in s && p(x)
  {
    if s != [] {
      FilterIn(s[1..], p);
      assert s == [s[0]] + s[1..];
    }
  }

  lemma {:induction false} FilterSame<T>(s: seq<T>, p: T -> bool, q: T -> bool)
    requires forall x | x in s :: p(x) == q(x)
    ensures Filter(s, p) == Filter(s, q)
  {
    if s != [] {
      assert s[0] in s && forall x | x in s[1..] :: x in s;
      FilterSame(s[1..], p, q);
    }
  }

  lemma {:induction false} FilterSnoc<T>(s: seq<T>, x: T, p: T -> bool)
    ensures Filter(s + [x], p) == Filter(s, p) + if p(x) then [x] else []
  {
    if s == [] {
      assert [] + [x] == [x];
    } else {
      assert (s + [x])[0] == s[0] && (s + [x])[1..] == s[1..] + [x];
      FilterSnoc(s[1..], x, p);
    }
  }

  lemma {:induction false} FilterConcat<T>(s: seq<T>, t: seq<T>, p: T -> bool)
    ensures Filter(s + t, p) == Filter(s, p) + Filter(t, p)
  {
    if s == [] {
      assert s + t == t;
    } else {
      assert (s + t)[1..] == s[1..] + t;
      FilterConcat(s[1..], t, p);
    }
  }

  lemma {:induction false} FilterNone<T>(s: seq<T>, p: T -> bool)
    requires forall x | x in s :: !p(x)
    ensures Filter(s, p) == []
  {
    if s != [] {
      assert s[0] in s && forall x | x in s[1..] :: x in s;
      FilterNone(s[1..], p);
    }
  }

  /** Filtering after taking one out is taking it out of the filtered, if it is there. */
  lemma {:induction false} FilterWithout<T>(s: seq<T>, x: T, p: T -> bool)
    requires Distinct(s)
    ensures Filter(Without(s, x), p) == if p(x) then Without(Filter(s, p), x) else Filter(s, p)
  {
    if s != [] {
      assert Distinct(s[1..]) && s[0] !in s[1..];
      FilterWithout(s[1..], x, p);
      FilterIn(s[1..], p);
      if s[0] == x {
        assert !p(x) ==> Filter(s, p) == Filter(s[1..], p);
      } else {
        var w := Without(s, x);
        assert w[0] == s[0] && w[1..] == Without(s[1..], x);
      }
    }
  }

  lemma {:induction false} SameWithout<T>(q: seq<T>, x: T)
    requires x !in q
    ensures Without(q, x) == q
  {
    if q != [] { SameWithout(q[1..], x); }
  }

  /** Walking a list for an object. */
  method OnList<T(==)>(q: seq<T>, x: T) returns (found: bool)
    ensures found <==> x in q
  {
    for i := 0 to |q|
      invariant x !in q[..i]
    {
      if q[i] == x { return true; }
      assert q[..i + 1] == q[..i] + [q[i]];
    }
    assert q[..|q|] == q;
    return false;
  }

  /** Unlinking the first node for an object, if there is one. */
  method Unlink<T(==)>(q: seq<T>, x: T) returns (r: seq<T>)
    ensures r == Without(q, x)
  {
    var i := 0;
    while i < |q| && q[i] != x
      invariant i <= |q| && x !in q[..i]
    {
      assert q[..i + 1] == q[..i] + [q[i]];
      i := i + 1;
    }
    if i < |q| {
      WithoutAt(q, x, i);
      r := q[..i] + q[i + 1..];
    } else {
      assert q[..i] == q;
      SameWithout(q, x);
      r := q;
    }
  }
}
