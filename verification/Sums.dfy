/** Adding up an integer measure over a sequence. */
module Sums {

  function Sum<T>(s: seq<T>, f: T -> int): int {
    if s == [] then 0 else Sum(s[..|s| - 1], f) + f(s[|s| - 1])
  }

  lemma SumSnoc<T>(s: seq<T>, x: T, f: T -> int)
    ensures Sum(s + [x], f) == Sum(s, f) + f(x)
  {
    assert (s + [x])[..|s|] == s;
  }

  lemma {:induction false} SumConcat<T>(s: seq<T>, t: seq<T>, f: T -> int)
    ensures Sum(s + t, f) == Sum(s, f) + Sum(t, f)
  {
    if t == [] {
      assert s + t == s;
    } else {
      var front, last := t[..|t| - 1], t[|t| - 1];
      assert s + t == (s + front) + [last];
      SumConcat(s, front, f);
      SumSnoc(s + front, last, f);
    }
  }

  /** Taking out one element takes out its share. */
  lemma SumRemove<T>(s: seq<T>, k: nat, f: T -> int)
    requires k < |s|
    ensures Sum(s, f) == Sum(s[..k] + s[k + 1..], f) + f(s[k])
  {
    hide Sum;
    var a, x, b := s[..k], s[k], s[k + 1..];
    assert s == (a + [x]) + b;
    SumConcat(a + [x], b, f);
    SumSnoc(a, x, f);
    SumConcat(a, b, f);
  }

  /** Replacing one element replaces its share. */
  lemma SumUpdate<T>(s: seq<T>, k: nat, x: T, f: T -> int)
    requires k < |s|
    ensures Sum(s[k := x], f) == Sum(s, f) - f(s[k]) + f(x)
  {
    hide Sum;
    SumRemove(s, k, f);
    SumRemove(s[k := x], k, f);
    assert s[k := x][..k] + s[k := x][k + 1..] == s[..k] + s[k + 1..];
  }

  lemma SumHead<T>(s: seq<T>, f: T -> int)
    requires s != []
    ensures Sum(s, f) == f(s[0]) + Sum(s[1..], f)
  {
    hide Sum;
    SumRemove(s, 0, f);
    assert s[..0] + s[1..] == s[1..];
  }

  lemma {:induction false} SumNonNegative<T>(s: seq<T>, f: T -> int)
    requires forall x | x in s :: f(x) >= 0
    ensures Sum(s, f) >= 0
  {
    if s != [] {
      SumNonNegative(s[..|s| - 1], f);
    }
  }

  /** A sum of naturals that is zero has no positive share. */
  lemma SumZero<T>(s: seq<T>, f: T -> int, x: T)
    requires (forall y | y in s :: f(y) >= 0) && x in s && Sum(s, f) <= 0
    ensures f(x) == 0
  {
    var k :| 0 <= k < |s| && s[k] == x;
    SumRemove(s, k, f);
    assert forall y | y in s[..k] + s[k + 1..] :: y in s;
    SumNonNegative(s[..k] + s[k + 1..], f);
  }
}
