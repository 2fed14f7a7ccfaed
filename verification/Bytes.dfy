/** Bytes and C strings. */
module Bytes {
  type Byte = b: int | 0 <= b < 256

  const NUL: Byte := 0
  const DOT: Byte := 46
  const SLASH: Byte := 47

  predicate NulFree(s: seq<Byte>) {
    forall i | 0 <= i < |s| :: s[i] != NUL
  }

  /** What a C reader sees of a buffer: everything before the first NUL. */
  function CString(s: seq<Byte>): (r: seq<Byte>)
    ensures NulFree(r) && r <= s && (|r| < |s| ==> s[|r|] == NUL)
  {
    if s == [] || s[0] == NUL then [] else [s[0]] + CString(s[1..])
  }

  lemma CStringIs(s: seq<Byte>)
    ensures NulFree(s) <==> CString(s) == s
  {
    assert |CString(s)| < |s| ==> s[|CString(s)|] == NUL;
  }

  lemma SliceOfSlice(s: seq<Byte>, a: nat, b: nat, i: nat, j: nat)
    requires a <= b <= |s| && i <= j <= b - a
    ensures s[a..b][i..j] == s[a + i..a + j]
  {
    var m := s[a..b];
    var x, y := m[i..j], s[a + i..a + j];
    forall k | 0 <= k < j - i ensures x[k] == y[k] {
      assert x[k] == m[i + k];
    }
  }

  /** The part of a path before its first slash. */
  function Segment(s: seq<Byte>): (r: seq<Byte>)
    ensures r <= s && SLASH !in r && (|r| < |s| ==> s[|r|] == SLASH)
  {
    if s == [] || s[0] == SLASH then [] else [s[0]] + Segment(s[1..])
  }

  lemma SegmentIs(s: seq<Byte>, seg: seq<Byte>)
    ensures Segment(s) == seg <==> SLASH !in seg && seg <= s && (|s| > |seg| ==> s[|seg|] == SLASH)
  {
    var r := Segment(s);
    assert |r| < |seg| && seg <= s ==> s[|r|] == seg[|r|] && seg[|r|] in seg;
    assert |seg| < |r| ==> s[|seg|] == r[|seg|] && r[|seg|] in r;
  }
}
