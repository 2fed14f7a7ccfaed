/** `path_normalize` and `path_make_absolute` on their buffers.  The buffer size is a
    parameter; positions are kept in bytes, so it may not exceed 256. */
module PathBuffers {
  import opened Composition
  import opened Sequences
  import opened Bytes
  import opened Paths

  /** The buffer holds a terminated string. */
  ghost predicate Terminated(buf: seq<Byte>) {
    |CString(buf)| < |buf|
  }

  lemma StringAt(buf: seq<Byte>, n: nat)
    requires n < |buf| && buf[n] == NUL && NulFree(buf[..n])
    ensures CString(buf) == buf[..n]
  {
    assert forall k | 0 <= k < n :: buf[k] == buf[..n][k] && buf[k] != NUL;
    assert |CString(buf)| == n;
  }

  // ---------------------------------------------------------------- the output buffer

  /** `out` spells the place so far; `stk` remembers the length before each segment. */
  ghost predicate Built(out: seq<Byte>, stk: seq<nat>, at: seq<Name>) {
    && Clean(at) && Render(at) <= out && |at| <= |stk|
    && forall k | 0 <= k < |at| :: stk[k] == |Render(at[..k])|
  }

  lemma {:induction false} RenderRoom(at: seq<Name>)
    requires Clean(at)
    ensures 2 * |at| <= |Body(at)|
  {
    if at != [] {
      assert CleanName(at[|at| - 1]);
      RenderRoom(at[..|at| - 1]);
    }
  }

  lemma RenderPush(at: seq<Name>, g: Name)
    requires Clean(at)
    ensures Render(at + [g]) == Render(at) + (if |Render(at)| > 1 then [SLASH] else []) + g
  {
    RenderRoom(at);
    assert (at + [g])[..|at|] == at;
  }

  lemma BodyCut(at: seq<Name>)
    requires at != []
    ensures Render(at[..|at| - 1]) <= Render(at)
  {
    BodyStarts(at);
    BodyStarts(at[..|at| - 1]);
  }

  lemma PushBuilt(out: seq<Byte>, out': seq<Byte>, stk: seq<nat>, at: seq<Name>, g: Name)
    requires Built(out, stk, at) && CleanName(g) && |at| < |stk| && Render(at + [g]) <= out'
    ensures Built(out', stk[|at| := |Render(at)|], at + [g])
  {
    hide Render;
    var more, stk' := at + [g], stk[|at| := |Render(at)|];
    forall k | 0 <= k < |more| ensures stk'[k] == |Render(more[..k])| {
      assert more[..k] == at[..k] && (k == |at| ==> at[..k] == at);
    }
  }

  lemma PopBuilt(out: seq<Byte>, stk: seq<nat>, at: seq<Name>)
    requires Built(out, stk, at) && at != []
    ensures Built(out, stk, at[..|at| - 1]) && stk[|at| - 1] == |Render(at[..|at| - 1])|
  {
    BodyCut(at);
    hide Render;
    var less := at[..|at| - 1];
    forall k | 0 <= k < |less| ensures stk[k] == |Render(less[..k])| {
      assert less[..k] == at[..k];
    }
  }

  // ---------------------------------------------------------------- reading segments

  lemma SkipSlash(s: seq<Byte>, i: nat)
    requires i < |s| && s[i] == SLASH
    ensures Segments(s[i..]) == Segments(s[i + 1..])
  {
    assert s[i..][1..] == s[i + 1..];
  }

  lemma NextSegment(s: seq<Byte>, i: nat, j: nat)
    requires i < j <= |s| && SLASH !in s[i..j] && (j < |s| ==> s[j] == SLASH)
    ensures Segments(s[i..]) == [s[i..j]] + Segments(s[j..])
  {
    var t, g := s[i..], s[i..j];
    assert t == g + s[j..];
    SegmentAll(g, s[j..]);
    assert g[0] in g && t[|g|..] == s[j..];
  }

  /** Copy a segment behind what is there, with a slash between; both stop at the last byte. */
  method AppendSegment(path: array<Byte>, seg: nat, end: nat, out: array<Byte>, oi: nat) returns (oi': nat)
    requires path != out && out.Length == path.Length && seg <= end < path.Length && 0 < oi < out.Length
    modifies out
    ensures oi <= oi' < out.Length && out[..oi] == old(out[..oi])
    ensures oi + 1 + (end - seg) < out.Length || (oi == 1 && oi + (end - seg) < out.Length) ==>
              out[..oi'] == old(out[..oi]) + (if oi > 1 then [SLASH] else []) + path[seg..end]
  {
    var max := out.Length;
    oi' := oi;
    if oi' > 1 && oi' < max - 1 {
      out[oi'] := SLASH;
      oi' := oi' + 1;
    }
    ghost var base := out[..oi'];
    var i := 0;
    while i < end - seg && oi' < max - 1
      invariant i <= end - seg && oi' == |base| + i < max
      invariant out[..oi'] == base + path[seg..seg + i]
      invariant out[..oi] == old(out[..oi])
    {
      out[oi'] := path[seg + i];
      assert out[..oi' + 1] == out[..oi'] + [path[seg + i]];
      assert path[seg..seg + i + 1] == path[seg..seg + i] + [path[seg + i]];
      i := i + 1;
      oi' := oi' + 1;
    }
  }

  lemma StartBuilt(out: seq<Byte>, stk: seq<nat>)
    requires out != [] && out[0] == SLASH
    ensures Built(out, stk, []) && Render([]) == [SLASH]
  {
  }

  lemma WalkOne(at: seq<Name>, g: Name, rest: seq<Name>)
    ensures Walk(at, [g] + rest) == Walk(Enter(at, g), rest)
  {
  }

  lemma WalkNothing(at: seq<Name>, s: seq<Byte>)
    ensures Walk(at, Segments(s[|s|..])) == at
  {
  }

  // ---------------------------------------------------------------- no NUL appears

  ghost predicate AllNulFree(segs: seq<Name>) {
    forall i | 0 <= i < |segs| :: NulFree(segs[i])
  }

  lemma {:induction false} SegmentsNulFree(s: seq<Byte>)
    requires NulFree(s)
    ensures AllNulFree(Segments(s))
    decreases |s|
  {
    if s == [] {
    } else if s[0] == SLASH {
      SegmentsNulFree(s[1..]);
    } else {
      var g := Segment(s);
      assert g != [];
      SegmentsNulFree(s[|g|..]);
    }
  }

  lemma {:induction false} WalkNulFree(at: seq<Name>, segs: seq<Name>)
    requires AllNulFree(at) && AllNulFree(segs)
    ensures AllNulFree(Walk(at, segs))
    decreases segs
  {
    if segs != [] { WalkNulFree(Enter(at, segs[0]), segs[1..]); }
  }

  lemma {:induction false} BodyNulFree(at: seq<Name>)
    requires AllNulFree(at)
    ensures NulFree(Body(at))
  {
    if at != [] {
      assert NulFree(at[|at| - 1]);
      BodyNulFree(at[..|at| - 1]);
    }
  }

  lemma NormalNulFree(s: seq<Byte>)
    requires NulFree(s)
    ensures NulFree(Normal(s))
  {
    hide Segments, Walk;
    SegmentsNulFree(s);
    WalkNulFree([], Segments(s));
    BodyNulFree(Walk([], Segments(s)));
  }

  // ---------------------------------------------------------------- path_normalize

  /** First index from `i` on that is not a slash. */
  method SkipSlashes(path: array<Byte>, i: nat, ghost s: seq<Byte>) returns (j: nat)
    requires s < path[..] && path[|s|] == NUL && i <= |s|
    ensures i <= j <= |s| && (j < |s| ==> s[j] != SLASH) && Segments(s[i..]) == Segments(s[j..])
    ensures i < |s| && s[i] == SLASH ==> j > i
  {
    j := i;
    while path[j] == SLASH
      invariant i <= j <= |s| && Segments(s[i..]) == Segments(s[j..])
      invariant i < |s| && s[i] == SLASH && j == i ==> path[j] == SLASH
      decreases |s| - j
    {
      SkipSlash(s, j);
      j := j + 1;
    }
  }

  /** The end of the segment at `i`. */
  method SegmentEnd(path: array<Byte>, i: nat, ghost s: seq<Byte>) returns (j: nat)
    requires s < path[..] && path[|s|] == NUL && NulFree(s) && i < |s| && s[i] != SLASH
    ensures i < j <= |s| && SLASH !in s[i..j] && (j < |s| ==> s[j] == SLASH)
  {
    j := i;
    while path[j] != NUL && path[j] != SLASH
      invariant i <= j <= |s| && SLASH !in s[i..j] && (j == i ==> path[j] != NUL && path[j] != SLASH)
      decreases |s| - j
    {
      assert s[i..j + 1] == s[i..j] + [s[j]];
      j := j + 1;
    }
  }

  /** What one segment does to the output: nothing, back to before the last one, or on. */
  method TakeSegment(path: array<Byte>, seg: nat, end: nat, out: array<Byte>, oi: nat, stk: array<nat>, stkn: nat, ghost at: seq<Name>)
      returns (oi': nat, stkn': nat)
    requires path.Length == out.Length <= 256 && path != out && stk.Length == path.Length / 2 && seg < end < path.Length
    requires SLASH !in path[seg..end]
    requires oi == |Render(at)| && stkn == |at| && Built(out[..], stk[..], at)
    requires oi + (if oi > 1 then 1 else 0) + (end - seg) <= end
    modifies out, stk
    ensures var at' := Enter(at, path[seg..end]);
            Built(out[..], stk[..], at') && oi' == |Render(at')| <= (if oi > end then oi else end) && stkn' == |at'|
  {
    hide Render, Clean, Built;
    ghost var g := path[seg..end];
    BuiltFacts(out[..], stk[..], at);
    oi', stkn' := oi, stkn;
    if end - seg == 1 && path[seg] == DOT {
      assert g == [DOT];
    } else if end - seg == 2 && path[seg] == DOT && path[seg + 1] == DOT {
      assert g == [DOT, DOT];
      if stkn > 0 {
        PopBuilt(out[..], stk[..], at);
        BodyCut(at);
        stkn' := stkn - 1;
        oi' := stk[stkn'];
      }
    } else {
      assert CleanName(g) by {
        assert g[0] == path[seg] && |g| == end - seg && (|g| == 2 ==> g[1] == path[seg + 1]);
      }
      oi', stkn' := PushSegment(path, seg, end, out, oi, stk, stkn, at);
    }
  }

  /** A real segment: remember where it starts, copy it behind what is there. */
  method PushSegment(path: array<Byte>, seg: nat, end: nat, out: array<Byte>, oi: nat, stk: array<nat>, stkn: nat, ghost at: seq<Name>)
      returns (oi': nat, stkn': nat)
    requires path.Length == out.Length <= 256 && path != out && stk.Length == path.Length / 2 && seg < end < path.Length
    requires CleanName(path[seg..end])
    requires oi == |Render(at)| && stkn == |at| && Built(out[..], stk[..], at)
    requires oi + (if oi > 1 then 1 else 0) + (end - seg) <= end
    modifies out, stk
    ensures var at' := at + [path[seg..end]];
            Built(out[..], stk[..], at') && oi' == |Render(at')| <= end && stkn' == |at'|
  {
    hide Render, Clean, Built, CleanName;
    ghost var g := path[seg..end];
    BuiltFacts(out[..], stk[..], at);
    RenderPush(at, g);
    RenderAtMost(at);
    CleanWith(at, g);
    RenderAtMost(at + [g]);
    ghost var out0, stk0 := out[..], stk[..];
    stkn' := stkn;
    if stkn < stk.Length {
      stk[stkn] := oi % 256;
      stkn' := stkn + 1;
    }
    assert stk[..] == stk0[stkn := oi];
    oi' := AppendSegment(path, seg, end, out, oi);
    assert out[..oi'] == Render(at + [g]);
    PushBuilt(out0, out[..], stk0, at, g);
  }

  lemma BuiltFacts(out: seq<Byte>, stk: seq<nat>, at: seq<Name>)
    requires Built(out, stk, at)
    ensures Clean(at) && |at| <= |stk| && Render(at) <= out
  {
  }

  lemma CleanWith(at: seq<Name>, g: Name)
    requires Clean(at) && CleanName(g)
    ensures Clean(at + [g])
  {
  }

  /** Every name takes at least two bytes. */
  lemma RenderAtMost(at: seq<Name>)
    requires Clean(at)
    ensures 2 * |at| <= |Render(at)| && |Render(at)| > 0
  {
    RenderRoom(at);
  }

  /** The result in a fresh buffer: its length is the answer. */
  method BuildNormal(path: array<Byte>, ghost s: seq<Byte>) returns (out: array<Byte>, oi: nat)
    requires 2 <= path.Length <= 256 && s < path[..] && path[|s|] == NUL && NulFree(s) && s != [] && s[0] == SLASH
    ensures fresh(out) && out.Length == path.Length && oi <= |s| && out[..oi] == Normal(s)
  {
    hide Segments, Walk, Render, Built, Clean;
    var max := path.Length;
    out := new Byte[max](_ => NUL);
    var stk := new nat[max / 2](_ => 0);
    var stkn := 0;
    out[0] := SLASH;
    oi := 1;
    ghost var at: seq<Name> := [];
    StartBuilt(out[..], stk[..]);
    SkipSlash(s, 0);
    assert s[0..] == s;
    var i := 1;
    while path[i] != NUL
      invariant fresh(out) && fresh(stk) && out.Length == max && stk.Length == max / 2
      invariant 1 <= i <= |s| && (i == 1 || i == |s| || s[i] == SLASH)
      invariant oi == |Render(at)| <= i && stkn == |at| && Built(out[..], stk[..], at)
      invariant Walk([], Segments(s)) == Walk(at, Segments(s[i..]))
      decreases |s| - i
    {
      var seg := SkipSlashes(path, i, s);
      i := seg;
      if path[seg] == NUL { break; }
      i := SegmentEnd(path, seg, s);
      NextSegment(s, seg, i);
      assert path[seg..i] == s[seg..i];
      WalkOne(at, s[seg..i], Segments(s[i..]));
      oi, stkn := TakeSegment(path, seg, i, out, oi, stk, stkn, at);
      at := Enter(at, s[seg..i]);
    }
    WalkNothing(at, s);
    BuiltFacts(out[..], stk[..], at);
  }

  /** `path_normalize`, in place. */
  method Normalize(path: array<Byte>)
    requires 2 <= path.Length <= 256 && Terminated(path[..])
    modifies path
    ensures Terminated(path[..])
    ensures CString(path[..]) == if old(path[0]) == SLASH then Normal(old(CString(path[..]))) else old(CString(path[..]))
    ensures old(path[0]) != SLASH ==> path[..] == old(path[..])
  {
    hide Normal;
    if path[0] != SLASH { return; }
    ghost var s := CString(path[..]);
    assert s < path[..] && path[|s|] == NUL && s != [];
    var out, oi := BuildNormal(path, s);
    NormalNulFree(s);
    out[oi] := NUL;
    assert out[..oi] == Normal(s);
    CopyOut(out, oi, path, Normal(s));
  }

  // ---------------------------------------------------------------- path_make_absolute

  /** Bytes of `src` from `from` up to its end copied behind `oi`, leaving room for the NUL. */
  method CopyString(src: array<Byte>, ghost s: seq<Byte>, dst: array<Byte>, oi: nat) returns (oi': nat)
    requires src != dst && s < src[..] && src[|s|] == NUL && NulFree(s) && oi < dst.Length
    modifies dst
    ensures oi <= oi' < dst.Length && dst[..oi'] == Cut(old(dst[..oi]) + s, dst.Length - 1)
  {
    oi' := oi;
    var i := 0;
    while src[i] != NUL && oi' < dst.Length - 1
      invariant i <= |s| && oi' == oi + i < dst.Length && dst[..oi'] == old(dst[..oi]) + s[..i]
      decreases |s| - i
    {
      dst[oi'] := src[i];
      assert dst[..oi' + 1] == dst[..oi'] + [src[i]] && s[..i + 1] == s[..i] + [s[i]];
      i := i + 1;
      oi' := oi' + 1;
    }
    assert s[..|s|] == s;
    assert oi' == dst.Length - 1 ==> (old(dst[..oi]) + s)[..oi'] == old(dst[..oi]) + s[..i];
  }

  method StripTail(buf: array<Byte>, n: nat) returns (m: nat)
    requires n <= buf.Length
    ensures m <= n && buf[..m] == StripSlashes(buf[..n])
  {
    m := n;
    while m > 1 && buf[m - 1] == SLASH
      invariant m <= n && StripSlashes(buf[..m]) == StripSlashes(buf[..n])
    {
      assert buf[..m][..m - 1] == buf[..m - 1];
      m := m - 1;
    }
  }

  /** The working directory, a slash and the path, as far as they fit. */
  method BuildJoined(path: array<Byte>, cwd: array<Byte>, ghost p: seq<Byte>, ghost c: seq<Byte>) returns (tmp: array<Byte>, oi: nat)
    requires path.Length >= 2 && cwd.Length > 0
    requires p < path[..] && path[|p|] == NUL && NulFree(p) && c < cwd[..] && cwd[|c|] == NUL && NulFree(c)
    ensures fresh(tmp) && tmp.Length == path.Length && oi < tmp.Length && tmp[..oi] == Joined(c, p, path.Length)
  {
    hide StripSlashes, NulFree;
    var max := path.Length;
    tmp := new Byte[max](_ => NUL);
    if cwd[0] == SLASH {
      oi := CopyString(cwd, c, tmp, 0);
      assert [] + c == c;
    } else {
      tmp[0] := SLASH;
      oi := 1;
      assert tmp[..1] == [SLASH];
    }
    oi := StripTail(tmp, oi);
    ghost var stripped := tmp[..oi];
    if oi < max - 1 {
      tmp[oi] := SLASH;
      oi := oi + 1;
      assert tmp[..oi] == stripped + [SLASH];
      oi := CopyString(path, p, tmp, oi);
    } else {
      assert (stripped + [SLASH] + p)[..max - 1] == stripped;
    }
  }

  /** `path_make_absolute`, in place.  `cwd` is the working directory of the process. */
  method MakeAbsolute(path: array<Byte>, cwd: array<Byte>)
    requires 2 <= path.Length <= 256 && Terminated(path[..]) && cwd.Length > 0 && Terminated(cwd[..])
    modifies path
    ensures Terminated(path[..])
    ensures var p, c := old(CString(path[..])), old(CString(cwd[..]));
            CString(path[..]) == if p != [] && p[0] == SLASH then Normal(p) else Normal(Joined(c, p, path.Length))
  {
    hide Normal, Joined;
    ghost var p, c := CString(path[..]), CString(cwd[..]);
    if path[0] == SLASH {
      Normalize(path);
    } else {
      var tmp, oi := BuildJoined(path, cwd, p, c);
      JoinedNulFree(c, p, path.Length);
      tmp[oi] := NUL;
      assert tmp[..oi] == Joined(c, p, path.Length);
      CopyOut(tmp, oi, path, Joined(c, p, path.Length));
      assert path[0] == Joined(c, p, path.Length)[0];
      Normalize(path);
    }
  }

  /** The final copy of a terminated string back over the caller's buffer. */
  method CopyOut(src: array<Byte>, n: nat, dst: array<Byte>, ghost s: seq<Byte>)
    requires src != dst && src.Length == dst.Length && n < src.Length && src[..n] == s && src[n] == NUL && NulFree(s)
    modifies dst
    ensures CString(dst[..]) == s && Terminated(dst[..])
  {
    var i := 0;
    while i <= n
      invariant i <= n + 1 && dst[..i] == src[..i]
    {
      dst[i] := src[i];
      assert dst[..i + 1] == src[..i + 1];
      i := i + 1;
    }
    assert dst[n] == src[n] && dst[..n] == src[..n] by {
      assert dst[..n + 1][n] == src[..n + 1][n] && dst[..n + 1][..n] == dst[..n] && src[..n + 1][..n] == src[..n];
    }
    StringAt(dst[..], n);
  }

  lemma JoinedNulFree(c: seq<Byte>, p: seq<Byte>, max: nat)
    requires NulFree(c) && NulFree(p) && max > 0
    ensures NulFree(Joined(c, p, max)) && (max > 1 ==> Joined(c, p, max) != [] && Joined(c, p, max)[0] == SLASH)
  {
    hide StripSlashes;
  }
}
