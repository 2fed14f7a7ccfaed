/** Path normalisation as a fold over segments: empty ones and "." drop out, ".." takes the
    last one back and stops at the root (section 4.13 of POSIX.1-2017 Base Definitions,
    without symbolic links). */
module Paths {
  import opened Composition
  import opened Sequences
  import opened Bytes

  type Name = seq<Byte>

  /** The non-empty stretches between slashes. */
  function Segments(s: seq<Byte>): seq<Name> {
    if s == [] then []
    else if s[0] == SLASH then Segments(s[1..])
    else
      var g := Segment(s);
      assert g != [];
      [g] + Segments(s[|g|..])
  }

  function Enter(at: seq<Name>, g: Name): seq<Name> {
    if g == [DOT] then at
    else if g == [DOT, DOT] then if at == [] then [] else at[..|at| - 1]
    else at + [g]
  }

  /** Where one ends up from `at` by following `segs`. */
  function Walk(at: seq<Name>, segs: seq<Name>): seq<Name>
    decreases segs
  {
    if segs == [] then at else Walk(Enter(at, segs[0]), segs[1..])
  }

  function Body(at: seq<Name>): seq<Byte> {
    if at == [] then [] else Body(at[..|at| - 1]) + [SLASH] + at[|at| - 1]
  }

  /** The absolute path of a place. */
  function Render(at: seq<Name>): (s: seq<Byte>)
    ensures s != [] && s[0] == SLASH
  {
    BodyStarts(at);
    if at == [] then [SLASH] else Body(at)
  }

  lemma BodyStarts(at: seq<Name>)
    ensures at != [] ==> |Body(at)| > 0 && Body(at)[0] == SLASH
  {
    if |at| > 1 { BodyStarts(at[..|at| - 1]); }
  }

  function Normal(s: seq<Byte>): seq<Byte> {
    Render(Walk([], Segments(s)))
  }

  // ---------------------------------------------------------------- clean places

  /** A name that can stand in a normal path. */
  predicate CleanName(g: Name) {
    g != [] && SLASH !in g && g != [DOT] && g != [DOT, DOT]
  }

  ghost predicate Clean(at: seq<Name>) {
    forall i | 0 <= i < |at| :: CleanName(at[i])
  }

  ghost predicate Whole(segs: seq<Name>) {
    forall i | 0 <= i < |segs| :: segs[i] != [] && SLASH !in segs[i]
  }

  lemma {:induction false} SegmentsWhole(s: seq<Byte>)
    ensures Whole(Segments(s))
    decreases |s|
  {
    if s == [] {
    } else if s[0] == SLASH {
      SegmentsWhole(s[1..]);
    } else {
      var g := Segment(s);
      assert g != [];
      SegmentsWhole(s[|g|..]);
    }
  }

  lemma {:induction false} WalkClean(at: seq<Name>, segs: seq<Name>)
    requires Clean(at) && Whole(segs)
    ensures Clean(Walk(at, segs))
    decreases segs
  {
    if segs != [] { WalkClean(Enter(at, segs[0]), segs[1..]); }
  }

  lemma {:induction false} WalkConcat(at: seq<Name>, a: seq<Name>, b: seq<Name>)
    ensures Walk(at, a + b) == Walk(Walk(at, a), b)
    decreases a
  {
    if a == [] {
      assert a + b == b;
    } else {
      assert (a + b)[0] == a[0] && (a + b)[1..] == a[1..] + b;
      WalkConcat(Enter(at, a[0]), a[1..], b);
    }
  }

  /** Clean names are entered one by one. */
  lemma {:induction false} WalkDown(at: seq<Name>, segs: seq<Name>)
    requires Clean(segs)
    ensures Walk(at, segs) == at + segs
    decreases segs
  {
    if segs == [] {
      assert at + [] == at;
    } else {
      assert CleanName(segs[0]);
      WalkDown(at + [segs[0]], segs[1..]);
      assert at + [segs[0]] + segs[1..] == at + segs;
    }
  }

  // ---------------------------------------------------------------- segments of joined paths

  lemma SegmentAll(g: Name, rest: seq<Byte>)
    requires SLASH !in g && (rest != [] ==> rest[0] == SLASH)
    ensures Segment(g + rest) == g
  {
    SegmentIs(g + rest, g);
  }

  /** A slash separates. */
  lemma {:induction false} SegmentsJoin(a: seq<Byte>, b: seq<Byte>)
    ensures Segments(a + [SLASH] + b) == Segments(a) + Segments(b)
    decreases |a|
  {
    var whole := a + [SLASH] + b;
    if a == [] {
      assert whole[1..] == b;
    } else if a[0] == SLASH {
      assert whole[1..] == a[1..] + [SLASH] + b;
      SegmentsJoin(a[1..], b);
    } else {
      var g := Segment(a);
      assert g != [];
      SegmentIs(a, g);
      var tail := a[|g|..];
      assert a == g + tail;
      assert whole == g + (tail + [SLASH] + b);
      SegmentAll(g, tail + [SLASH] + b);
      assert whole[|g|..] == tail + [SLASH] + b;
      SegmentsJoin(tail, b);
    }
  }

  lemma SegmentsOfOne(g: Name)
    requires g != [] && SLASH !in g
    ensures Segments(g) == [g]
  {
    SegmentIs(g, g);
    assert g[0] in g && g[|g|..] == [];
  }

  lemma {:induction false} SegmentsOfBody(at: seq<Name>)
    requires Whole(at)
    ensures Segments(Body(at)) == at
  {
    if at != [] {
      var front, last := at[..|at| - 1], at[|at| - 1];
      SegmentsOfBody(front);
      SegmentsJoin(Body(front), last);
      SegmentsOfOne(last);
    }
  }

  /** Rendering loses nothing. */
  lemma SegmentsOfRender(at: seq<Name>)
    requires Whole(at)
    ensures Segments(Render(at)) == at
  {
    SegmentsOfBody(at);
    assert [SLASH][1..] == [];
  }

  // ---------------------------------------------------------------- what normal paths are like

  lemma CleanIsWhole(at: seq<Name>)
    requires Clean(at)
    ensures Whole(at)
  {
    forall i | 0 <= i < |at| ensures at[i] != [] && SLASH !in at[i] { assert CleanName(at[i]); }
  }

  /** The segments of a normal path are the place it names. */
  lemma NormalSegments(s: seq<Byte>)
    ensures Clean(Segments(Normal(s))) && Segments(Normal(s)) == Walk([], Segments(s))
  {
    hide Render, Walk, Segments;
    SegmentsWhole(s);
    WalkClean([], Segments(s));
    CleanIsWhole(Walk([], Segments(s)));
    SegmentsOfRender(Walk([], Segments(s)));
  }

  lemma Idempotent(s: seq<Byte>)
    ensures Normal(Normal(s)) == Normal(s)
  {
    hide Render, Walk, Segments;
    NormalSegments(s);
    WalkDown([], Segments(Normal(s)));
    assert [] + Segments(Normal(s)) == Segments(Normal(s));
  }

  /** Two paths have the same normal form exactly if they lead to the same place. */
  lemma NormalDecides(a: seq<Byte>, b: seq<Byte>)
    ensures Normal(a) == Normal(b) <==> Walk([], Segments(a)) == Walk([], Segments(b))
  {
    hide Render, Walk, Segments;
    NormalSegments(a);
    NormalSegments(b);
  }

  /** Bytes the segments take up with a slash each. */
  function Span(segs: seq<Name>): nat {
    if segs == [] then 0 else 1 + |segs[0]| + Span(segs[1..])
  }

  lemma {:induction false} BodySpan(at: seq<Name>)
    ensures |Body(at)| == Span(at)
  {
    if at != [] {
      var front, last := at[..|at| - 1], at[|at| - 1];
      BodySpan(front);
      assert at == front + [last];
      SpanSnoc(front, last);
    }
  }

  lemma {:induction false} SpanSnoc(a: seq<Name>, g: Name)
    ensures Span(a + [g]) == Span(a) + 1 + |g|
  {
    if a == [] {
      assert [] + [g] == [g];
    } else {
      assert (a + [g])[0] == a[0] && (a + [g])[1..] == a[1..] + [g];
      SpanSnoc(a[1..], g);
    }
  }

  lemma {:induction false} WalkShrinks(at: seq<Name>, segs: seq<Name>)
    ensures Span(Walk(at, segs)) <= Span(at) + Span(segs)
    decreases segs
  {
    if segs != [] {
      var g := segs[0];
      SpanSnoc(at, g);
      if at != [] {
        assert at == at[..|at| - 1] + [at[|at| - 1]];
        SpanSnoc(at[..|at| - 1], at[|at| - 1]);
      }
      WalkShrinks(Enter(at, g), segs[1..]);
    }
  }

  lemma {:induction false} SegmentsSpan(s: seq<Byte>)
    ensures Span(Segments(s)) <= |s| + if s == [] || s[0] == SLASH then 0 else 1
    decreases |s|
  {
    if s == [] {
    } else if s[0] == SLASH {
      SegmentsSpan(s[1..]);
    } else {
      var g := Segment(s);
      assert g != [];
      SegmentsSpan(s[|g|..]);
    }
  }

  /** Normalising an absolute path never makes it longer. */
  lemma NeverLonger(s: seq<Byte>)
    requires s != [] && s[0] == SLASH
    ensures |Normal(s)| <= |s|
  {
    hide Walk, Segments;
    var at := Walk([], Segments(s));
    SegmentsSpan(s);
    WalkShrinks([], Segments(s));
    BodySpan(at);
  }

  // ---------------------------------------------------------------- relative paths

  function StripSlashes(s: seq<Byte>): (r: seq<Byte>)
    ensures r <= s && (s != [] ==> r != [])
  {
    if |s| > 1 && s[|s| - 1] == SLASH then StripSlashes(s[..|s| - 1]) else s
  }

  /** What `path_make_absolute` puts in its scratch buffer of `max` bytes. */
  function Joined(cwd: seq<Byte>, path: seq<Byte>, max: nat): seq<Byte>
    requires max > 0
  {
    var base := if cwd != [] && cwd[0] == SLASH then cwd else [SLASH];
    Cut(StripSlashes(Cut(base, max - 1)) + [SLASH] + path, max - 1)
  }

  lemma {:induction false} StripKeeps(s: seq<Byte>)
    ensures Segments(StripSlashes(s)) == Segments(s)
  {
    if |s| > 1 && s[|s| - 1] == SLASH {
      StripKeeps(s[..|s| - 1]);
      assert s == s[..|s| - 1] + [SLASH] + [];
      SegmentsJoin(s[..|s| - 1], []);
    }
  }

  /** An untruncated relative path is followed from the working directory. */
  lemma RelativeIsFold(cwd: seq<Byte>, path: seq<Byte>, max: nat)
    requires cwd != [] && cwd[0] == SLASH && |cwd| + 1 + |path| < max
    ensures Normal(Joined(cwd, path, max)) == Render(Walk([], Segments(cwd) + Segments(path)))
    ensures Normal(Joined(cwd, path, max)) == Render(Walk(Walk([], Segments(cwd)), Segments(path)))
  {
    hide Walk, Segments, Render;
    StripKeeps(cwd);
    SegmentsJoin(StripSlashes(cwd), path);
    WalkConcat([], Segments(cwd), Segments(path));
  }
}
