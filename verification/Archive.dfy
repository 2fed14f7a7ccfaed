/** tools/pack-initramfs.py: the archive grown in place. */
module Archive {
  import opened Composition
  import opened Bytes
  import opened Cpio

  /** One entry of the command line, its file already read. */
  datatype Source = Source(name: seq<Byte>, data: seq<Byte>)

  function StripLeading(name: seq<Byte>): (r: seq<Byte>)
    ensures |r| <= |name| && r == name[|name| - |r|..]
  {
    if name != [] && name[0] == SLASH then StripLeading(name[1..]) else name
  }

  function MemberOf(s: Source): Member {
    Member(StripLeading(s.name), s.data)
  }

  function Members(sources: seq<Source>): seq<Member> {
    seq(|sources|, i requires 0 <= i < |sources| => MemberOf(sources[i]))
  }

  predicate Rooted(s: Source) {
    s.name != [] && s.name[0] == SLASH
  }

  /** The byte array being built. */
  class Blob {
    var bytes: seq<Byte>

    constructor ()
      ensures bytes == []
    {
      bytes := [];
    }

    /** `pad4`. */
    method Pad()
      modifies this
      ensures bytes == Pad4(old(bytes))
    {
      ghost var start := bytes;
      while |bytes| % 4 != 0
        invariant |start| <= |bytes| <= Align4(|start|) && bytes == start + Zeros(|bytes| - |start|)
        decreases Align4(|start|) - |bytes|
      {
        bytes := bytes + [NUL];
      }
    }

    /** `append_entry`; false stands for the error `hex8` raises. */
    method AppendEntry(m: Member, mode: nat, ino: nat) returns (ok: bool)
      modifies this
      ensures ok <==> Packable(m) && mode <= FIELD_MAX && ino <= FIELD_MAX
      ensures ok ==> bytes == Append(old(bytes), m, mode, ino)
    {
      hide Header, Pad4;
      if ino > FIELD_MAX || mode > FIELD_MAX || |m.data| > FIELD_MAX || |m.name| + 1 > FIELD_MAX { return false; }
      ghost var start := bytes;
      bytes := bytes + Header(ino, mode, |m.data|, |m.name| + 1);
      bytes := bytes + (m.name + [NUL]);
      assert bytes == start + Header(ino, mode, |m.data|, |m.name| + 1) + m.name + [NUL];
      Pad();
      bytes := bytes + m.data;
      Pad();
      return true;
    }
  }

  lemma {:induction false} PackSnoc(buf: seq<Byte>, ms: seq<Member>, ino: nat, i: nat)
    requires i < |ms|
    ensures AppendAll(buf, ms[..i + 1], ino) == Append(AppendAll(buf, ms[..i], ino), ms[i], REGULAR_MODE, ino + i)
  {
    assert ms[..i + 1][..i] == ms[..i];
  }

  /** The archive before its trailer. */
  function AppendAll(buf: seq<Byte>, ms: seq<Member>, ino: nat): seq<Byte> {
    if ms == [] then buf
    else Append(AppendAll(buf, ms[..|ms| - 1], ino), ms[|ms| - 1], REGULAR_MODE, ino + |ms| - 1)
  }

  lemma {:induction false} AppendAllCons(buf: seq<Byte>, ms: seq<Member>, ino: nat)
    requires ms != []
    ensures AppendAll(buf, ms, ino) == AppendAll(Append(buf, ms[0], REGULAR_MODE, ino), ms[1..], ino + 1)
  {
    hide Append;
    if |ms| == 1 {
      assert ms[..0] == [] && ms[1..] == [];
    } else {
      var front := ms[..|ms| - 1];
      AppendAllCons(buf, front, ino);
      assert front[1..] == ms[1..][..|ms| - 2];
    }
  }

  lemma {:induction false} PackIsAppend(buf: seq<Byte>, ms: seq<Member>, ino: nat)
    ensures PackFrom(buf, ms, ino) == Append(AppendAll(buf, ms, ino), Member(TRAILER, []), 0, 0)
    decreases ms
  {
    hide Append;
    if ms != [] {
      PackIsAppend(Append(buf, ms[0], REGULAR_MODE, ino), ms[1..], ino + 1);
      AppendAllCons(buf, ms, ino);
    }
  }

  /** `main`, from the list of entries to the finished archive: an entry whose name is not
      rooted or that does not fit its fields ends it without one. */
  method PackSources(sources: seq<Source>) returns (r: Option<seq<Byte>>)
    ensures r.Some? <==> |sources| <= FIELD_MAX && forall i | 0 <= i < |sources| :: Rooted(sources[i]) && Packable(MemberOf(sources[i]))
    ensures r.Some? ==> r.value == Pack(Members(sources))
  {
    hide Append, Packable, StripLeading, PackFrom;
    var blob := new Blob();
    var ms := Members(sources);
    for i := 0 to |sources|
      invariant i <= FIELD_MAX && forall k | 0 <= k < i :: Rooted(sources[k]) && Packable(MemberOf(sources[k]))
      invariant blob.bytes == AppendAll([], ms[..i], 1)
    {
      if sources[i].name == [] || sources[i].name[0] != SLASH { return None; }
      PackSnoc([], ms, 1, i);
      var ok := blob.AppendEntry(MemberOf(sources[i]), REGULAR_MODE, 1 + i);
      if !ok { return None; }
    }
    TrailerFits();
    var done := blob.AppendEntry(Member(TRAILER, []), 0, 0);
    assert ms[..|sources|] == ms;
    PackIsAppend([], ms, 1);
    return Some(blob.bytes);
  }

  lemma TrailerFits()
    ensures Packable(Member(TRAILER, []))
  {
  }

  /** Exactly the leading slashes go. */
  lemma {:induction false} StripIs(name: seq<Byte>)
    ensures var r := StripLeading(name);
            && (r != [] ==> r[0] != SLASH)
            && forall i | 0 <= i < |name| - |r| :: name[i] == SLASH
  {
    if name != [] && name[0] == SLASH {
      StripIs(name[1..]);
      var r := StripLeading(name[1..]);
      forall i | 0 <= i < |name| - |r| ensures name[i] == SLASH {
        if i > 0 { assert name[1..][i - 1] == name[i]; }
      }
    }
  }
}
