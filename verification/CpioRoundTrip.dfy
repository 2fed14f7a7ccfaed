/** Parsing undoes packing: what ramfs holds after reading a packed archive. */
module CpioRoundTrip {
  import opened Composition
  import opened Sequences
  import opened Bytes
  import opened RamfsFiles
  import opened Cpio

  // ---------------------------------------------------------------- one entry

  lemma HeaderFields(ino: nat, mode: nat, filesize: nat, namesize: nat)
    ensures var h := Header(ino, mode, filesize, namesize);
            h[..6] == MAGIC && h[14..22] == Hex8(mode) && h[54..62] == Hex8(filesize) && h[94..102] == Hex8(namesize)
  {
    hide HexDigits;
  }

  lemma Within(part: seq<Byte>, whole: seq<Byte>, i: nat, j: nat)
    requires part <= whole && i <= j <= |part|
    ensures whole[i..j] == part[i..j]
  {
  }

  /** A name or size at which the reader gives up. */
  predicate Stops(m: Member) {
    IsTrailer(m.name + [NUL]) || |m.data| == FIELD_MAX || |m.name| + 1 == FIELD_MAX
  }

  /** Where the pieces of an entry lie. */
  lemma EntryPieces(buf: seq<Byte>, m: Member, mode: nat, ino: nat)
    requires |buf| % 4 == 0
    ensures var a, h := Append(buf, m, mode, ino), Header(ino, mode, |m.data|, |m.name| + 1);
            var nameOff := |buf| + HEADER;
            var dataOff := Align4(nameOff + |m.name| + 1);
            && |a| == Align4(dataOff + |m.data|) && a[|buf|..nameOff] == h
            && a[nameOff..nameOff + |m.name| + 1] == m.name + [NUL] && a[dataOff..dataOff + |m.data|] == m.data
  {
    hide Header, Pad4, Align4;
    var h := Header(ino, mode, |m.data|, |m.name| + 1);
    var x := buf + h + m.name + [NUL];
    var y := Pad4(x) + m.data;
    var a := Append(buf, m, mode, ino);
    assert a == Pad4(y);
    var nameOff := |buf| + HEADER;
    Within(x, a, |buf|, nameOff);
    Within(x, a, nameOff, nameOff + |m.name| + 1);
    Within(y, a, |Pad4(x)|, |y|);
    assert x[|buf|..nameOff] == h && x[nameOff..] == m.name + [NUL] && y[|Pad4(x)|..] == m.data;
  }

  lemma ScanAppended(blob: seq<Byte>, buf: seq<Byte>, m: Member, mode: nat, ino: nat)
    requires |buf| % 4 == 0 && Append(buf, m, mode, ino) <= blob
    requires Packable(m) && mode < FIELD_MAX && ino <= FIELD_MAX
    ensures ScanAt(blob, |buf|) ==
            if Stops(m) then Halt
            else Found(mode / 0x1000 % 16 == 8, m.name + [NUL], m.data, |Append(buf, m, mode, ino)|)
  {
    hide Header, HexDigits, ParseHex8, Append, IsTrailer, Align4;
    var a, h, off := Append(buf, m, mode, ino), Header(ino, mode, |m.data|, |m.name| + 1), |buf|;
    EntryPieces(buf, m, mode, ino);
    HeaderFields(ino, mode, |m.data|, |m.name| + 1);
    Hex8RoundTrip(mode);
    Hex8RoundTrip(|m.data|);
    Hex8RoundTrip(|m.name| + 1);
    FieldAt(blob, a, h, off, 0, 6);
    FieldAt(blob, a, h, off, 14, 22);
    FieldAt(blob, a, h, off, 54, 62);
    FieldAt(blob, a, h, off, 94, 102);
    Within(a, blob, off + HEADER, off + HEADER + |m.name| + 1);
    var dataOff := Align4(off + HEADER + |m.name| + 1);
    Within(a, blob, dataOff, dataOff + |m.data|);
  }

  lemma FieldAt(blob: seq<Byte>, a: seq<Byte>, h: seq<Byte>, off: nat, i: nat, j: nat)
    requires a <= blob && off + HEADER <= |a| && a[off..off + HEADER] == h && i <= j <= HEADER
    ensures blob[off + i..off + j] == h[i..j]
  {
    SliceOfSlice(a, off, off + HEADER, i, j);
    Within(a, blob, off + i, off + j);
  }

  // ---------------------------------------------------------------- whole archives

  /** The reader working on the members themselves. */
  function StoreMembers(files: seq<File>, members: seq<Member>): seq<File>
    decreases members
  {
    if members == [] || Stops(members[0]) then files
    else StoreMembers(StoreOne(files, Found(true, members[0].name + [NUL], members[0].data, 0)), members[1..])
  }

  /** Reading a packed archive is storing its members in order, up to the first at which
      the reader gives up. */
  lemma {:induction false} SlurpPacked(files: seq<File>, buf: seq<Byte>, members: seq<Member>, ino: nat)
    requires |buf| % 4 == 0 && ino + |members| <= FIELD_MAX + 1 && forall i | 0 <= i < |members| :: Packable(members[i])
    ensures Slurp(files, PackFrom(buf, members, ino), |buf|) == StoreMembers(files, members)
    decreases members
  {
    hide Append, ScanAt, StoreOne, Stops;
    var blob := PackFrom(buf, members, ino);
    if members == [] {
      ScanAppended(blob, buf, Member(TRAILER, []), 0, 0);
      TrailerStops();
    } else {
      var m, more := members[0], Append(buf, members[0], REGULAR_MODE, ino);
      ScanAppended(blob, buf, m, REGULAR_MODE, ino);
      if !Stops(m) {
        var e := Found(true, m.name + [NUL], m.data, 0);
        StoreIgnoresNext(files, e, |more|);
        SlurpPacked(StoreOne(files, e), more, members[1..], ino + 1);
      }
    }
  }

  lemma TrailerStops()
    ensures Stops(Member(TRAILER, []))
  {
    assert (TRAILER + [NUL])[..10] == TRAILER;
  }

  lemma StoreIgnoresNext(files: seq<File>, e: Scan, next: nat)
    requires e.Found?
    ensures StoreOne(files, e) == StoreOne(files, e.(next := next))
  {
  }

  // ---------------------------------------------------------------- when nothing is lost

  /** A member the file system can hold as it is. */
  predicate Plain(m: Member) {
    |m.name| <= NAME_MAX - 2 && NulFree(m.name) && m.name != TRAILER && |m.data| <= FILE_CAP
  }

  predicate Holds(f: File, m: Member) {
    f.kind == Regular && f.name == [SLASH] + m.name && f.size <= |f.store| && f.Contents() == m.data
  }

  ghost predicate Reproduced(files: seq<File>, members: seq<Member>) {
    |files| == |members| && forall i | 0 <= i < |members| :: Holds(files[i], members[i])
  }

  lemma PathIs(name: seq<Byte>)
    ensures var p := PathOf(name + [NUL]);
            0 < |p| < NAME_MAX && NulFree(p) && (p == [SLASH] + name <==> |name| <= NAME_MAX - 2 && NulFree(name))
  {
    hide CString;
    assert (name + [NUL])[..|name|] == name;
    var s := [SLASH] + Cut(name, NAME_MAX - 2);
    CStringIs(s);
    assert s[0] == SLASH && |CString(s)| > 0;
    if |name| <= NAME_MAX - 2 {
      assert s == [SLASH] + name;
      assert NulFree(s) <==> NulFree(name) by {
        assert forall i | 0 <= i < |name| :: s[i + 1] == name[i];
        assert forall i | 0 < i < |s| :: s[i] == name[i - 1];
      }
    }
  }

  lemma TrailerIs(name: seq<Byte>)
    requires NulFree(name)
    ensures IsTrailer(name + [NUL]) <==> name == TRAILER
  {
    var s := name + [NUL];
    if |name| >= 10 {
      assert s[..10] == name[..10] && s[10] == if |name| == 10 then NUL else name[10];
    }
  }

  /** What storing one member adds. */
  lemma StoreOneIs(files: seq<File>, m: Member)
    requires !Stops(m)
    ensures var r := StoreOne(files, Found(true, m.name + [NUL], m.data, 0));
            if |m.data| <= FILE_CAP && |files| < MAX_FILES
            then |r| == |files| + 1 && files <= r && (Holds(r[|files|], m) <==> Plain(m))
            else r == files
  {
    hide PathOf, Blank, IsTrailer;
    PathIs(m.name);
    if NulFree(m.name) { TrailerIs(m.name); }
    if |m.data| <= FILE_CAP && |files| < MAX_FILES {
      var f := File(Regular, PathOf(m.name + [NUL]), Blank(), 0);
      assert (files + [f])[|files|] == f;
      assert Filled(f, m.data).Contents() == m.data;
    }
  }

  lemma PlainGoes(m: Member)
    requires Plain(m)
    ensures !Stops(m)
  {
    TrailerIs(m.name);
  }

  ghost predicate AllPlain(members: seq<Member>) {
    forall i | 0 <= i < |members| :: Plain(members[i])
  }

  /** The tail of the table holds the members exactly when all are plain and fit. */
  lemma {:induction false} StoredExactly(files: seq<File>, members: seq<Member>)
    requires |files| <= MAX_FILES
    ensures var r := StoreMembers(files, members);
            && files <= r && |r| <= |files| + |members| && |r| <= MAX_FILES
            && (Reproduced(r[|files|..], members) <==> AllPlain(members) && |files| + |members| <= MAX_FILES)
    decreases members
  {
    hide StoreOne, Stops, Plain, Holds;
    var r := StoreMembers(files, members);
    if members == [] {
    } else if Stops(members[0]) {
      if Plain(members[0]) { PlainGoes(members[0]); }
    } else {
      var m, rest := members[0], members[1..];
      StoreOneIs(files, m);
      NotPlain(m);
      var more := StoreOne(files, Found(true, m.name + [NUL], m.data, 0));
      StoredExactly(more, rest);
      if |more| == |files| + 1 {
        assert r[|files|] == more[|files|];
        ReproducedCons(r[|files|..], m, rest);
        assert r[|files|..][1..] == r[|more|..];
        AllPlainCons(m, rest);
        assert [m] + rest == members;
      }
    }
  }

  lemma NotPlain(m: Member)
    ensures |m.data| > FILE_CAP ==> !Plain(m)
  {
  }

  lemma ReproducedCons(files: seq<File>, m: Member, rest: seq<Member>)
    requires files != []
    ensures Reproduced(files, [m] + rest) <==> Holds(files[0], m) && Reproduced(files[1..], rest)
  {
    hide Holds;
    var members := [m] + rest;
    if Reproduced(files, members) {
      assert Holds(files[0], members[0]);
      forall i | 0 <= i < |rest| ensures Holds(files[1..][i], rest[i]) { assert Holds(files[i + 1], members[i + 1]); }
    } else if Holds(files[0], m) && Reproduced(files[1..], rest) {
      forall i | 0 <= i < |members| ensures Holds(files[i], members[i]) {
        if i > 0 { assert Holds(files[1..][i - 1], rest[i - 1]); }
      }
    }
  }

  lemma AllPlainCons(m: Member, rest: seq<Member>)
    ensures AllPlain([m] + rest) <==> Plain(m) && AllPlain(rest)
  {
    hide Plain;
    var members := [m] + rest;
    if AllPlain(members) {
      assert Plain(members[0]);
      forall i | 0 <= i < |rest| ensures Plain(rest[i]) { assert Plain(members[i + 1]); }
    }
  }

  /** Reading the packed archive into an empty file system gives back exactly the packed
      names and bytes, in order, if and only if there is room for all of them and each is
      short enough, free of NULs, within the file size and not named as the trailer is. */
  lemma ParseUndoesPack(members: seq<Member>)
    requires |members| <= FIELD_MAX && forall i | 0 <= i < |members| :: Packable(members[i])
    ensures Reproduced(Slurp([], Pack(members), 0), members) <==> AllPlain(members) && |members| <= MAX_FILES
  {
    hide PackFrom, Slurp, Reproduced, Packable;
    SlurpPacked([], [], members, 1);
    StoredExactly([], members);
    assert StoreMembers([], members)[0..] == StoreMembers([], members);
  }

  // ---------------------------------------------------------------- any input at all

  lemma StoreOneOk(files: seq<File>, e: Scan)
    requires TableOk(files) && e.Found?
    ensures TableOk(StoreOne(files, e)) && files <= StoreOne(files, e)
  {
    hide Blank, CString;
    if e.regular && |e.data| <= FILE_CAP {
      CreateOk(files, PathOf(e.name), Regular);
    }
  }

  /** Whatever the bytes, reading them only adds well-formed entries. */
  lemma {:induction false} SlurpOk(files: seq<File>, blob: seq<Byte>, off: nat)
    requires TableOk(files)
    ensures TableOk(Slurp(files, blob, off)) && files <= Slurp(files, blob, off)
    decreases |blob| - off
  {
    hide StoreOne, TableOk;
    var e := ScanAt(blob, off);
    if e.Found? {
      StoreOneOk(files, e);
      SlurpOk(StoreOne(files, e), blob, e.next);
    }
  }

  /** The parser takes hexadecimal digits of either case, and no other byte. */
  lemma DigitIs(c: Byte, v: nat)
    ensures DigitValue(c) == Some(v) <==> (v < 10 && c == 48 + v) || (10 <= v < 16 && (c == 65 + v - 10 || c == 97 + v - 10))
  {
  }
}
