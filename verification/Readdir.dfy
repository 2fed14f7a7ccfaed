/** Cookie-driven directory listing: `ramfs_op_readdir` and its batching by `getdents64`,
    with files created in between. */
module Readdir {
  import opened Composition
  import opened Sequences
  import opened Bytes
  import opened RamfsFiles

  type Name = seq<Byte>

  const DIRENT_NAME_MAX := 64

  // ---------------------------------------------------------------- children

  function NonEmpty(s: seq<Byte>): Option<Name> {
    if s == [] then None else Some(s)
  }

  /** `ramfs_match_child`: the name under which `name` shows in directory `dir`. */
  function Child(name: seq<Byte>, dir: seq<Byte>): Option<Name> {
    if |dir| == 1 then
      if |name| < 2 || name[0] != SLASH then None else NonEmpty(Segment(name[1..]))
    else if |name| > |dir| && name[..|dir|] == dir && name[|dir|] == SLASH then NonEmpty(Segment(name[|dir| + 1..]))
    else None
  }

  /** A directory's path with its trailing slash. */
  function Base(dir: seq<Byte>): seq<Byte> {
    if |dir| == 1 then dir else dir + [SLASH]
  }

  /** Whether `name` is the child `seg` of `dir`, or lies below it. */
  ghost predicate Under(name: seq<Byte>, dir: seq<Byte>, seg: Name) {
    && seg != [] && SLASH !in seg
    && Base(dir) + seg <= name && (|name| > |Base(dir) + seg| ==> name[|Base(dir) + seg|] == SLASH)
  }

  /** The projection finds exactly the immediate children. */
  lemma ChildIff(name: seq<Byte>, dir: seq<Byte>, seg: Name)
    requires dir != [] && dir[0] == SLASH
    ensures Child(name, dir) == Some(seg) <==> Under(name, dir, seg)
  {
    hide Segment;
    var b := Base(dir);
    assert |name| >= |b| ==> name == name[..|b|] + name[|b|..];
    if |name| >= |b| && name[..|b|] == b {
      SegmentIs(name[|b|..], seg);
      assert b + seg <= name <==> seg <= name[|b|..];
      assert |name| > |b + seg| ==> name[|b + seg|] == name[|b|..][|seg|];
    }
    assert |dir| != 1 && |name| >= |b| ==> (name[..|b|] == b <==> name[..|dir|] == dir && name[|dir|] == SLASH);
  }

  // ---------------------------------------------------------------- one step

  /** Entry `i` shows, and no earlier entry shows under the same name. */
  predicate Fresh(files: seq<File>, dir: seq<Byte>, i: nat)
    requires i < |files|
  {
    Child(files[i].name, dir).Some? && forall j | 0 <= j < i :: Child(files[j].name, dir) != Child(files[i].name, dir)
  }

  function FreshFrom(files: seq<File>, dir: seq<Byte>, i: nat): (r: Option<nat>)
    ensures r.Some? ==> i <= r.value < |files| && Fresh(files, dir, r.value)
    decreases |files| - i
  {
    if i >= |files| then None else if Fresh(files, dir, i) then Some(i) else FreshFrom(files, dir, i + 1)
  }

  /** `ramfs_op_readdir`: status, next cookie, name. */
  function ReadOne(files: seq<File>, dir: seq<Byte>, cookie: nat): (Status, nat, Name) {
    if dir == [] || dir[0] != SLASH then (EINVAL, cookie, [])
    else if cookie == 0 then (OK, 1, [DOT])
    else if cookie == 1 then (OK, 2, [DOT, DOT])
    else
      var k := FreshFrom(files, dir, cookie - 2);
      if k.None? then (ENOENT, MAX_FILES + 2, [])
      else (OK, k.value + 3, Cut(Child(files[k.value].name, dir).value, DIRENT_NAME_MAX - 1))
  }

  // ---------------------------------------------------------------- the listing

  /** Distinct children in order of first appearance. */
  function Firsts(files: seq<File>, dir: seq<Byte>): seq<Name> {
    if files == [] then []
    else
      var front, c := Firsts(files[..|files| - 1], dir), Child(files[|files| - 1].name, dir);
      if c.Some? && c.value !in front then front + [c.value] else front
  }

  /** What has been listed when the cookie is `c`. */
  function Listed(files: seq<File>, dir: seq<Byte>, c: nat): seq<Name>
    requires c <= |files| + 2
  {
    if c == 0 then [] else if c == 1 then [[DOT]] else [[DOT], [DOT, DOT]] + Firsts(files[..c - 2], dir)
  }

  function Listing(files: seq<File>, dir: seq<Byte>): seq<Name> {
    [[DOT], [DOT, DOT]] + Firsts(files, dir)
  }

  ghost predicate ShownBy(files: seq<File>, dir: seq<Byte>, seg: Name) {
    exists i :: 0 <= i < |files| && Child(files[i].name, dir) == Some(seg)
  }

  lemma {:induction false} FirstsAre(files: seq<File>, dir: seq<Byte>, seg: Name)
    ensures Distinct(Firsts(files, dir)) && (seg in Firsts(files, dir) <==> ShownBy(files, dir, seg))
  {
    hide Child;
    if files != [] {
      var n := |files| - 1;
      var front, c := files[..n], Child(files[n].name, dir);
      FirstsAre(front, dir, seg);
      assert ShownBy(files, dir, seg) <==> ShownBy(front, dir, seg) || c == Some(seg) by {
        if ShownBy(front, dir, seg) {
          var i :| 0 <= i < n && Child(front[i].name, dir) == Some(seg);
          assert Child(files[i].name, dir) == Some(seg);
        }
        if ShownBy(files, dir, seg) {
          var i :| 0 <= i < |files| && Child(files[i].name, dir) == Some(seg);
          assert i < n ==> Child(front[i].name, dir) == Some(seg);
        }
      }
    }
  }

  /** The listing holds the two dots, and every immediate child exactly once. */
  lemma ListingIsComplete(files: seq<File>, dir: seq<Byte>, seg: Name)
    requires dir != [] && dir[0] == SLASH
    ensures Distinct(Firsts(files, dir))
    ensures seg in Firsts(files, dir) <==> exists i :: 0 <= i < |files| && Under(files[i].name, dir, seg)
  {
    hide Firsts, Child, Under;
    FirstsAre(files, dir, seg);
    forall i | 0 <= i < |files| ensures Child(files[i].name, dir) == Some(seg) <==> Under(files[i].name, dir, seg) {
      ChildIff(files[i].name, dir, seg);
    }
  }

  /** An entry adds to the listing exactly if it is fresh. */
  lemma FreshAdds(files: seq<File>, dir: seq<Byte>, i: nat)
    requires i < |files|
    ensures Firsts(files[..i + 1], dir) ==
            if Fresh(files, dir, i) then Firsts(files[..i], dir) + [Child(files[i].name, dir).value] else Firsts(files[..i], dir)
  {
    hide Child;
    var c := Child(files[i].name, dir);
    assert files[..i + 1][..i] == files[..i];
    if c.Some? {
      FirstsAre(files[..i], dir, c.value);
      assert ShownBy(files[..i], dir, c.value) <==> !Fresh(files, dir, i) by {
        if !Fresh(files, dir, i) {
          var j :| 0 <= j < i && Child(files[j].name, dir) == c;
          assert Child(files[..i][j].name, dir) == c;
        }
      }
    }
  }

  lemma {:induction false} FreshFromSkips(files: seq<File>, dir: seq<Byte>, i: nat)
    requires i <= |files|
    ensures var r := FreshFrom(files, dir, i);
            Firsts(files[..if r.Some? then r.value else |files|], dir) == Firsts(files[..i], dir)
    decreases |files| - i
  {
    hide Firsts, Fresh;
    if i < |files| && !Fresh(files, dir, i) {
      FreshAdds(files, dir, i);
      FreshFromSkips(files, dir, i + 1);
    }
  }

  lemma ChildIsShort(name: seq<Byte>, dir: seq<Byte>)
    requires |name| < NAME_MAX
    ensures Child(name, dir).Some? ==> 0 < |Child(name, dir).value| < NAME_MAX - 1
  {
  }

  /** One call moves the listing on by the name it returns, one cookie back is where it
      came from, and a call that finds nothing was at the end. */
  lemma ReadOneLists(files: seq<File>, dir: seq<Byte>, cookie: nat)
    requires TableOk(files) && dir != [] && dir[0] == SLASH && cookie <= |files| + 2
    ensures var (rc, c, name) := ReadOne(files, dir, cookie);
            && (rc == OK || rc == ENOENT)
            && (rc == OK ==> cookie < c <= |files| + 2 && 0 < |name| < NAME_MAX - 1
                             && Listed(files, dir, c) == Listed(files, dir, cookie) + [name]
                             && Listed(files, dir, c - 1) == Listed(files, dir, cookie))
            && (rc == ENOENT ==> c == MAX_FILES + 2 && Listed(files, dir, cookie) == Listing(files, dir))
  {
    hide Child, Firsts, Fresh, FreshFrom;
    if cookie < 2 {
      assert files[..0] == [];
      FirstsOfNothing(dir);
    } else {
      var i := cookie - 2;
      var k := FreshFrom(files, dir, i);
      FreshFromSkips(files, dir, i);
      if k.Some? {
        FreshAdds(files, dir, k.value);
        FreshShows(files, dir, k.value);
        ChildIsShort(files[k.value].name, dir);
      } else {
        assert files[..|files|] == files;
      }
    }
  }

  lemma FirstsOfNothing(dir: seq<Byte>)
    ensures Firsts([], dir) == []
  {
  }

  lemma FreshShows(files: seq<File>, dir: seq<Byte>, i: nat)
    requires i < |files| && Fresh(files, dir, i)
    ensures Child(files[i].name, dir).Some?
  {
  }

  // ---------------------------------------------------------------- getdents64

  const STAGING_MAX := 4096

  /** Nineteen bytes of header, the name, its NUL, rounded up to eight. */
  function RecordLength(name: Name): nat {
    (19 + |name| + 1 + 7) / 8 * 8
  }

  /** The bytes the records of `names` take. */
  function PackedSize(names: seq<Name>): nat {
    if names == [] then 0 else PackedSize(names[..|names| - 1]) + RecordLength(names[|names| - 1])
  }

  /** One `getdents64`: the cookie it leaves and the names it packs, with `room` bytes left. */
  function Batch(files: seq<File>, dir: seq<Byte>, cookie: nat, room: nat): (nat, seq<Name>)
    decreases room
  {
    var (rc, c, name) := ReadOne(files, dir, cookie);
    if rc != OK then (c, [])
    else if RecordLength(name) > room then (if c == 0 then 0 else c - 1, [])
    else
      var (last, names) := Batch(files, dir, c, room - RecordLength(name));
      (last, [name] + names)
  }

  /** Whether the batch met the end of the directory. */
  function Ends(files: seq<File>, dir: seq<Byte>, cookie: nat, room: nat): bool
    decreases room
  {
    var (rc, c, name) := ReadOne(files, dir, cookie);
    if rc != OK then true
    else if RecordLength(name) > room then false
    else Ends(files, dir, c, room - RecordLength(name))
  }

  lemma {:induction false} BatchLists(files: seq<File>, dir: seq<Byte>, cookie: nat, room: nat)
    requires TableOk(files) && dir != [] && dir[0] == SLASH && cookie <= |files| + 2
    ensures var (c, names) := Batch(files, dir, cookie, room);
            if Ends(files, dir, cookie, room) then c == MAX_FILES + 2 && Listed(files, dir, cookie) + names == Listing(files, dir)
            else c <= |files| + 2 && Listed(files, dir, cookie) + names == Listed(files, dir, c)
    decreases room
  {
    hide Listed, Listing, ReadOne, RecordLength, TableOk;
    ReadOneLists(files, dir, cookie);
    var (rc, c, name) := ReadOne(files, dir, cookie);
    var here := Listed(files, dir, cookie);
    RecordIsPositive(name);
    if rc == OK && RecordLength(name) <= room {
      BatchLists(files, dir, c, room - RecordLength(name));
      var names := Batch(files, dir, c, room - RecordLength(name)).1;
      assert here + ([name] + names) == (here + [name]) + names;
    } else {
      assert here + [] == here;
    }
  }

  lemma RecordIsPositive(name: Name)
    ensures RecordLength(name) > 0
  {
  }

  /** A batch is empty exactly at the end, or when the next record does not fit: then the
      caller cannot tell the two apart. */
  lemma EmptyBatchIff(files: seq<File>, dir: seq<Byte>, cookie: nat, room: nat)
    ensures var (rc, _, name) := ReadOne(files, dir, cookie);
            Batch(files, dir, cookie, room).1 == [] <==> rc != OK || RecordLength(name) > room
  {
  }

  /** Room for the longest record this file system has. */
  const ROOM_FOR_ONE := 56

  lemma RecordFits(name: Name)
    requires |name| < NAME_MAX - 1
    ensures RecordLength(name) <= ROOM_FOR_ONE
  {
  }

  /** An empty batch of that size, in this directory, always means the end. */
  ghost predicate EmptyMeansEnd(files: seq<File>, dir: seq<Byte>, room: nat) {
    forall cookie: nat | cookie <= |files| + 2 ::
      Batch(files, dir, cookie, room).1 == [] ==> ReadOne(files, dir, cookie).0 == ENOENT
  }

  /** At the very start 16 bytes hold no record: empty, and nothing listed. */
  lemma EmptyAtStart()
    ensures Batch([], [SLASH], 0, 16) == (0, []) && ReadOne([], [SLASH], 0).0 == OK
  {
  }

  /** A file in the root with the longest name there can be. */
  function LongNamed(): seq<File> {
    [File(Regular, [SLASH] + seq(NAME_MAX - 2, _ => DOT), Blank(), 0)]
  }

  lemma {:induction false} SegmentOfDots(n: nat)
    ensures var s: seq<Byte> := seq(n, _ => DOT); Segment(s) == s
  {
    var s: seq<Byte> := seq(n, _ => DOT);
    SegmentIs(s, s);
    if n == 0 { assert s == []; }
  }

  lemma LongNamedShows()
    ensures TableOk(LongNamed())
    ensures ReadOne(LongNamed(), [SLASH], 2) == (OK, 3, seq(NAME_MAX - 2, _ => DOT))
  {
    var dots: seq<Byte> := seq(NAME_MAX - 2, _ => DOT);
    var name := [SLASH] + dots;
    SegmentOfDots(NAME_MAX - 2);
    assert name[1..] == dots;
    assert Child(name, [SLASH]) == Some(dots);
    assert Fresh(LongNamed(), [SLASH], 0);
    assert FreshFrom(LongNamed(), [SLASH], 0) == Some(0);
    assert Cut(dots, DIRENT_NAME_MAX - 1) == dots;
  }

  /** What a caller can see to: in every directory an empty batch means the end, if and only
      if the buffer holds the longest record there can be. */
  lemma RoomExactly(room: nat)
    ensures (forall files: seq<File>, dir: seq<Byte> | TableOk(files) && dir != [] && dir[0] == SLASH :: EmptyMeansEnd(files, dir, room))
            <==> room >= ROOM_FOR_ONE
  {
    hide TableOk, ReadOne, Batch, RecordLength;
    if room >= ROOM_FOR_ONE {
      forall files: seq<File>, dir: seq<Byte> | TableOk(files) && dir != [] && dir[0] == SLASH ensures EmptyMeansEnd(files, dir, room) {
        RoomSuffices(files, dir, room);
      }
    } else {
      LongNamedShows();
      LongRecord();
      EmptyBatchIff(LongNamed(), [SLASH], 2, room);
      assert !EmptyMeansEnd(LongNamed(), [SLASH], room);
    }
  }

  lemma LongRecord()
    ensures |LongNamed()| == 1 && RecordLength(seq(NAME_MAX - 2, _ => DOT)) == ROOM_FOR_ONE
  {
  }

  lemma RoomSuffices(files: seq<File>, dir: seq<Byte>, room: nat)
    requires TableOk(files) && dir != [] && dir[0] == SLASH && room >= ROOM_FOR_ONE
    ensures EmptyMeansEnd(files, dir, room)
  {
    hide TableOk, ReadOne, Batch, Listed, Listing, RecordLength;
    forall cookie: nat | cookie <= |files| + 2 && Batch(files, dir, cookie, room).1 == []
      ensures ReadOne(files, dir, cookie).0 == ENOENT
    {
      ReadOneLists(files, dir, cookie);
      EmptyBatchIff(files, dir, cookie, room);
      var (rc, c, name) := ReadOne(files, dir, cookie);
      if rc == OK { RecordFits(name); }
    }
  }

  // ---------------------------------------------------------------- sessions

  /** What happens while somebody lists a directory: files are added, and the lister asks
      for one entry or for a batch. */
  datatype Act = Adding(path: seq<Byte>, kind: Kind) | Reading | Fetching(room: nat)

  /** `out` is everything returned so far; `seen` the number of files there were when the
      end was first met. */
  datatype Session = Session(files: seq<File>, cookie: nat, out: seq<Name>, seen: Option<nat>)

  predicate ActOk(a: Act) {
    a.Adding? ==> NulFree(a.path)
  }

  function Next(s: Session, dir: seq<Byte>, a: Act): Session {
    match a
    case Adding(path, kind) => s.(files := CreateEntry(s.files, path, kind).0)
    case Reading =>
      var (rc, c, name) := ReadOne(s.files, dir, s.cookie);
      var ended := s.seen.None? && rc != OK;
      Session(s.files, c, if rc == OK then s.out + [name] else s.out, if ended then Some(|s.files|) else s.seen)
    case Fetching(room) =>
      var (c, names) := Batch(s.files, dir, s.cookie, room);
      var ended := s.seen.None? && Ends(s.files, dir, s.cookie, room);
      Session(s.files, c, s.out + names, if ended then Some(|s.files|) else s.seen)
  }

  ghost predicate Consistent(s: Session, dir: seq<Byte>) {
    && TableOk(s.files) && dir != [] && dir[0] == SLASH
    && match s.seen
       case None => s.cookie <= |s.files| + 2 && s.out == Listed(s.files, dir, s.cookie)
       case Some(n) => s.cookie == MAX_FILES + 2 && n <= |s.files| && s.out == Listing(s.files[..n], dir)
  }

  lemma AddingKeeps(s: Session, dir: seq<Byte>, path: seq<Byte>, kind: Kind)
    requires Consistent(s, dir) && NulFree(path)
    ensures Consistent(Next(s, dir, Adding(path, kind)), dir)
  {
    hide Firsts, Blank;
    CreateOk(s.files, path, kind);
    var more := CreateEntry(s.files, path, kind).0;
    assert s.seen.None? && s.cookie >= 2 ==> more[..s.cookie - 2] == s.files[..s.cookie - 2];
    assert s.seen.Some? ==> more[..s.seen.value] == s.files[..s.seen.value];
  }

  lemma PastTheEnd(files: seq<File>, dir: seq<Byte>)
    requires TableOk(files) && dir != [] && dir[0] == SLASH
    ensures ReadOne(files, dir, MAX_FILES + 2) == (ENOENT, MAX_FILES + 2, [])
  {
    hide Fresh;
  }

  lemma StepKeeps(s: Session, dir: seq<Byte>, a: Act)
    requires Consistent(s, dir) && ActOk(a)
    ensures Consistent(Next(s, dir, a), dir)
  {
    if a.Adding? {
      AddingKeeps(s, dir, a.path, a.kind);
    } else {
      hide ReadOne, Listed, Listing, TableOk, Batch, Ends;
      if s.seen.Some? {
        PastTheEnd(s.files, dir);
        if a.Fetching? { BatchPastEnd(s.files, dir, a.room); }
      } else {
        ReadOneLists(s.files, dir, s.cookie);
        if a.Fetching? { BatchLists(s.files, dir, s.cookie, a.room); }
        assert s.files[..|s.files|] == s.files;
      }
    }
  }

  lemma BatchPastEnd(files: seq<File>, dir: seq<Byte>, room: nat)
    requires TableOk(files) && dir != [] && dir[0] == SLASH
    ensures Batch(files, dir, MAX_FILES + 2, room) == (MAX_FILES + 2, [])
  {
    hide ReadOne;
    PastTheEnd(files, dir);
  }

  function Run(files: seq<File>, dir: seq<Byte>, acts: seq<Act>): Session {
    if acts == [] then Session(files, 0, [], None)
    else Next(Run(files, dir, acts[..|acts| - 1]), dir, acts[|acts| - 1])
  }

  lemma {:induction false} RunConsistent(files: seq<File>, dir: seq<Byte>, acts: seq<Act>)
    requires TableOk(files) && dir != [] && dir[0] == SLASH && forall i | 0 <= i < |acts| :: ActOk(acts[i])
    ensures Consistent(Run(files, dir, acts), dir)
  {
    hide ActOk, Next;
    if acts != [] {
      RunConsistent(files, dir, acts[..|acts| - 1]);
      StepKeeps(Run(files, dir, acts[..|acts| - 1]), dir, acts[|acts| - 1]);
    }
  }

  /** However the reading is cut into calls and batches, and whatever is created meanwhile:
      once a call with room for a record comes back empty, what was returned is the listing of the files there
      were when the end was met, nothing missing and nothing twice. */
  lemma SessionLists(files: seq<File>, dir: seq<Byte>, acts: seq<Act>, a: Act)
    requires TableOk(files) && dir != [] && dir[0] == SLASH
    requires !a.Adding? && (a.Fetching? ==> a.room >= ROOM_FOR_ONE) && forall i | 0 <= i < |acts| :: ActOk(acts[i])
    requires Next(Run(files, dir, acts), dir, a).out == Run(files, dir, acts).out
    ensures var s := Next(Run(files, dir, acts), dir, a);
            && s.seen.Some? && s.seen.value <= |s.files| && s.out == Listing(s.files[..s.seen.value], dir)
            && Distinct(Firsts(s.files[..s.seen.value], dir))
  {
    hide Run, TableOk, ReadOne, Listed, Batch, Ends;
    RunConsistent(files, dir, acts);
    var s := Run(files, dir, acts);
    StepKeeps(s, dir, a);
    if s.seen.None? {
      ReadOneLists(s.files, dir, s.cookie);
      if a.Fetching? { EmptyEnds(s, dir, a.room); }
    }
    var s' := Next(s, dir, a);
    FirstsAre(s'.files[..s'.seen.value], dir, []);
  }

  lemma EmptyEnds(s: Session, dir: seq<Byte>, room: nat)
    requires Consistent(s, dir) && s.seen.None? && room >= ROOM_FOR_ONE && s.out + Batch(s.files, dir, s.cookie, room).1 == s.out
    ensures Ends(s.files, dir, s.cookie, room)
  {
    hide ReadOne, Listed, TableOk, RecordLength;
    ReadOneLists(s.files, dir, s.cookie);
    if ReadOne(s.files, dir, s.cookie).0 == OK { RecordFits(ReadOne(s.files, dir, s.cookie).2); }
    EmptyBatchIff(s.files, dir, s.cookie, room);
  }

  // ---------------------------------------------------------------- records and refusals

  /** A record takes the least multiple of eight bytes with room for the header, the name and
      its NUL. */
  lemma RecordIsLeast(name: Name, n: nat)
    ensures RecordLength(name) % 8 == 0 && 19 + |name| + 1 <= RecordLength(name)
    ensures n % 8 == 0 && 19 + |name| + 1 <= n ==> RecordLength(name) <= n
  {
    var total := 19 + |name| + 1;
    assert total <= (total + 7) / 8 * 8 < total + 8;
  }

  /** A path that is not absolute is refused, and the cookie stays. */
  lemma RelativeIsRefused(files: seq<File>, dir: seq<Byte>, cookie: nat)
    requires dir == [] || dir[0] != SLASH
    ensures ReadOne(files, dir, cookie) == (EINVAL, cookie, [])
  {
  }

  /** A file made while somebody is listing shows from then on, and nothing else comes or
      goes: exactly if its name fits and the table has room. */
  lemma AddingShows(s: Session, dir: seq<Byte>, path: seq<Byte>, kind: Kind, seg: Name)
    requires dir != [] && dir[0] == SLASH
    ensures var s' := Next(s, dir, Adding(path, kind));
            && s'.cookie == s.cookie && s'.out == s.out && s'.seen == s.seen
            && (seg in Firsts(s'.files, dir) <==>
                seg in Firsts(s.files, dir) || (0 < |path| < 32 && |s.files| < MAX_FILES && Under(path, dir, seg)))
  {
    hide Blank, Child, Firsts, Under;
    var s' := Next(s, dir, Adding(path, kind));
    FirstsAre(s.files, dir, seg);
    FirstsAre(s'.files, dir, seg);
    ChildIff(path, dir, seg);
    var n := |s.files|;
    if s'.files != s.files {
      assert s'.files[n].name == path && forall i | 0 <= i < n :: s'.files[i] == s.files[i];
      if ShownBy(s.files, dir, seg) {
        var i :| 0 <= i < n && Child(s.files[i].name, dir) == Some(seg);
        assert Child(s'.files[i].name, dir) == Some(seg);
      }
      if ShownBy(s'.files, dir, seg) {
        var i :| 0 <= i <= n && Child(s'.files[i].name, dir) == Some(seg);
        assert i < n ==> Child(s.files[i].name, dir) == Some(seg);
      }
    }
  }
}
