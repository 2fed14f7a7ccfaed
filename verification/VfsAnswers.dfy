/** What an open of components/vfs_simple/vfs_simple.c stands for: which requests reach the
    ramfs, through which of its opens, and that opens do not disturb each other. */
module VfsAnswers {
  import opened Composition
  import opened Sequences
  import opened Bytes
  import opened RamfsFiles
  import opened RamfsOpens
  import opened VfsOpens

  /** `id` stands for the wrapper `w`: identifiers count the wrappers from one. */
  predicate Wraps(sys: Sys, id: nat, w: Wrap) {
    1 <= id <= |sys.wraps| && sys.wraps[id - 1] == Some(w)
  }

  ghost predicate Foreign(sys: Sys, id: nat) {
    forall w :: Wraps(sys, id, w) ==> w.mount != Root
  }

  ghost predicate LowestFree(sys: Sys, k: nat) {
    k < |sys.wraps| && sys.wraps[k].None? && forall j | 0 <= j < k :: sys.wraps[j].Some?
  }

  predicate UnderProc(path: seq<Byte>) {
    path == PROC || PROC + [SLASH] <= path
  }

  /** Opening: refused for a path that is not absolute or when all wrappers are taken; else the
      driver of the mount is asked, and only if it agrees the lowest free wrapper stands for
      its open, with one reference. */
  lemma OpenAnswers(sys: Sys, path: seq<Byte>, flags: Flags, procId: nat)
    ensures var (sys', id) := VOpen(sys, path, flags, procId);
            var (fs, driver) := if UnderProc(path) then (sys.fs, procId) else OpenFile(sys.fs, path, flags);
            && (path == [] || path[0] != SLASH || (forall k: nat :: !LowestFree(sys, k)) ==> sys' == sys && id == 0)
            && forall k: nat | path != [] && path[0] == SLASH && LowestFree(sys, k) ::
                 && sys'.fs == fs
                 && if driver == 0 then id == 0 && sys'.wraps == sys.wraps
                    else id == k + 1 && sys'.wraps == sys.wraps[k := Some(Wrap(1, if UnderProc(path) then Proc else Root, driver))]
  {
    hide OpenFile;
    var k := FreeSlot(sys.wraps);
    if k.Some? { assert LowestFree(sys, k.value); }
    assert MountOf(path) == Proc <==> UnderProc(path);
  }

  lemma Unwrapped(sys: Sys, id: nat)
    ensures forall w | Wraps(sys, id, w) && w.mount == Root :: DriverOf(sys, id) == w.driver
    ensures Foreign(sys, id) ==> DriverOf(sys, id) == 0
  {
    var k := IdSlot(sys.wraps, id);
    if k.Some? { assert Wraps(sys, id, sys.wraps[id - 1].value); }
  }

  lemma NoOpenZero(fs: Fs, cap: nat, data: seq<Byte>, offset: int, whence: Whence)
    requires FsOk(fs)
    ensures ReadOpen(fs, 0, cap).0 == fs && WriteOpen(fs, 0, data).0 == fs && SeekOpen(fs, 0, offset, whence).0 == fs
  {
  }

  /** A request on an open of the root mount goes to the driver's open it stands for; any
      other leaves the ramfs alone.  No wrapper changes. */
  lemma Forwards(sys: Sys, id: nat, cap: nat, data: seq<Byte>, offset: int, whence: Whence)
    requires FsOk(sys.fs)
    ensures Foreign(sys, id) ==> VRead(sys, id, cap) == sys && VWrite(sys, id, data) == sys && VSeek(sys, id, offset, whence) == sys
    ensures forall w | Wraps(sys, id, w) && w.mount == Root ::
              && VRead(sys, id, cap) == Sys(sys.wraps, ReadOpen(sys.fs, w.driver, cap).0)
              && VWrite(sys, id, data) == Sys(sys.wraps, WriteOpen(sys.fs, w.driver, data).0)
              && VSeek(sys, id, offset, whence) == Sys(sys.wraps, SeekOpen(sys.fs, w.driver, offset, whence).0)
  {
    hide ReadOpen, WriteOpen, SeekOpen, DriverOf, FsOk, Foreign;
    Unwrapped(sys, id);
    NoOpenZero(sys.fs, cap, data, offset, whence);
    assert Sys(sys.wraps, sys.fs) == sys;
  }

  // ---------------------------------------------------------------- apart

  lemma DriversApart(sys: Sys, id: nat, w: Wrap, other: nat, v: Wrap)
    requires LockStep(sys) && Wraps(sys, id, w) && Wraps(sys, other, v) && id != other && w.mount == Root && v.mount == Root
    ensures w.driver != v.driver && 1 <= v.driver <= |sys.fs.opens|
  {
    hide Covered;
    assert IsRoot(sys.wraps[other - 1]) && IsRoot(sys.wraps[id - 1]);
    assert Paired(sys.fs.opens, v);
    if id < other {
      assert Apart(sys.wraps[id - 1], sys.wraps[other - 1]);
    } else {
      assert Apart(sys.wraps[other - 1], sys.wraps[id - 1]);
    }
  }

  lemma OnlyOwnOpen(fs: Fs, d: nat, cap: nat, data: seq<Byte>, offset: int, whence: Whence, j: nat)
    requires FsOk(fs) && j < |fs.opens| && j + 1 != d
    ensures |ReadOpen(fs, d, cap).0.opens| == |WriteOpen(fs, d, data).0.opens| == |SeekOpen(fs, d, offset, whence).0.opens| == |fs.opens|
    ensures ReadOpen(fs, d, cap).0.opens[j] == WriteOpen(fs, d, data).0.opens[j] == SeekOpen(fs, d, offset, whence).0.opens[j] == fs.opens[j]
  {
    hide Stored;
  }

  /** Whatever is read, written or sought through one open, every other open of the virtual
      file system keeps its place: two opens never share a cursor. */
  lemma CursorsApart(sys: Sys, id: nat, w: Wrap, other: nat, v: Wrap, s: Step)
    requires Inv(sys) && Wraps(sys, id, w) && Wraps(sys, other, v) && id != other && w.mount == Root && v.mount == Root
    requires (s.Reading? || s.Writing? || s.Seeking?) && s.id == id
    ensures var sys' := Next(sys, s);
            && 1 <= v.driver <= |sys.fs.opens| && v.driver <= |sys'.fs.opens|
            && Wraps(sys', other, v) && sys'.fs.opens[v.driver - 1] == sys.fs.opens[v.driver - 1]
  {
    hide ReadOpen, WriteOpen, SeekOpen, DriverOf, FsOk, Foreign, VRead, VWrite, VSeek, LockStep;
    DriversApart(sys, id, w, other, v);
    match s {
      case Reading(_, cap) =>
        Forwards(sys, id, cap, [], 0, Set);
        OnlyOwnOpen(sys.fs, w.driver, cap, [], 0, Set, v.driver - 1);
      case Writing(_, data) =>
        Forwards(sys, id, 0, data, 0, Set);
        OnlyOwnOpen(sys.fs, w.driver, 0, data, 0, Set, v.driver - 1);
      case Seeking(_, offset, whence) =>
        Forwards(sys, id, 0, [], offset, whence);
        OnlyOwnOpen(sys.fs, w.driver, 0, [], offset, whence, v.driver - 1);
    }
  }

  // ---------------------------------------------------------------- what was written

  /** Bytes written through an open, and sought back over, are read back through it. */
  lemma ReadsBack(sys: Sys, id: nat, w: Wrap, data: seq<Byte>)
    requires Inv(sys) && Wraps(sys, id, w) && w.mount == Root && WriteOpen(sys.fs, w.driver, data).1 > 0
    requires sys.fs.opens[IdSlot(sys.fs.opens, w.driver).value].value.flags.read
    ensures var n := WriteOpen(sys.fs, w.driver, data).1;
            var s1 := VWrite(sys, id, data);
            && FsOk(s1.fs)
            && var s2 := VSeek(s1, id, -n, Current);
               && FsOk(s2.fs) && n <= |data|
               && ReadOpen(s2.fs, DriverOf(s2, id), n).1 == n && ReadOpen(s2.fs, DriverOf(s2, id), n).2 == data[..n]
  {
    hide WriteOpen, SeekOpen, ReadOpen, FsOk, LockStep, VWrite, VSeek, DriverOf, Foreign;
    var n := WriteOpen(sys.fs, w.driver, data).1;
    Wrote(sys.fs, w.driver, data);
    WriteThenRead(sys.fs, w.driver, data);
    Forwards(sys, id, 0, data, 0, Set);
    var s1 := VWrite(sys, id, data);
    Forwards(s1, id, 0, [], -n, Current);
    Unwrapped(VSeek(s1, id, -n, Current), id);
  }

  lemma Wrote(fs: Fs, d: nat, data: seq<Byte>)
    requires FsOk(fs)
    ensures WriteOpen(fs, d, data).1 <= |data|
  {
    hide Stored;
  }
}
