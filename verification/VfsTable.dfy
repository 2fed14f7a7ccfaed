/** components/vfs_simple/vfs_simple.c in place over a ramfs, and the batching loop of
    `sys_getdents64`. */
module VfsTable {
  import opened Composition
  import opened Sequences
  import opened Bytes
  import opened RamfsFiles
  import opened RamfsOpens
  import opened VfsOpens
  import opened RamfsTable
  import Readdir

  class Vfs {
    const wraps: array<Option<Wrap>>
    const ram: Ramfs
    ghost var sys: Sys

    ghost predicate Valid()
      reads this, wraps, ram, ram.slots, ram.opens
    {
      && wraps.Length == MAX_WRAPS && wraps[..] == sys.wraps
      && ram.Valid() && ram.fs == sys.fs && LockStep(sys)
    }

    constructor (ram: Ramfs)
      requires ram.Valid() && forall i | 0 <= i < |ram.fs.opens| :: ram.fs.opens[i].None?
      ensures Valid() && this.ram == ram && fresh(wraps) && sys.fs == ram.fs
    {
      this.ram := ram;
      wraps := new Option<Wrap>[MAX_WRAPS](_ => None);
      sys := Sys(seq(MAX_WRAPS, _ => None), ram.fs);
    }

    method FreeWrap() returns (k: Option<nat>)
      requires wraps[..] == sys.wraps
      ensures k == FreeSlot(sys.wraps)
    {
      for i := 0 to wraps.Length
        invariant FreeSlot(sys.wraps) == FreeSlotFrom(sys.wraps, i)
      {
        if wraps[i].None? { return Some(i); }
      }
      return None;
    }

    /** `vfs_simple_open`; `procId` is the answer of the other mount's driver. */
    method OpenAt(path: seq<Byte>, flags: Flags, procId: nat) returns (id: nat)
      requires Valid() && NulFree(path)
      modifies this`sys, wraps, ram`fs, ram.slots, ram.opens
      ensures Valid() && (sys, id) == VOpen(old(sys), path, flags, procId)
    {
      hide LockStep, FsOk, Holds, MountOf, OpenFile;
      if path == [] || path[0] != SLASH { return 0; }
      OpenLocks(sys, path, flags, procId);
      var k := FreeWrap();
      if k.None? { return 0; }
      var driver;
      if MountOf(path) == Root {
        driver := ram.OpenPath(path, flags);
      } else {
        driver := procId;
      }
      if driver == 0 {
        sys := sys.(fs := ram.fs);
        return 0;
      }
      wraps[k.value] := Some(Wrap(1, MountOf(path), driver));
      sys := Sys(wraps[..], ram.fs);
      return k.value + 1;
    }

    /** `vfs_simple_close`: the driver first, then the wrapper. */
    method CloseAt(id: nat)
      requires Valid()
      modifies this`sys, wraps, ram`fs, ram.opens
      ensures Valid() && sys == VClose(old(sys), id)
    {
      hide LockStep, FsOk, Holds, CloseOpen;
      if id == 0 || id > MAX_WRAPS || wraps[id - 1].None? { return; }
      CloseLocks(sys, id);
      var w := wraps[id - 1].value;
      if w.mount == Root { ram.ClosePath(w.driver); }
      wraps[id - 1] := if w.refs > 0 && w.refs - 1 > 0 then Some(w.(refs := w.refs - 1)) else None;
      sys := Sys(wraps[..], ram.fs);
    }

    method RetainAt(id: nat)
      requires Valid()
      modifies this`sys, wraps, ram`fs, ram.opens
      ensures Valid() && sys == VRetain(old(sys), id)
    {
      hide LockStep, FsOk, Holds, RetainOpen;
      if id == 0 || id > MAX_WRAPS || wraps[id - 1].None? { return; }
      CloseLocks(sys, id);
      var w := wraps[id - 1].value;
      if w.mount == Root { ram.RetainPath(w.driver); }
      wraps[id - 1] := Some(w.(refs := w.refs + 1));
      sys := Sys(wraps[..], ram.fs);
    }
  }

  // ---------------------------------------------------------------- getdents

  /** `names`, `used` bytes of them, have been packed on the way from `start`, and what is
      left of the batch starts at `cookie`. */
  ghost predicate PackedSoFar(files: seq<File>, path: seq<Byte>, start: nat, room: nat, cookie: nat, names: seq<Readdir.Name>, used: nat) {
    && used == Readdir.PackedSize(names) <= room
    && var (c, rest) := Readdir.Batch(files, path, cookie, room - used);
       Readdir.Batch(files, path, start, room) == (c, names + rest)
  }

  lemma PackedNone(files: seq<File>, path: seq<Byte>, start: nat, room: nat)
    ensures PackedSoFar(files, path, start, room, start, [], 0)
  {
    hide Readdir.Batch;
    var rest := Readdir.Batch(files, path, start, room).1;
    assert [] + rest == rest;
  }

  lemma PackedSizes(files: seq<File>, path: seq<Byte>, start: nat, room: nat, cookie: nat, names: seq<Readdir.Name>, used: nat)
    requires PackedSoFar(files, path, start, room, cookie, names, used)
    ensures used == Readdir.PackedSize(names) <= room
  {
  }

  /** Either the batch is over, with the cursor where it leaves it, or one more name fits. */
  lemma PackedOn(files: seq<File>, path: seq<Byte>, start: nat, room: nat, cookie: nat, names: seq<Readdir.Name>, used: nat)
    requires PackedSoFar(files, path, start, room, cookie, names, used)
    ensures var (rc, c, name) := Readdir.ReadOne(files, path, cookie);
            if rc != OK then Readdir.Batch(files, path, start, room) == (c, names)
            else if used + Readdir.RecordLength(name) > room then Readdir.Batch(files, path, start, room) == (if c == 0 then 0 else c - 1, names)
            else PackedSoFar(files, path, start, room, c, names + [name], used + Readdir.RecordLength(name))
  {
    hide Readdir.ReadOne, Readdir.RecordLength;
    var (rc, c, name) := Readdir.ReadOne(files, path, cookie);
    var n := Readdir.RecordLength(name);
    assert names + [] == names;
    if rc == OK && used + n <= room {
      var rest := Readdir.Batch(files, path, c, room - used - n).1;
      assert names + ([name] + rest) == (names + [name]) + rest;
      assert (names + [name])[..|names|] == names;
    }
  }

  /** A directory handle's cursor. */
  class DirCursor {
    const path: seq<Byte>
    var cookie: nat

    constructor (path: seq<Byte>)
      ensures this.path == path && cookie == 0
    {
      this.path, cookie := path, 0;
    }

    /** The packing loop of `sys_getdents64`: the names whose records fit in `cap` bytes,
        and how many bytes they take. */
    method Getdents(ram: Ramfs, cap: nat) returns (names: seq<Readdir.Name>, used: nat)
      requires ram.Valid() && path != [] && path[0] == SLASH
      modifies this`cookie
      ensures var room := if cap > Readdir.STAGING_MAX then Readdir.STAGING_MAX else cap;
              (cookie, names) == Readdir.Batch(ram.fs.files, path, old(cookie), room) && used == Readdir.PackedSize(names) <= room
    {
      hide Readdir.ReadOne, Readdir.RecordLength, Readdir.Batch, Readdir.PackedSize, Holds, FsOk, PackedSoFar;
      var room := if cap > Readdir.STAGING_MAX then Readdir.STAGING_MAX else cap;
      names, used := [], 0;
      ghost var files, start := ram.fs.files, cookie;
      PackedNone(files, path, start, room);
      PackedSizes(files, path, start, room, cookie, names, used);
      while true
        invariant used == Readdir.PackedSize(names) <= room
        invariant PackedSoFar(files, path, start, room, cookie, names, used)
        decreases room - used
      {
        PackedOn(files, path, start, room, cookie, names, used);
        var rc, next, name := ram.ReadDir(path, cookie);
        cookie := next;
        if rc != OK { return; }
        var length := Readdir.RecordLength(name);
        Readdir.RecordIsPositive(name);
        if used + length > room {
          cookie := if cookie == 0 then 0 else cookie - 1;
          return;
        }
        names := names + [name];
        used := used + length;
        PackedSizes(files, path, start, room, cookie, names, used);
      }
    }
  }
}
