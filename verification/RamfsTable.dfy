/** components/ramfs/ramfs.c in place: the two fixed tables, and every operation on them
    proved against its function on values. */
module RamfsTable {
  import opened Composition
  import opened Sequences
  import opened Bytes
  import opened RamfsFiles
  import opened RamfsOpens
  import Cpio
  import CpioRoundTrip
  import Readdir

  /** The used entries are those of `files`, in front. */
  ghost predicate Holds(slots: seq<Option<File>>, files: seq<File>) {
    && |slots| == MAX_FILES && |files| <= MAX_FILES
    && forall i | 0 <= i < MAX_FILES :: slots[i] == if i < |files| then Some(files[i]) else None
  }

  /** `cpio_hex8`. */
  method ParseField(blob: seq<Byte>, at: nat) returns (v: nat)
    requires at + 8 <= |blob|
    ensures v == Cpio.ParseHex8(blob[at..at + 8])
  {
    v := 0;
    for i := 0 to 8
      invariant Cpio.HexValue(blob[at..at + i]) == Some(v)
    {
      SliceOfSlice(blob, at, at + i + 1, 0, i);
      var d := Cpio.DigitValue(blob[at + i]);
      if d.None? {
        SliceOfSlice(blob, at, at + 8, 0, i + 1);
        StuckHex(blob[at..at + 8], i + 1);
        return Cpio.FIELD_MAX;
      }
      v := 16 * v + d.value;
    }
  }

  /** The reading half of the slurp loop. */
  method ScanEntry(blob: seq<Byte>, off: nat) returns (e: Cpio.Scan)
    ensures e == Cpio.ScanAt(blob, off) && (e.Found? ==> off + Cpio.HEADER <= |blob|)
  {
    hide Cpio.ParseHex8, Cpio.IsTrailer;
    if off + Cpio.HEADER > |blob| || blob[off..off + 6] != Cpio.MAGIC { return Cpio.Halt; }
    var mode := ParseField(blob, off + 14);
    var filesize := ParseField(blob, off + 54);
    var namesize := ParseField(blob, off + 94);
    if mode == Cpio.FIELD_MAX || filesize == Cpio.FIELD_MAX || namesize == Cpio.FIELD_MAX { return Cpio.Halt; }
    var nameOff := off + Cpio.HEADER;
    if nameOff + namesize > |blob| { return Cpio.Halt; }
    var name := blob[nameOff..nameOff + namesize];
    if Cpio.IsTrailer(name) { return Cpio.Halt; }
    var dataOff := Cpio.Align4(nameOff + namesize);
    if dataOff + filesize > |blob| { return Cpio.Halt; }
    return Cpio.Found(mode / 0x1000 % 16 == 8, name, blob[dataOff..dataOff + filesize], Cpio.Align4(dataOff + filesize));
  }

  lemma {:induction false} StuckHex(s: seq<Byte>, i: nat)
    requires i <= |s| && Cpio.HexValue(s[..i]).None?
    ensures Cpio.HexValue(s).None?
  {
    if i < |s| {
      assert s[..|s| - 1][..i] == s[..i];
      StuckHex(s[..|s| - 1], i);
    } else {
      assert s[..i] == s;
    }
  }

  class Ramfs {
    const slots: array<Option<File>>
    const opens: array<Option<Open>>
    ghost var fs: Fs

    ghost predicate Valid()
      reads this, slots, opens
    {
      Holds(slots[..], fs.files) && opens.Length == MAX_OPEN && opens[..] == fs.opens && FsOk(fs)
    }

    constructor ()
      ensures Valid() && fs.files == [] && fresh(slots) && fresh(opens)
    {
      slots := new Option<File>[MAX_FILES](_ => None);
      opens := new Option<Open>[MAX_OPEN](_ => None);
      fs := Fs([], seq(MAX_OPEN, _ => None));
    }

    // -------------------------------------------------------------- files

    method FindFile(path: seq<Byte>) returns (r: Option<nat>)
      requires Valid()
      ensures r == Find(fs.files, path)
    {
      for i := 0 to MAX_FILES
        invariant i <= |fs.files| ==> Find(fs.files, path) == FindFrom(fs.files, path, i)
        invariant i > |fs.files| ==> Find(fs.files, path) == None
      {
        if slots[i].Some? && SameName(slots[i].value.name, path) { return Some(i); }
      }
      return None;
    }

    method NewEntry(path: seq<Byte>, kind: Kind) returns (r: Option<nat>)
      requires Valid() && NulFree(path)
      modifies this`fs, slots
      ensures Valid() && fs.opens == old(fs.opens) && (fs.files, r) == CreateEntry(old(fs.files), path, kind)
    {
      hide Blank;
      if |path| == 0 || |path| >= NAME_MAX { return None; }
      var i := 0;
      while i < MAX_FILES && slots[i].Some?
        invariant i <= |fs.files|
      {
        i := i + 1;
      }
      if i == MAX_FILES { return None; }
      CreateOk(fs.files, path, kind);
      slots[i] := Some(File(kind, path, Blank(), 0));
      fs := fs.(files := CreateEntry(fs.files, path, kind).0);
      return Some(i);
    }

    /** One entry of an archive, as found. */
    method StoreEntry(ghost e: Cpio.Scan, name: seq<Byte>, data: seq<Byte>) returns (stored: bool)
      requires Valid() && e.Found? && e.regular && e.name == name && e.data == data && |data| <= FILE_CAP
      modifies this`fs, slots
      ensures Valid() && fs.opens == old(fs.opens) && fs.files == Cpio.StoreOne(old(fs.files), e)
      ensures |fs.files| == |old(fs.files)| + if stored then 1 else 0
    {
      hide Blank, FsOk, CString;
      var path := Cpio.PathOf(name);
      var k := NewEntry(path, Regular);
      stored := k.Some?;
      if stored {
        var f := slots[k.value].value;
        FillOk(fs, k.value, data);
        slots[k.value] := Some(Cpio.Filled(f, data));
        fs := fs.(files := fs.files[k.value := Cpio.Filled(f, data)]);
      }
    }

    /** `ramfs_slurp_initramfs`. */
    method Slurp(blob: seq<Byte>) returns (count: nat)
      requires Valid()
      modifies this`fs, slots
      ensures Valid() && fs.opens == old(fs.opens)
      ensures fs.files == Cpio.Slurp(old(fs.files), blob, 0) && count == |fs.files| - |old(fs.files)|
    {
      hide FsOk, Holds, Cpio.StoreOne, Cpio.ScanAt;
      count := 0;
      var off := 0;
      while true
        invariant Valid() && fs.opens == old(fs.opens) && count == |fs.files| - |old(fs.files)|
        invariant Cpio.Slurp(old(fs.files), blob, 0) == Cpio.Slurp(fs.files, blob, off)
        decreases |blob| - off
      {
        var e := ScanEntry(blob, off);
        if e.Halt? { return; }
        if e.regular && |e.data| <= FILE_CAP {
          var stored := StoreEntry(e, e.name, e.data);
          if stored { count := count + 1; }
        } else {
          SkipOne(fs.files, e);
        }
        off := e.next;
      }
    }

    // -------------------------------------------------------------- directories

    /** Whether an entry before `i` shows under `seg`. */
    method Seen(dir: seq<Byte>, i: nat, seg: seq<Byte>) returns (seen: bool)
      requires Valid() && i < |fs.files|
      ensures seen <==> exists j :: 0 <= j < i && Readdir.Child(fs.files[j].name, dir) == Some(seg)
    {
      hide Readdir.Child, FsOk;
      for j := 0 to i
        invariant forall k | 0 <= k < j :: Readdir.Child(fs.files[k].name, dir) != Some(seg)
      {
        if slots[j].Some? && Readdir.Child(slots[j].value.name, dir) == Some(seg) { return true; }
      }
      return false;
    }

    /** `ramfs_op_readdir`. */
    method ReadDir(dir: seq<Byte>, cookie: nat) returns (rc: Status, next: nat, name: seq<Byte>)
      requires Valid()
      ensures (rc, next, name) == Readdir.ReadOne(fs.files, dir, cookie)
    {
      hide Readdir.Child, FsOk;
      if dir == [] || dir[0] != SLASH { return EINVAL, cookie, []; }
      if cookie == 0 { return OK, 1, [DOT]; }
      if cookie == 1 { return OK, 2, [DOT, DOT]; }
      var i := cookie - 2;
      while i < MAX_FILES
        invariant Readdir.FreshFrom(fs.files, dir, cookie - 2) == Readdir.FreshFrom(fs.files, dir, i)
      {
        if slots[i].Some? {
          var seg := Readdir.Child(slots[i].value.name, dir);
          if seg.Some? {
            var seen := Seen(dir, i, seg.value);
            if !seen {
              assert Readdir.Fresh(fs.files, dir, i);
              return OK, i + 3, Cut(seg.value, Readdir.DIRENT_NAME_MAX - 1);
            }
          }
          assert !Readdir.Fresh(fs.files, dir, i);
        }
        i := i + 1;
      }
      return ENOENT, MAX_FILES + 2, [];
    }

    // -------------------------------------------------------------- opens

    method FreeOpen() returns (k: Option<nat>)
      requires Valid()
      ensures k == FreeSlot(fs.opens)
    {
      hide FsOk;
      for i := 0 to MAX_OPEN
        invariant FreeSlot(fs.opens) == FreeSlotFrom(fs.opens, i)
      {
        if opens[i].None? { return Some(i); }
      }
      return None;
    }

    method OpenPath(path: seq<Byte>, flags: Flags) returns (id: nat)
      requires Valid() && NulFree(path)
      modifies this`fs, slots, opens
      ensures Valid() && (fs, id) == OpenFile(old(fs), path, flags)
    {
      hide FsOk, Holds, Blank;
      if path == [] || flags.unknown { return 0; }
      OpenKeeps(fs, path, flags);
      var f := FindFile(path);
      if f.Some? {
        HeldAt(slots[..], fs.files, f.value);
        if slots[f.value].value.kind == Folder { return 0; }
      } else {
        if !flags.create { return 0; }
        f := NewEntry(path, Regular);
        if f.None? { return 0; }
      }
      var k := FreeOpen();
      if k.None? { return 0; }
      opens[k.value] := Some(Open(1, f.value, flags, 0));
      fs := fs.(opens := opens[..]);
      return k.value + 1;
    }

    method ClosePath(id: nat)
      requires Valid()
      modifies this`fs, opens
      ensures Valid() && fs == CloseOpen(old(fs), id)
    {
      hide FsOk, Holds;
      if id == 0 || id > MAX_OPEN || opens[id - 1].None? { return; }
      CloseKeeps(fs, id);
      var o := opens[id - 1].value;
      opens[id - 1] := if o.refs > 0 && o.refs - 1 > 0 then Some(o.(refs := o.refs - 1)) else None;
      fs := fs.(opens := opens[..]);
    }

    method RetainPath(id: nat)
      requires Valid()
      modifies this`fs, opens
      ensures Valid() && fs == RetainOpen(old(fs), id)
    {
      hide FsOk, Holds;
      if id == 0 || id > MAX_OPEN || opens[id - 1].None? { return; }
      CloseKeeps(fs, id);
      var o := opens[id - 1].value;
      opens[id - 1] := Some(o.(refs := o.refs + 1));
      fs := fs.(opens := opens[..]);
    }

    method ReadPath(id: nat, cap: nat) returns (n: int, bytes: seq<Byte>)
      requires Valid()
      modifies this`fs, opens
      ensures Valid() && (fs, n, bytes) == ReadOpen(old(fs), id, cap)
    {
      hide Holds, TableOk;
      if cap == 0 { return 0, []; }
      if id == 0 || id > MAX_OPEN || opens[id - 1].None? { return EINVAL, []; }
      var o := opens[id - 1].value;
      if !o.flags.read { return EPERM, []; }
      WithinFile(fs, id - 1);
      HeldAt(slots[..], fs.files, o.file);
      ReadKeeps(fs, id, cap);
      var f := slots[o.file].value;
      var remain := if o.cursor < f.size then f.size - o.cursor else 0;
      n := if remain < cap then remain else cap;
      bytes := f.store[o.cursor..o.cursor + n];
      opens[id - 1] := Some(o.(cursor := o.cursor + n));
      fs := fs.(opens := opens[..]);
    }

    method WritePath(id: nat, data: seq<Byte>) returns (n: int)
      requires Valid()
      modifies this`fs, slots, opens
      ensures Valid() && (fs, n) == WriteOpen(old(fs), id, data)
    {
      hide Holds, TableOk, FsOk, Stored;
      if data == [] { return 0; }
      if id == 0 || id > MAX_OPEN || opens[id - 1].None? { return EINVAL; }
      var o := opens[id - 1].value;
      if !o.flags.write { return EPERM; }
      WithinFile(fs, id - 1);
      HeldAt(slots[..], fs.files, o.file);
      WriteKeeps(fs, id, data);
      var f := slots[o.file].value;
      if o.flags.append { o := o.(cursor := f.size); }
      opens[id - 1] := Some(o);
      var room := if o.cursor < FILE_CAP then FILE_CAP - o.cursor else 0;
      if room == 0 {
        fs := fs.(opens := opens[..]);
        return ENOMEM;
      }
      n := if |data| < room then |data| else room;
      var f' := Stored(f, o.cursor, data[..n]);
      HeldWith(slots[..], fs.files, o.file, f');
      ghost var held := slots[..];
      slots[o.file] := Some(f');
      assert slots[..] == held[o.file := Some(f')];
      opens[id - 1] := Some(o.(cursor := o.cursor + n));
      assert opens[..] == old(fs).opens[id - 1 := Some(o.(cursor := o.cursor + n))];
      fs := Fs(fs.files[o.file := f'], opens[..]);
    }

    method SeekPath(id: nat, offset: int, whence: Whence) returns (pos: int)
      requires Valid()
      modifies this`fs, opens
      ensures Valid() && (fs, pos) == SeekOpen(old(fs), id, offset, whence)
    {
      hide Holds, TableOk, FsOk;
      if id == 0 || id > MAX_OPEN || opens[id - 1].None? { return EINVAL; }
      var o := opens[id - 1].value;
      WithinFile(fs, id - 1);
      HeldAt(slots[..], fs.files, o.file);
      SeekKeeps(fs, id, offset, whence);
      var f := slots[o.file].value;
      var base := 0;
      match whence {
        case Set =>
        case Current => base := o.cursor;
        case End => base := f.size;
        case Other => return EINVAL;
      }
      pos := base + offset;
      if pos < 0 || pos > f.size { return EINVAL; }
      opens[id - 1] := Some(o.(cursor := pos));
      fs := fs.(opens := opens[..]);
    }
  }

  lemma HeldAt(slots: seq<Option<File>>, files: seq<File>, i: nat)
    requires Holds(slots, files) && i < |files|
    ensures i < |slots| && slots[i] == Some(files[i])
  {
  }

  lemma HeldWith(slots: seq<Option<File>>, files: seq<File>, i: nat, f: File)
    requires Holds(slots, files) && i < |files|
    ensures i < |slots| && Holds(slots[i := Some(f)], files[i := f])
  {
  }

  lemma FillOk(fs: Fs, i: nat, data: seq<Byte>)
    requires FsOk(fs) && i < |fs.files| && |data| <= FILE_CAP && fs.files[i].size == 0
    ensures fs.files[i].Ok() && FsOk(fs.(files := fs.files[i := Cpio.Filled(fs.files[i], data)]))
  {
  }

  lemma SkipOne(files: seq<File>, e: Cpio.Scan)
    requires e.Found? && (!e.regular || |e.data| > FILE_CAP)
    ensures Cpio.StoreOne(files, e) == files
  {
  }
}
