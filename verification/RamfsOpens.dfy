/** Opens and cursors of components/ramfs/ramfs.c.  Every cursor stays within its file, so
    reading and writing through the fixed buffers is splicing a byte sequence. */
module RamfsOpens {
  import opened Composition
  import opened Sequences
  import opened Bytes
  import opened RamfsFiles

  const MAX_OPEN := 4 * MAX_FILES

  datatype Flags = Flags(read: bool, write: bool, create: bool, append: bool, unknown: bool)

  datatype Open = Open(refs: nat, file: nat, flags: Flags, cursor: nat)

  datatype Fs = Fs(files: seq<File>, opens: seq<Option<Open>>)

  datatype Whence = Set | Current | End | Other

  function FreeSlot<T>(s: seq<Option<T>>): (k: Option<nat>)
    ensures k.Some? ==> k.value < |s| && s[k.value].None? && forall j | 0 <= j < k.value :: s[j].Some?
    ensures k.None? ==> forall j | 0 <= j < |s| :: s[j].Some?
  {
    FreeSlotFrom(s, 0)
  }

  function FreeSlotFrom<T>(s: seq<Option<T>>, i: nat): (k: Option<nat>)
    requires i <= |s|
    ensures k.Some? ==> i <= k.value < |s| && s[k.value].None? && forall j | i <= j < k.value :: s[j].Some?
    ensures k.None? ==> forall j | i <= j < |s| :: s[j].Some?
    decreases |s| - i
  {
    if i == |s| then None else if s[i].None? then Some(i) else FreeSlotFrom(s, i + 1)
  }

  /** The entry an identifier stands for; identifiers start at 1. */
  function IdSlot<T>(s: seq<Option<T>>, id: nat): (k: Option<nat>)
    ensures k.Some? ==> k.value < |s| && s[k.value].Some? && id == k.value + 1
  {
    if id == 0 || id > |s| || s[id - 1].None? then None else Some(id - 1)
  }

  // ---------------------------------------------------------------- operations

  /** The file an open is for, created if asked to; or none. */
  function OpenTarget(files: seq<File>, path: seq<Byte>, flags: Flags): (seq<File>, Option<nat>) {
    var f := Find(files, path);
    if path == [] || flags.unknown then (files, None)
    else if f.Some? then (files, if files[f.value].kind == Folder then None else f)
    else if flags.create then CreateEntry(files, path, Regular)
    else (files, None)
  }

  /** `ramfs_op_open`; 0 is failure. */
  function OpenFile(fs: Fs, path: seq<Byte>, flags: Flags): (Fs, nat) {
    var (files, f) := OpenTarget(fs.files, path, flags);
    var k := FreeSlot(fs.opens);
    if f.None? || k.None? then (fs.(files := files), 0)
    else (Fs(files, fs.opens[k.value := Some(Open(1, f.value, flags, 0))]), k.value + 1)
  }

  function CloseOpen(fs: Fs, id: nat): Fs {
    var k := IdSlot(fs.opens, id);
    if k.None? then fs
    else
      var o := fs.opens[k.value].value;
      fs.(opens := fs.opens[k.value := if o.refs > 1 then Some(o.(refs := o.refs - 1)) else None])
  }

  function RetainOpen(fs: Fs, id: nat): Fs {
    var k := IdSlot(fs.opens, id);
    if k.None? then fs
    else
      var o := fs.opens[k.value].value;
      fs.(opens := fs.opens[k.value := Some(o.(refs := o.refs + 1))])
  }

  function Min(a: nat, b: nat): nat {
    if a < b then a else b
  }

  /** `ramfs_op_read`: the answer and the bytes copied out. */
  function ReadOpen(fs: Fs, id: nat, cap: nat): (Fs, int, seq<Byte>)
    requires FsOk(fs)
  {
    var k := IdSlot(fs.opens, id);
    if cap == 0 then (fs, 0, [])
    else if k.None? then (fs, EINVAL, [])
    else
      var o := fs.opens[k.value].value;
      var f := fs.files[o.file];
      if !o.flags.read then (fs, EPERM, [])
      else
        var n := Min(if o.cursor < f.size then f.size - o.cursor else 0, cap);
        (fs.(opens := fs.opens[k.value := Some(o.(cursor := o.cursor + n))]), n, f.store[o.cursor..o.cursor + n])
  }

  /** The file after `n` bytes were copied into its buffer at `at`. */
  function Stored(f: File, at: nat, data: seq<Byte>): File
    requires at + |data| <= |f.store|
  {
    f.(store := f.store[..at] + data + f.store[at + |data|..], size := if at + |data| > f.size then at + |data| else f.size)
  }

  /** `ramfs_op_write`. */
  function WriteOpen(fs: Fs, id: nat, data: seq<Byte>): (Fs, int)
    requires FsOk(fs)
  {
    var k := IdSlot(fs.opens, id);
    if data == [] then (fs, 0)
    else if k.None? then (fs, EINVAL)
    else
      var o := fs.opens[k.value].value;
      var f := fs.files[o.file];
      if !o.flags.write then (fs, EPERM)
      else
        var at := if o.flags.append then f.size else o.cursor;
        var room := if at < FILE_CAP then FILE_CAP - at else 0;
        if room == 0 then (fs.(opens := fs.opens[k.value := Some(o.(cursor := at))]), ENOMEM)
        else
          var n := Min(|data|, room);
          (Fs(fs.files[o.file := Stored(f, at, data[..n])], fs.opens[k.value := Some(o.(cursor := at + n))]), n)
  }

  /** `ramfs_op_seek`. */
  function SeekOpen(fs: Fs, id: nat, offset: int, whence: Whence): (Fs, int)
    requires FsOk(fs)
  {
    var k := IdSlot(fs.opens, id);
    if k.None? || whence == Other then (fs, EINVAL)
    else
      var o := fs.opens[k.value].value;
      var size := fs.files[o.file].size;
      var pos := (match whence case Set => 0 case Current => o.cursor case _ => size) + offset;
      if pos < 0 || pos > size then (fs, EINVAL) else (fs.(opens := fs.opens[k.value := Some(o.(cursor := pos))]), pos)
  }

  // ---------------------------------------------------------------- the invariant

  /** A live open refers to a regular file and stands within it. */
  predicate OpenOk(files: seq<File>, o: Open) {
    o.refs > 0 && o.file < |files| && files[o.file].kind == Regular && o.cursor <= files[o.file].size
  }

  ghost predicate FsOk(fs: Fs) {
    && TableOk(fs.files) && |fs.opens| == MAX_OPEN
    && forall i | 0 <= i < |fs.opens| && fs.opens[i].Some? :: OpenOk(fs.files, fs.opens[i].value)
  }

  /** Files only come and grow. */
  ghost predicate Grown(a: seq<File>, b: seq<File>) {
    |a| <= |b| && forall i | 0 <= i < |a| :: b[i].kind == a[i].kind && b[i].name == a[i].name && a[i].size <= b[i].size
  }

  lemma TargetOk(files: seq<File>, path: seq<Byte>, flags: Flags)
    requires TableOk(files) && NulFree(path)
    ensures var (files', f) := OpenTarget(files, path, flags);
            TableOk(files') && files <= files' && (f.Some? ==> f.value < |files'| && files'[f.value].kind == Regular)
  {
    hide Blank;
    CreateOk(files, path, Regular);
  }

  lemma OpensStay(files: seq<File>, files': seq<File>, opens: seq<Option<Open>>, k: nat, o: Option<Open>)
    requires FsOk(Fs(files, opens)) && TableOk(files') && Grown(files, files') && k < MAX_OPEN
    requires o.Some? ==> OpenOk(files', o.value)
    ensures FsOk(Fs(files', opens[k := o]))
  {
  }

  lemma OpenKeeps(fs: Fs, path: seq<Byte>, flags: Flags)
    requires FsOk(fs) && NulFree(path)
    ensures FsOk(OpenFile(fs, path, flags).0)
  {
    hide OpenTarget, TableOk;
    TargetOk(fs.files, path, flags);
    var (files, f) := OpenTarget(fs.files, path, flags);
    var k := FreeSlot(fs.opens);
    if f.Some? && k.Some? {
      OpensStay(fs.files, files, fs.opens, k.value, Some(Open(1, f.value, flags, 0)));
    }
  }

  lemma CloseKeeps(fs: Fs, id: nat)
    requires FsOk(fs)
    ensures FsOk(CloseOpen(fs, id)) && FsOk(RetainOpen(fs, id))
  {
    hide TableOk;
  }

  lemma SeekKeeps(fs: Fs, id: nat, offset: int, whence: Whence)
    requires FsOk(fs)
    ensures FsOk(SeekOpen(fs, id, offset, whence).0)
  {
    hide TableOk;
  }

  lemma StoredOk(f: File, at: nat, data: seq<Byte>)
    requires f.Ok() && at + |data| <= FILE_CAP
    ensures Stored(f, at, data).Ok() && Stored(f, at, data).size >= f.size && at + |data| <= Stored(f, at, data).size
  {
  }

  lemma WriteKeeps(fs: Fs, id: nat, data: seq<Byte>)
    requires FsOk(fs)
    ensures FsOk(WriteOpen(fs, id, data).0)
  {
    hide Stored, IdSlot, Min;
    var k := IdSlot(fs.opens, id);
    if data != [] && k.Some? && fs.opens[k.value].value.flags.write {
      var o := fs.opens[k.value].value;
      var f := fs.files[o.file];
      assert OpenOk(fs.files, o) && f.Ok();
      var at := if o.flags.append then f.size else o.cursor;
      if at < FILE_CAP {
        var n := Min(|data|, FILE_CAP - at);
        LeastOf(|data|, FILE_CAP - at);
        StoredOk(f, at, data[..n]);
        StoredName(f, at, data[..n]);
        OpensStay(fs.files, fs.files[o.file := Stored(f, at, data[..n])], fs.opens, k.value, Some(o.(cursor := at + n)));
      } else {
        OpensStay(fs.files, fs.files, fs.opens, k.value, Some(o.(cursor := at)));
      }
    }
  }

  lemma LeastOf(a: nat, b: nat)
    ensures Min(a, b) <= a && Min(a, b) <= b
  {
  }

  lemma StoredName(f: File, at: nat, data: seq<Byte>)
    requires at + |data| <= |f.store|
    ensures Stored(f, at, data).name == f.name && Stored(f, at, data).kind == f.kind
  {
  }

  lemma ReadKeeps(fs: Fs, id: nat, cap: nat)
    requires FsOk(fs)
    ensures FsOk(ReadOpen(fs, id, cap).0)
  {
    hide TableOk;
  }

  // ---------------------------------------------------------------- splicing

  /** `data` laid over `s` from `at` on. */
  function Splice(s: seq<Byte>, at: nat, data: seq<Byte>): seq<Byte>
    requires at <= |s|
  {
    s[..at] + data + if at + |data| < |s| then s[at + |data|..] else []
  }

  lemma StoredIsSplice(f: File, at: nat, data: seq<Byte>)
    requires f.Ok() && at <= f.size && at + |data| <= FILE_CAP
    ensures Stored(f, at, data).size <= |Stored(f, at, data).store|
    ensures Stored(f, at, data).Contents() == Splice(f.Contents(), at, data)
  {
    var g := Stored(f, at, data);
    var a, b := g.Contents(), Splice(f.Contents(), at, data);
    assert |a| == |b|;
  }

  /** A successful write splices as much as fits at the cursor (or at the end, when
      appending), moves the cursor behind it and touches no other file or open. */
  lemma WriteSplices(fs: Fs, id: nat, data: seq<Byte>)
    requires FsOk(fs) && WriteOpen(fs, id, data).1 > 0
    ensures IdSlot(fs.opens, id).Some?
    ensures var (fs', n) := WriteOpen(fs, id, data);
            var k := IdSlot(fs.opens, id).value;
            var o := fs.opens[k].value;
            && o.file < |fs.files| == |fs'.files| && k < |fs'.opens|
            && var f, f' := fs.files[o.file], fs'.files[o.file];
            var at := if o.flags.append then |f.Contents()| else o.cursor;
            && at <= |f.Contents()| && n == Min(|data|, FILE_CAP - at)
            && f'.size <= |f'.store| && f'.Contents() == Splice(f.Contents(), at, data[..n])
            && fs'.files == fs.files[o.file := f'] && fs'.opens == fs.opens[k := Some(o.(cursor := at + n))]
  {
    hide Stored, TableOk;
    var k := IdSlot(fs.opens, id).value;
    var o := fs.opens[k].value;
    TableAt(fs, o.file);
    var f := fs.files[o.file];
    var at := if o.flags.append then f.size else o.cursor;
    StoredIsSplice(f, at, data[..Min(|data|, FILE_CAP - at)]);
  }

  lemma TableAt(fs: Fs, i: nat)
    requires FsOk(fs) && i < |fs.files|
    ensures fs.files[i].Ok()
  {
  }

  /** A read gives the next bytes of the file, fewer than asked for only at its end. */
  lemma ReadGives(fs: Fs, id: nat, cap: nat)
    requires FsOk(fs) && IdSlot(fs.opens, id).Some? && fs.opens[IdSlot(fs.opens, id).value].value.flags.read && cap > 0
    ensures var (fs', n, bytes) := ReadOpen(fs, id, cap);
            var k := IdSlot(fs.opens, id).value;
            var o := fs.opens[k].value;
            && o.file < |fs.files| && fs.files[o.file].size <= |fs.files[o.file].store|
            && var s := fs.files[o.file].Contents();
            && o.cursor <= |s| && n == Min(cap, |s| - o.cursor) && bytes == s[o.cursor..o.cursor + n]
            && fs'.files == fs.files && fs'.opens == fs.opens[k := Some(o.(cursor := o.cursor + n))]
  {
    hide TableOk;
    var k := IdSlot(fs.opens, id).value;
    var o := fs.opens[k].value;
    WithinFile(fs, k);
    var f, n := fs.files[o.file], ReadOpen(fs, id, cap).1;
    SliceOfSlice(f.store, 0, f.size, o.cursor, o.cursor + n);
  }

  /** What was written comes back: write, seek to where it went, read. */
  lemma WriteThenRead(fs: Fs, id: nat, data: seq<Byte>)
    requires FsOk(fs) && WriteOpen(fs, id, data).1 > 0
    requires fs.opens[IdSlot(fs.opens, id).value].value.flags.read
    ensures FsOk(WriteOpen(fs, id, data).0)
    ensures var (fs1, n) := WriteOpen(fs, id, data);
            var (fs2, pos) := SeekOpen(fs1, id, -n, Current);
            pos >= 0 && FsOk(fs2) && ReadOpen(fs2, id, n).1 == n && ReadOpen(fs2, id, n).2 == data[..n]
  {
    hide Stored, TableOk, FsOk, ReadOpen, WriteOpen;
    WriteSplices(fs, id, data);
    WriteKeeps(fs, id, data);
    var (fs1, n) := WriteOpen(fs, id, data);
    SeekKeeps(fs1, id, -n, Current);
    var (fs2, pos) := SeekOpen(fs1, id, -n, Current);
    var k := IdSlot(fs.opens, id).value;
    assert IdSlot(fs1.opens, id) == Some(k);
    WithinFile(fs1, k);
    ReadGives(fs2, id, n);
    var s := fs1.files[fs1.opens[k].value.file].Contents();
    assert s[pos..pos + n] == data[..n];
  }

  lemma WithinFile(fs: Fs, k: nat)
    requires FsOk(fs) && k < |fs.opens| && fs.opens[k].Some?
    ensures OpenOk(fs.files, fs.opens[k].value) && fs.files[fs.opens[k].value.file].Ok()
  {
  }
}
