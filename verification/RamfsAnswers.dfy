/** What the file operations of components/ramfs/ramfs.c answer, and when they change nothing. */
module RamfsAnswers {
  import opened Composition
  import opened Sequences
  import opened Bytes
  import opened RamfsFiles
  import opened RamfsOpens

  /** `id` stands for the open `o`: identifiers count the opens from one. */
  predicate Stands(fs: Fs, id: nat, o: Open) {
    1 <= id <= |fs.opens| && fs.opens[id - 1] == Some(o)
  }

  ghost predicate Dangles(fs: Fs, id: nat) {
    forall o :: !Stands(fs, id, o)
  }

  lemma StandsIs(fs: Fs, id: nat)
    ensures IdSlot(fs.opens, id).None? <==> Dangles(fs, id)
    ensures IdSlot(fs.opens, id).Some? ==> IdSlot(fs.opens, id) == Some(id - 1) && Stands(fs, id, fs.opens[id - 1].value)
  {
    if IdSlot(fs.opens, id).Some? { assert Stands(fs, id, fs.opens[id - 1].value); }
  }

  /** `fs'` is `fs` but for the cursor of one open. */
  ghost predicate CursorOnly(fs: Fs, fs': Fs, id: nat, o: Open, cursor: nat) {
    Stands(fs, id, o) && fs' == Fs(fs.files, fs.opens[id - 1 := Some(o.(cursor := cursor))])
  }

  /** Reading: nothing asked for, no such open, not open for reading, or the bytes there are. */
  lemma ReadAnswers(fs: Fs, id: nat, cap: nat)
    requires FsOk(fs)
    ensures var (fs', n, bytes) := ReadOpen(fs, id, cap);
            && (cap == 0 ==> n == 0 && fs' == fs && bytes == [])
            && (cap > 0 && Dangles(fs, id) ==> n == EINVAL && fs' == fs && bytes == [])
            && forall o | cap > 0 && Stands(fs, id, o) ::
                 if !o.flags.read then n == EPERM && fs' == fs && bytes == []
                 else && n >= 0 && |bytes| == n && CursorOnly(fs, fs', id, o, o.cursor + n)
                      && (n < cap ==> o.cursor + n == fs.files[o.file].size)
  {
    StandsIs(fs, id);
    if IdSlot(fs.opens, id).Some? && cap > 0 {
      var o := fs.opens[id - 1].value;
      assert OpenOk(fs.files, o) && fs.files[o.file].Ok();
      assert |fs.files[o.file].store| == FILE_CAP;
    }
  }

  /** Writing: nothing to write, no such open, not open for writing, no room left behind the
      cursor (or the end, when appending), or as much as there is room for. */
  lemma WriteAnswers(fs: Fs, id: nat, data: seq<Byte>)
    requires FsOk(fs)
    ensures var (fs', n) := WriteOpen(fs, id, data);
            && (data == [] ==> n == 0 && fs' == fs)
            && (data != [] && Dangles(fs, id) ==> n == EINVAL && fs' == fs)
            && forall o | data != [] && Stands(fs, id, o) ::
                 && o.file < |fs.files|
                 && var at := if o.flags.append then fs.files[o.file].size else o.cursor;
                    if !o.flags.write then n == EPERM && fs' == fs
                    else if at == FILE_CAP then n == ENOMEM && CursorOnly(fs, fs', id, o, at)
                    else n == (if |data| <= FILE_CAP - at then |data| else FILE_CAP - at)
  {
    hide Stored;
    StandsIs(fs, id);
    if IdSlot(fs.opens, id).Some? {
      var o := fs.opens[id - 1].value;
      assert OpenOk(fs.files, o) && fs.files[o.file].Ok();
    }
  }

  /** Seeking: from the start, from the cursor or from the end; anywhere in the file, its end
      included, and nowhere else. */
  lemma SeekAnswers(fs: Fs, id: nat, offset: int, whence: Whence)
    requires FsOk(fs)
    ensures var (fs', pos) := SeekOpen(fs, id, offset, whence);
            && (Dangles(fs, id) || whence == Other ==> pos == EINVAL && fs' == fs)
            && forall o | Stands(fs, id, o) && whence != Other ::
                 && o.file < |fs.files|
                 && var size, base := fs.files[o.file].size, if whence == Set then 0 else if whence == End then fs.files[o.file].size else o.cursor;
                    if 0 <= base + offset <= size then pos == base + offset && CursorOnly(fs, fs', id, o, base + offset)
                    else pos == EINVAL && fs' == fs
  {
    StandsIs(fs, id);
    if IdSlot(fs.opens, id).Some? { assert OpenOk(fs.files, fs.opens[id - 1].value); }
  }

  /** Closing drops one reference, and the open with the last; retaining adds one. */
  lemma CloseAnswers(fs: Fs, id: nat)
    ensures Dangles(fs, id) ==> CloseOpen(fs, id) == fs && RetainOpen(fs, id) == fs
    ensures forall o | Stands(fs, id, o) ::
              && CloseOpen(fs, id) == Fs(fs.files, fs.opens[id - 1 := if o.refs <= 1 then None else Some(o.(refs := o.refs - 1))])
              && RetainOpen(fs, id) == Fs(fs.files, fs.opens[id - 1 := Some(o.(refs := o.refs + 1))])
  {
    StandsIs(fs, id);
  }

  // ---------------------------------------------------------------- opening

  /** The first file with that name, as far as names are compared. */
  ghost predicate FirstNamed(files: seq<File>, path: seq<Byte>, i: nat) {
    i < |files| && SameName(files[i].name, path) && forall k | 0 <= k < i :: !SameName(files[k].name, path)
  }

  ghost predicate Unnamed(files: seq<File>, path: seq<Byte>) {
    forall k | 0 <= k < |files| :: !SameName(files[k].name, path)
  }

  /** The lowest open that is free. */
  ghost predicate LowestFree(fs: Fs, k: nat) {
    k < |fs.opens| && fs.opens[k].None? && forall j | 0 <= j < k :: fs.opens[j].Some?
  }

  /** Opening an existing file: refused for a folder or unknown flags; otherwise the lowest
      free open stands at its start, with one reference. */
  lemma OpenFound(fs: Fs, path: seq<Byte>, flags: Flags, i: nat)
    requires path != [] && FirstNamed(fs.files, path, i)
    ensures var (fs', id) := OpenFile(fs, path, flags);
            && fs'.files == fs.files
            && (flags.unknown || fs.files[i].kind == Folder || (forall k: nat :: !LowestFree(fs, k)) ==> id == 0 && fs' == fs)
            && forall k: nat | !flags.unknown && fs.files[i].kind == Regular && LowestFree(fs, k) ::
                 id == k + 1 && fs'.opens == fs.opens[k := Some(Open(1, i, flags, 0))]
  {
    hide CreateEntry;
    assert Find(fs.files, path) == Some(i);
    var k := FreeSlot(fs.opens);
    if k.Some? { assert LowestFree(fs, k.value); }
    assert Fs(fs.files, fs.opens) == fs;
  }

  /** Opening a name there is no file of: nothing without the flag to create; with it a new
      empty file at the end of the table, if the name fits and there is room for it. */
  lemma OpenMissing(fs: Fs, path: seq<Byte>, flags: Flags)
    requires path != [] && Unnamed(fs.files, path)
    ensures var (fs', id) := OpenFile(fs, path, flags);
            if flags.unknown || !flags.create || |path| >= NAME_MAX || |fs.files| >= MAX_FILES then id == 0 && fs' == fs
            else && |fs'.files| == |fs.files| + 1 && fs'.files[..|fs.files|] == fs.files
                 && fs'.files[|fs.files|].kind == Regular && fs'.files[|fs.files|].name == path && fs'.files[|fs.files|].size == 0
                 && ((forall k: nat :: !LowestFree(fs, k)) ==> id == 0 && fs'.opens == fs.opens)
                 && forall k: nat | LowestFree(fs, k) :: id == k + 1 && fs'.opens == fs.opens[k := Some(Open(1, |fs.files|, flags, 0))]
  {
    hide Blank;
    assert Find(fs.files, path).None?;
    var k := FreeSlot(fs.opens);
    if k.Some? { assert LowestFree(fs, k.value); }
    assert Fs(fs.files, fs.opens) == fs;
  }

  lemma OpenNothing(fs: Fs, flags: Flags)
    ensures OpenFile(fs, [], flags) == (fs, 0)
  {
  }

  /** Names are told apart by their first 31 bytes; names a file can have, altogether. */
  lemma SameNameIs(a: seq<Byte>, b: seq<Byte>)
    ensures SameName(a, b) <==> a == b || (|a| >= 31 && |b| >= 31 && a[..31] == b[..31])
    ensures |a| < NAME_MAX && |b| < NAME_MAX ==> (SameName(a, b) <==> a == b)
  {
    if |a| == 31 { assert a[..31] == a; }
    if |b| == 31 { assert b[..31] == b; }
  }
}
