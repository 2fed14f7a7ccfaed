/** The file table of components/ramfs/ramfs.c: entries are only ever added, so the table
    is the sequence of its used entries. */
module RamfsFiles {
  import opened Composition
  import opened Sequences
  import opened Bytes

  const MAX_FILES := 32
  const NAME_MAX := 32
  const FILE_CAP := 4 * 1024 * 1024

  datatype Kind = Regular | Folder

  /** `store` is the fixed buffer behind a file, of which the first `size` bytes count. */
  datatype File = File(kind: Kind, name: seq<Byte>, store: seq<Byte>, size: nat) {
    predicate Ok() {
      0 < |name| < NAME_MAX && NulFree(name) && |store| == FILE_CAP && size <= FILE_CAP
    }

    function Contents(): seq<Byte>
      requires size <= |store|
    {
      store[..size]
    }
  }

  ghost predicate TableOk(files: seq<File>) {
    |files| <= MAX_FILES && forall i | 0 <= i < |files| :: files[i].Ok()
  }

  function Blank(): (s: seq<Byte>)
    ensures |s| == FILE_CAP
  {
    seq(FILE_CAP, _ => NUL)
  }

  /** `ramfs_create_entry`: the entry made, if any. */
  function CreateEntry(files: seq<File>, path: seq<Byte>, kind: Kind): (seq<File>, Option<nat>) {
    if |path| == 0 || |path| >= NAME_MAX || |files| >= MAX_FILES then (files, None)
    else (files + [File(kind, path, Blank(), 0)], Some(|files|))
  }

  /** Names are compared in their first 31 bytes. */
  predicate SameName(a: seq<Byte>, b: seq<Byte>) {
    Cut(a, NAME_MAX - 1) == Cut(b, NAME_MAX - 1)
  }

  /** `ramfs_find`. */
  function Find(files: seq<File>, path: seq<Byte>): (r: Option<nat>)
    ensures r.Some? ==> r.value < |files| && SameName(files[r.value].name, path)
                        && forall j | 0 <= j < r.value :: !SameName(files[j].name, path)
    ensures r.None? ==> forall j | 0 <= j < |files| :: !SameName(files[j].name, path)
  {
    FindFrom(files, path, 0)
  }

  function FindFrom(files: seq<File>, path: seq<Byte>, i: nat): (r: Option<nat>)
    requires i <= |files|
    ensures r.Some? ==> i <= r.value < |files| && SameName(files[r.value].name, path)
                        && forall j | i <= j < r.value :: !SameName(files[j].name, path)
    ensures r.None? ==> forall j | i <= j < |files| :: !SameName(files[j].name, path)
    decreases |files| - i
  {
    if i == |files| then None else if SameName(files[i].name, path) then Some(i) else FindFrom(files, path, i + 1)
  }

  lemma CreateOk(files: seq<File>, path: seq<Byte>, kind: Kind)
    requires TableOk(files) && NulFree(path)
    ensures TableOk(CreateEntry(files, path, kind).0)
  {
  }
}
