/** components/vfs_simple/vfs_simple.c over ramfs: every open of the virtual file system
    stands for one open of the driver, with the same reference count, and they go together. */
module VfsOpens {
  import opened Composition
  import opened Sequences
  import opened Bytes
  import opened RamfsFiles
  import opened RamfsOpens

  const MAX_WRAPS := 108

  datatype Mount = Root | Proc

  datatype Wrap = Wrap(refs: nat, mount: Mount, driver: nat)

  /** `fs` is the ramfs behind the root mount, used by nobody else. */
  datatype Sys = Sys(wraps: seq<Option<Wrap>>, fs: Fs)

  /** "/proc". */
  const PROC: seq<Byte> := [47, 112, 114, 111, 99]

  function MountOf(path: seq<Byte>): (m: Mount)
    ensures m == Proc <==> path == PROC || PROC + [SLASH] <= path
  {
    if |path| >= 5 && path[..5] == PROC && (|path| == 5 || path[5] == SLASH) then Proc else Root
  }

  /** `vfs_simple_open`.  `procId` is what the driver of the other mount would answer. */
  function VOpen(sys: Sys, path: seq<Byte>, flags: Flags, procId: nat): (Sys, nat) {
    var k := FreeSlot(sys.wraps);
    if path == [] || path[0] != SLASH || k.None? then (sys, 0)
    else
      var mount := MountOf(path);
      var (fs, id) := if mount == Root then OpenFile(sys.fs, path, flags) else (sys.fs, procId);
      if id == 0 then (sys.(fs := fs), 0)
      else (Sys(sys.wraps[k.value := Some(Wrap(1, mount, id))], fs), k.value + 1)
  }

  function VClose(sys: Sys, id: nat): Sys {
    var k := IdSlot(sys.wraps, id);
    if k.None? then sys
    else
      var w := sys.wraps[k.value].value;
      Sys(sys.wraps[k.value := if w.refs > 1 then Some(w.(refs := w.refs - 1)) else None],
          if w.mount == Root then CloseOpen(sys.fs, w.driver) else sys.fs)
  }

  function VRetain(sys: Sys, id: nat): Sys {
    var k := IdSlot(sys.wraps, id);
    if k.None? then sys
    else
      var w := sys.wraps[k.value].value;
      Sys(sys.wraps[k.value := Some(w.(refs := w.refs + 1))],
          if w.mount == Root then RetainOpen(sys.fs, w.driver) else sys.fs)
  }

  /** Which driver open a request goes to, if it goes to ramfs. */
  function DriverOf(sys: Sys, id: nat): nat {
    var k := IdSlot(sys.wraps, id);
    if k.Some? && sys.wraps[k.value].value.mount == Root then sys.wraps[k.value].value.driver else 0
  }

  function VRead(sys: Sys, id: nat, cap: nat): Sys
    requires FsOk(sys.fs)
  {
    sys.(fs := ReadOpen(sys.fs, DriverOf(sys, id), cap).0)
  }

  function VWrite(sys: Sys, id: nat, data: seq<Byte>): Sys
    requires FsOk(sys.fs)
  {
    sys.(fs := WriteOpen(sys.fs, DriverOf(sys, id), data).0)
  }

  function VSeek(sys: Sys, id: nat, offset: int, whence: Whence): Sys
    requires FsOk(sys.fs)
  {
    sys.(fs := SeekOpen(sys.fs, DriverOf(sys, id), offset, whence).0)
  }

  // ---------------------------------------------------------------- lock step

  predicate IsRoot(w: Option<Wrap>) {
    w.Some? && w.value.mount == Root
  }

  /** The driver open a root wrapper stands for, with the same count. */
  predicate Paired(opens: seq<Option<Open>>, w: Wrap) {
    && 1 <= w.driver <= |opens| && opens[w.driver - 1].Some?
    && opens[w.driver - 1].value.refs == w.refs && w.refs > 0
  }

  ghost predicate Pairs(wraps: seq<Option<Wrap>>, opens: seq<Option<Open>>) {
    forall i | 0 <= i < |wraps| && IsRoot(wraps[i]) :: Paired(opens, wraps[i].value)
  }

  predicate Apart(a: Option<Wrap>, b: Option<Wrap>) {
    IsRoot(a) && IsRoot(b) ==> a.value.driver != b.value.driver
  }

  ghost predicate Injective(wraps: seq<Option<Wrap>>) {
    forall i, k {:trigger Apart(wraps[i], wraps[k])} | 0 <= i < k < |wraps| :: Apart(wraps[i], wraps[k])
  }

  ghost predicate HasWrap(wraps: seq<Option<Wrap>>, j: nat) {
    exists i :: 0 <= i < |wraps| && IsRoot(wraps[i]) && wraps[i].value.driver == j + 1
  }

  ghost predicate Covered(wraps: seq<Option<Wrap>>, opens: seq<Option<Open>>) {
    forall j: nat {:trigger HasWrap(wraps, j)} | j < |opens| && opens[j].Some? :: HasWrap(wraps, j)
  }

  /** Live root wrappers and live driver opens correspond one to one. */
  ghost predicate LockStep(sys: Sys) {
    && |sys.wraps| == MAX_WRAPS && |sys.fs.opens| == MAX_OPEN
    && Pairs(sys.wraps, sys.fs.opens) && Injective(sys.wraps) && Covered(sys.wraps, sys.fs.opens)
  }

  ghost predicate Inv(sys: Sys) {
    FsOk(sys.fs) && LockStep(sys)
  }

  lemma ApartAt(wraps: seq<Option<Wrap>>, i: nat, k: nat)
    requires Injective(wraps) && i < |wraps| && k < |wraps| && i != k
    ensures Apart(wraps[i], wraps[k])
  {
    assert i < k ==> Apart(wraps[i], wraps[k]);
    assert k < i ==> Apart(wraps[k], wraps[i]);
  }

  /** A wrapper whose driver no other wrapper has can be put anywhere. */
  lemma InjectiveWith(wraps: seq<Option<Wrap>>, i: nat, w: Option<Wrap>)
    requires Injective(wraps) && i < |wraps|
    requires forall k | 0 <= k < |wraps| && k != i :: Apart(wraps[k], w)
    ensures Injective(wraps[i := w])
  {
    var more := wraps[i := w];
    forall a, b | 0 <= a < b < |more| ensures Apart(more[a], more[b]) {
      assert a != i && b != i ==> Apart(wraps[a], wraps[b]);
    }
  }

  lemma CoveredWith(wraps: seq<Option<Wrap>>, opens: seq<Option<Open>>, i: nat, w: Option<Wrap>, j: nat)
    requires Covered(wraps, opens) && i < |wraps| && j < |opens| && opens[j].Some?
    requires IsRoot(wraps[i]) ==> wraps[i].value.driver != j + 1
    ensures HasWrap(wraps[i := w], j)
  {
    assert HasWrap(wraps, j);
    var k :| 0 <= k < |wraps| && IsRoot(wraps[k]) && wraps[k].value.driver == j + 1;
    assert wraps[i := w][k] == wraps[k];
  }

  lemma HasWrapAt(wraps: seq<Option<Wrap>>, i: nat, j: nat)
    requires i < |wraps| && IsRoot(wraps[i]) && wraps[i].value.driver == j + 1
    ensures HasWrap(wraps, j)
  {
  }

  /** Putting a pair in at a free wrapper and a free driver open. */
  lemma AddPair(sys: Sys, i: nat, j: nat, w: Wrap, fs: Fs, o: Open)
    requires LockStep(sys) && i < MAX_WRAPS && sys.wraps[i].None? && j < MAX_OPEN && sys.fs.opens[j].None?
    requires w.mount == Root && w.driver == j + 1 && w.refs > 0
    requires fs.opens == sys.fs.opens[j := Some(o)] && o.refs == w.refs
    ensures LockStep(Sys(sys.wraps[i := Some(w)], fs))
  {
    hide Injective, Covered, HasWrap;
    var more := sys.wraps[i := Some(w)];
    forall k | 0 <= k < |more| && IsRoot(more[k]) ensures Paired(fs.opens, more[k].value) {
      assert k != i ==> Paired(sys.fs.opens, sys.wraps[k].value);
    }
    InjectiveWith(sys.wraps, i, Some(w));
    forall b: nat | b < |fs.opens| && fs.opens[b].Some? ensures HasWrap(more, b) {
      if b == j { HasWrapAt(more, i, j); } else { CoveredWith(sys.wraps, sys.fs.opens, i, Some(w), b); }
    }
    CoverIs(more, fs.opens);
  }

  lemma CoverIs(wraps: seq<Option<Wrap>>, opens: seq<Option<Open>>)
    requires forall j: nat {:trigger HasWrap(wraps, j)} | j < |opens| && opens[j].Some? :: HasWrap(wraps, j)
    ensures Covered(wraps, opens)
  {
  }

  /** Changing both counts of a pair alike, or dropping both. */
  lemma ChangePair(sys: Sys, i: nat, w: Option<Wrap>, o: Option<Open>)
    requires LockStep(sys) && i < |sys.wraps| && IsRoot(sys.wraps[i])
    requires w.Some? == o.Some?
    requires w.Some? ==> w.value.mount == Root && w.value.driver == sys.wraps[i].value.driver && w.value.refs > 0 && o.value.refs == w.value.refs
    ensures var j := sys.wraps[i].value.driver - 1;
            0 <= j < |sys.fs.opens| && LockStep(Sys(sys.wraps[i := w], sys.fs.(opens := sys.fs.opens[j := o])))
  {
    hide Injective, Covered, HasWrap;
    assert Paired(sys.fs.opens, sys.wraps[i].value);
    var j := sys.wraps[i].value.driver - 1;
    var wraps, opens := sys.wraps[i := w], sys.fs.opens[j := o];
    forall k | 0 <= k < |wraps| && k != i ensures Apart(sys.wraps[k], w) && Apart(sys.wraps[k], sys.wraps[i]) {
      ApartAt(sys.wraps, k, i);
    }
    InjectiveWith(sys.wraps, i, w);
    forall k | 0 <= k < |wraps| && IsRoot(wraps[k]) ensures Paired(opens, wraps[k].value) {
      assert k != i ==> Paired(sys.fs.opens, sys.wraps[k].value) && Apart(sys.wraps[k], sys.wraps[i]);
    }
    forall b: nat | b < |opens| && opens[b].Some? ensures HasWrap(wraps, b) {
      if b == j { HasWrapAt(wraps, i, j); } else { CoveredWith(sys.wraps, sys.fs.opens, i, w, b); }
    }
    CoverIs(wraps, opens);
  }

  /** A wrapper of the other mount is nobody's pair. */
  lemma ChangeForeign(sys: Sys, i: nat, w: Option<Wrap>, fs: Fs)
    requires LockStep(sys) && i < |sys.wraps| && !IsRoot(sys.wraps[i]) && !IsRoot(w) && fs.opens == sys.fs.opens
    ensures LockStep(Sys(sys.wraps[i := w], fs))
  {
    hide Injective, Covered, HasWrap;
    var wraps := sys.wraps[i := w];
    InjectiveWith(sys.wraps, i, w);
    forall k | 0 <= k < |wraps| && IsRoot(wraps[k]) ensures Paired(fs.opens, wraps[k].value) {
      assert Paired(sys.fs.opens, sys.wraps[k].value);
    }
    forall b: nat | b < |fs.opens| && fs.opens[b].Some? ensures HasWrap(wraps, b) {
      CoveredWith(sys.wraps, sys.fs.opens, i, w, b);
    }
    CoverIs(wraps, fs.opens);
  }

  /** Reading, writing and seeking leave counts and liveness alone. */
  lemma SameCounts(sys: Sys, fs: Fs)
    requires LockStep(sys) && |fs.opens| == MAX_OPEN
    requires forall j | 0 <= j < MAX_OPEN :: fs.opens[j].Some? == sys.fs.opens[j].Some?
    requires forall j | 0 <= j < MAX_OPEN && fs.opens[j].Some? :: fs.opens[j].value.refs == sys.fs.opens[j].value.refs
    ensures LockStep(sys.(fs := fs))
  {
    hide Injective, HasWrap;
    forall k | 0 <= k < |sys.wraps| && IsRoot(sys.wraps[k]) ensures Paired(fs.opens, sys.wraps[k].value) {
      assert Paired(sys.fs.opens, sys.wraps[k].value);
    }
  }

  // ---------------------------------------------------------------- steps

  datatype Step =
    | Opening(path: seq<Byte>, flags: Flags, procId: nat)
    | Closing(id: nat)
    | Retaining(id: nat)
    | Reading(id: nat, cap: nat)
    | Writing(id: nat, data: seq<Byte>)
    | Seeking(id: nat, offset: int, whence: Whence)

  function Next(sys: Sys, s: Step): Sys
    requires FsOk(sys.fs)
  {
    match s
    case Opening(path, flags, procId) => VOpen(sys, path, flags, procId).0
    case Closing(id) => VClose(sys, id)
    case Retaining(id) => VRetain(sys, id)
    case Reading(id, cap) => VRead(sys, id, cap)
    case Writing(id, data) => VWrite(sys, id, data)
    case Seeking(id, offset, whence) => VSeek(sys, id, offset, whence)
  }

  predicate StepOk(s: Step) {
    s.Opening? ==> NulFree(s.path)
  }

  lemma OpenLocks(sys: Sys, path: seq<Byte>, flags: Flags, procId: nat)
    requires Inv(sys) && NulFree(path)
    ensures Inv(VOpen(sys, path, flags, procId).0)
  {
    hide FsOk, LockStep, OpenTarget, MountOf;
    OpenKeeps(sys.fs, path, flags);
    Sizes(sys);
    var k := FreeSlot(sys.wraps);
    var (fs, id) := OpenFile(sys.fs, path, flags);
    if path != [] && path[0] == SLASH && k.Some? {
      if MountOf(path) == Proc {
        if procId != 0 { ChangeForeign(sys, k.value, Some(Wrap(1, Proc, procId)), sys.fs); }
      } else if id == 0 {
        SameCounts(sys, fs);
      } else {
        AddPair(sys, k.value, id - 1, Wrap(1, Root, id), fs, fs.opens[id - 1].value);
      }
    }
  }

  lemma Sizes(sys: Sys)
    requires LockStep(sys)
    ensures |sys.wraps| == MAX_WRAPS && |sys.fs.opens| == MAX_OPEN
  {
  }

  lemma PairAt(sys: Sys, i: nat)
    requires LockStep(sys) && i < |sys.wraps| && IsRoot(sys.wraps[i])
    ensures Paired(sys.fs.opens, sys.wraps[i].value) && IdSlot(sys.fs.opens, sys.wraps[i].value.driver) == Some(sys.wraps[i].value.driver - 1)
  {
  }

  lemma CloseLocks(sys: Sys, id: nat)
    requires Inv(sys)
    ensures Inv(VClose(sys, id)) && Inv(VRetain(sys, id))
  {
    hide FsOk, LockStep;
    var k := IdSlot(sys.wraps, id);
    if k.Some? {
      var w := sys.wraps[k.value].value;
      var less := if w.refs > 1 then Some(w.(refs := w.refs - 1)) else None;
      var more := Some(w.(refs := w.refs + 1));
      if w.mount == Root {
        CloseKeeps(sys.fs, w.driver);
        PairAt(sys, k.value);
        var o := sys.fs.opens[w.driver - 1].value;
        ChangePair(sys, k.value, less, if o.refs > 1 then Some(o.(refs := o.refs - 1)) else None);
        ChangePair(sys, k.value, more, Some(o.(refs := o.refs + 1)));
      } else {
        ChangeForeign(sys, k.value, less, sys.fs);
        ChangeForeign(sys, k.value, more, sys.fs);
      }
    }
  }

  lemma ReadLocks(sys: Sys, id: nat, cap: nat, data: seq<Byte>, offset: int, whence: Whence)
    requires Inv(sys)
    ensures Inv(VRead(sys, id, cap)) && Inv(VWrite(sys, id, data)) && Inv(VSeek(sys, id, offset, whence))
  {
    hide LockStep, TableOk, Stored;
    var d := DriverOf(sys, id);
    Sizes(sys);
    ReadKeeps(sys.fs, d, cap);
    WriteKeeps(sys.fs, d, data);
    SeekKeeps(sys.fs, d, offset, whence);
    SameCounts(sys, ReadOpen(sys.fs, d, cap).0);
    SameCounts(sys, WriteOpen(sys.fs, d, data).0);
    SameCounts(sys, SeekOpen(sys.fs, d, offset, whence).0);
  }

  lemma StepInv(sys: Sys, s: Step)
    requires Inv(sys) && StepOk(s)
    ensures Inv(Next(sys, s))
  {
    hide FsOk, LockStep, VOpen, VClose, VRetain, VRead, VWrite, VSeek, NulFree;
    match s {
      case Opening(path, flags, procId) => OpenLocks(sys, path, flags, procId);
      case Closing(id) => CloseLocks(sys, id);
      case Retaining(id) => CloseLocks(sys, id);
      case Reading(id, cap) => ReadLocks(sys, id, cap, [], 0, Set);
      case Writing(id, data) => ReadLocks(sys, id, 0, data, 0, Set);
      case Seeking(id, offset, whence) => ReadLocks(sys, id, 0, [], offset, whence);
    }
  }

  function Boot(files: seq<File>): Sys {
    Sys(seq(MAX_WRAPS, _ => None), Fs(files, seq(MAX_OPEN, _ => None)))
  }

  lemma BootInv(files: seq<File>)
    requires TableOk(files)
    ensures Inv(Boot(files))
  {
    hide TableOk;
  }

  ghost predicate Reaches(a: Sys, steps: seq<Step>, b: Sys)
    decreases |steps|
  {
    if steps == [] then a == b
    else StepOk(steps[0]) && FsOk(a.fs) && Reaches(Next(a, steps[0]), steps[1..], b)
  }

  /** Every state a run reaches pairs wrappers and driver opens, keeps every cursor inside
      its file and every file inside its buffer. */
  lemma {:induction false} RunInv(a: Sys, steps: seq<Step>, b: Sys)
    requires Inv(a) && Reaches(a, steps, b)
    ensures Inv(b)
    decreases |steps|
  {
    hide Inv, Next, StepOk;
    if steps != [] {
      StepInv(a, steps[0]);
      RunInv(Next(a, steps[0]), steps[1..], b);
    }
  }

  /** A close that frees the wrapper frees the driver open, and the other way round. */
  lemma ReleasedTogether(sys: Sys, id: nat)
    requires Inv(sys) && IdSlot(sys.wraps, id).Some? && sys.wraps[id - 1].value.mount == Root
    ensures var w, sys' := sys.wraps[id - 1].value, VClose(sys, id);
            && 1 <= w.driver <= |sys'.fs.opens| && id <= |sys'.wraps|
            && (sys'.wraps[id - 1].None? <==> sys'.fs.opens[w.driver - 1].None?) && (sys'.wraps[id - 1].None? <==> w.refs == 1)
  {
    hide FsOk, LockStep;
    PairAt(sys, id - 1);
  }
}
