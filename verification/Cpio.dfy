/** The "New ASCII" cpio format: tools/pack-initramfs.py writes it, ramfs reads it.
    Packing and parsing as functions, and what parsing makes of a packed archive. */
module Cpio {
  import opened Composition
  import opened Sequences
  import opened Bytes
  import opened RamfsFiles

  /** One file to pack, its leading slashes already stripped. */
  datatype Member = Member(name: seq<Byte>, data: seq<Byte>)

  const FIELD_MAX := 0xFFFF_FFFF
  const HEADER := 110

  /** "070701" and "TRAILER!!!". */
  const MAGIC: seq<Byte> := [48, 55, 48, 55, 48, 49]
  const TRAILER: seq<Byte> := [84, 82, 65, 73, 76, 69, 82, 33, 33, 33]

  /** Octal 100644: a regular file. */
  const REGULAR_MODE := 33188

  // ---------------------------------------------------------------- hexadecimal fields

  function Digit(v: nat): Byte
    requires v < 16
  {
    if v < 10 then 48 + v else 55 + v
  }

  function HexDigits(n: nat, k: nat): (s: seq<Byte>)
    ensures |s| == k
  {
    if k == 0 then [] else HexDigits(n / 16, k - 1) + [Digit(n % 16)]
  }

  function Hex8(n: nat): seq<Byte> {
    HexDigits(n, 8)
  }

  function DigitValue(c: Byte): (v: Option<nat>)
    ensures v.Some? ==> v.value < 16
  {
    if 48 <= c <= 57 then Some(c - 48)
    else if 65 <= c <= 70 then Some(c - 55)
    else if 97 <= c <= 102 then Some(c - 87)
    else None
  }

  function HexValue(s: seq<Byte>): Option<nat> {
    if s == [] then Some(0)
    else
      var front, d := HexValue(s[..|s| - 1]), DigitValue(s[|s| - 1]);
      if front.Some? && d.Some? then Some(16 * front.value + d.value) else None
  }

  /** `cpio_hex8`: all ones stands for "not a number". */
  function ParseHex8(s: seq<Byte>): nat {
    if HexValue(s).Some? then HexValue(s).value else FIELD_MAX
  }

  function Pow16(k: nat): nat {
    if k == 0 then 1 else 16 * Pow16(k - 1)
  }

  lemma {:induction false} HexRoundTrip(n: nat, k: nat)
    requires n < Pow16(k)
    ensures HexValue(HexDigits(n, k)) == Some(n)
  {
    if k > 0 {
      HexRoundTrip(n / 16, k - 1);
      var s := HexDigits(n, k);
      assert s[..k - 1] == HexDigits(n / 16, k - 1) && s[k - 1] == Digit(n % 16);
    }
  }

  lemma Hex8RoundTrip(n: nat)
    requires n <= FIELD_MAX
    ensures ParseHex8(Hex8(n)) == n
  {
    assert Pow16(8) == FIELD_MAX + 1 by {
      assert Pow16(2) == 256;
      assert Pow16(4) == 65536;
      assert Pow16(6) == 16777216;
    }
    HexRoundTrip(n, 8);
  }

  // ---------------------------------------------------------------- packing

  function Zeros(n: nat): (s: seq<Byte>)
    ensures |s| == n
  {
    seq(n, _ => NUL)
  }

  function Align4(n: nat): (r: nat)
    ensures n <= r < n + 4 && r % 4 == 0
  {
    (n + 3) / 4 * 4
  }

  /** `pad4`. */
  function Pad4(s: seq<Byte>): (r: seq<Byte>)
    ensures |r| == Align4(|s|) && s <= r
  {
    s + Zeros(Align4(|s|) - |s|)
  }

  function Header(ino: nat, mode: nat, filesize: nat, namesize: nat): (h: seq<Byte>)
    ensures |h| == HEADER
  {
    MAGIC + Hex8(ino) + Hex8(mode) + Hex8(0) + Hex8(0) + Hex8(1) + Hex8(0) + Hex8(filesize)
    + Hex8(0) + Hex8(0) + Hex8(0) + Hex8(0) + Hex8(namesize) + Hex8(0)
  }

  /** What `append_entry` makes of the buffer. */
  function Append(buf: seq<Byte>, m: Member, mode: nat, ino: nat): (r: seq<Byte>)
    ensures buf <= r && |r| % 4 == 0
  {
    Pad4(Pad4(buf + Header(ino, mode, |m.data|, |m.name| + 1) + m.name + [NUL]) + m.data)
  }

  /** Sizes that fit the eight-digit fields; otherwise the packer raises an error. */
  predicate Packable(m: Member) {
    |m.name| + 1 <= FIELD_MAX && |m.data| <= FIELD_MAX
  }

  function PackFrom(buf: seq<Byte>, members: seq<Member>, ino: nat): (r: seq<Byte>)
    ensures buf <= r
    decreases members
  {
    if members == [] then Append(buf, Member(TRAILER, []), 0, 0)
    else PackFrom(Append(buf, members[0], REGULAR_MODE, ino), members[1..], ino + 1)
  }

  function Pack(members: seq<Member>): seq<Byte> {
    PackFrom([], members, 1)
  }

  // ---------------------------------------------------------------- parsing

  /** One header read at `off`: what the loop of `ramfs_slurp_initramfs` works out before it
      stores anything.  `Halt` is every reason to stop. */
  datatype Scan = Halt | Found(regular: bool, name: seq<Byte>, data: seq<Byte>, next: nat)

  predicate IsTrailer(name: seq<Byte>) {
    |name| >= 11 && name[..10] == TRAILER && name[10] == NUL
  }

  function ScanAt(blob: seq<Byte>, off: nat): (r: Scan)
    ensures r.Found? ==> off + HEADER <= r.next
  {
    if off + HEADER > |blob| || blob[off..off + 6] != MAGIC then Halt
    else
      var mode := ParseHex8(blob[off + 14..off + 22]);
      var filesize := ParseHex8(blob[off + 54..off + 62]);
      var namesize := ParseHex8(blob[off + 94..off + 102]);
      if mode == FIELD_MAX || filesize == FIELD_MAX || namesize == FIELD_MAX then Halt
      else
        var nameOff := off + HEADER;
        if nameOff + namesize > |blob| then Halt
        else
          var name := blob[nameOff..nameOff + namesize];
          var dataOff := Align4(nameOff + namesize);
          if IsTrailer(name) || dataOff + filesize > |blob| then Halt
          else Found(mode / 0x1000 % 16 == 8, name, blob[dataOff..dataOff + filesize], Align4(dataOff + filesize))
  }

  /** The path an entry is stored under: at most 30 bytes of its name, its last byte taken
      for the terminator, as a C string behind a slash. */
  function PathOf(name: seq<Byte>): seq<Byte> {
    CString([SLASH] + Cut(if name == [] then [] else name[..|name| - 1], NAME_MAX - 2))
  }

  function Filled(f: File, data: seq<Byte>): File
    requires |f.store| == FILE_CAP && |data| <= FILE_CAP
  {
    f.(store := data + f.store[|data|..], size := |data|)
  }

  /** Store one entry, if it is a regular file that fits and there is room. */
  function StoreOne(files: seq<File>, e: Scan): seq<File>
    requires e.Found?
  {
    if !e.regular || |e.data| > FILE_CAP then files
    else
      var (more, k) := CreateEntry(files, PathOf(e.name), Regular);
      if k.None? then files else more[k.value := Filled(more[k.value], e.data)]
  }

  function Slurp(files: seq<File>, blob: seq<Byte>, off: nat): seq<File>
    decreases |blob| - off
  {
    var e := ScanAt(blob, off);
    if e.Halt? then files else Slurp(StoreOne(files, e), blob, e.next)
  }
}
