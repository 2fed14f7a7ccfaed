/** The reply pool's allocation bitmap: 64-bit words, lowest clear bit first. */
module ReplyPool {
  import opened Composition

  // ---------------------------------------------------------------- single words

  function Bit(w: bv64, b: bv7): bool
    requires b < 64
  {
    (w >> b) & 1 == 1
  }

  const FULL: bv64 := 0xFFFF_FFFF_FFFF_FFFF

  function LowestClear(w: bv64): bv64 {
    !w & (w + 1)
  }

  lemma LowestClearIsOneBit(w: bv64)
    requires w != FULL
    ensures LowestClear(w) != 0 && LowestClear(w) & (LowestClear(w) - 1) == 0
  {
  }

  lemma OneBitAt(f: bv64, b: bv7)
    requires f & (f - 1) == 0 && b < 64 && Bit(f, b)
    ensures f == 1 << b
  {
  }

  /** The bit that `~w & (w + 1)` picks is clear in `w`, and every lower one is set. */
  lemma LowestClearAt(w: bv64, b: bv7, c: bv7)
    requires b < 64 && LowestClear(w) == 1 << b && c <= b
    ensures Bit(w, c) == (c != b)
  {
  }

  lemma SetBit(w: bv64, b: bv7, c: bv7)
    requires b < 64 && c < 64
    ensures Bit(w | (1 << b), c) == (c == b || Bit(w, c))
    ensures Bit(w & !(1 << b), c) == (c != b && Bit(w, c))
  {
  }

  lemma FullBit(c: bv7)
    requires c < 64
    ensures Bit(FULL, c)
  {
  }

  /** What is left of `f` after shifting out `b` bits. */
  function Rest(f: bv64, b: bv7): bv64
    requires b < 64
  {
    f >> b
  }

  lemma NotLast(f: bv64, b: bv7)
    requires b < 64 && Rest(f, b) != 0 && Rest(f, b) & 1 == 0
    ensures b < 63
  {
  }

  lemma HalfNotZero(v: bv64)
    requires v != 0 && v & 1 == 0
    ensures v >> 1 != 0
  {
  }

  lemma ShiftOutLow(f: bv64, b: bv7)
    requires b < 8
    ensures Rest(f, b) >> 1 == Rest(f, b + 1)
  {
  }

  lemma ShiftOutNext(f: bv64, b: bv7)
    requires 8 <= b < 16
    ensures Rest(f, b) >> 1 == Rest(f, b + 1)
  {
  }

  lemma ShiftOutMiddle(f: bv64, b: bv7)
    requires 16 <= b < 32
    ensures Rest(f, b) >> 1 == Rest(f, b + 1)
  {
  }

  lemma ShiftOutHigh(f: bv64, b: bv7)
    requires 32 <= b < 63
    ensures Rest(f, b) >> 1 == Rest(f, b + 1)
  {
  }

  /** By where the shift lies: bit-blasting all of them at once is costly. */
  lemma ShiftOut(f: bv64, b: bv7)
    requires b < 63
    ensures Rest(f, b) >> 1 == Rest(f, b + 1)
  {
    hide Rest;
    if b < 8 { ShiftOutLow(f, b); }
    else if b < 16 { ShiftOutNext(f, b); }
    else if b < 32 { ShiftOutMiddle(f, b); }
    else { ShiftOutHigh(f, b); }
  }

  lemma ShiftedTo(f: bv64, b: bv7)
    requires f & (f - 1) == 0 && b < 64 && Rest(f, b) & 1 != 0
    ensures f == 1 << b
  {
    OneBitAt(f, b);
  }

  lemma Closer(b: bv7)
    requires b < 63
    ensures b + 1 < 64 && 64 - (b + 1) < 64 - b
  {
  }

  /** Index of the only set bit, by shifting. */
  method BitIndex(f: bv64) returns (b: bv7)
    requires f != 0 && f & (f - 1) == 0
    ensures b < 64 && f == 1 << b
  {
    hide Rest;
    b := 0;
    var v := f;
    RestAll(f);
    while v & 1 == 0
      invariant b < 64 && v == Rest(f, b) && v != 0
      decreases 64 - b
    {
      NotLast(f, b);
      ShiftOut(f, b);
      HalfNotZero(v);
      Closer(b);
      v := v >> 1;
      b := b + 1;
    }
    ShiftedTo(f, b);
  }

  lemma RestAll(f: bv64)
    ensures Rest(f, 0) == f
  {
  }

  // ---------------------------------------------------------------- the bitmap

  function Column(i: nat): (b: bv7)
    ensures b < 64
  {
    (i % 64) as bv7
  }

  predicate Marked(words: seq<bv64>, i: nat) {
    i / 64 < |words| && Bit(words[i / 64], Column(i))
  }

  lemma ColumnValue(i: nat)
    ensures Column(i) as nat == i % 64
  {
  }

  lemma ByValue(b: bv7, c: bv7)
    ensures b == c <==> b as nat == c as nat
    ensures b <= c <==> b as nat <= c as nat
  {
  }

  lemma SmallValue(b: bv7)
    requires b < 64
    ensures 0 <= b as nat < 64
  {
  }

  function Index(w: nat, b: bv7): nat {
    w * 64 + b as nat
  }

  lemma ColumnOf(w: nat, b: bv7)
    requires b < 64
    ensures Index(w, b) / 64 == w && Column(Index(w, b)) == b
    ensures w * 64 <= Index(w, b) < w * 64 + 64
  {
    hide Column;
    SmallValue(b);
    ColumnValue(Index(w, b));
    ByValue(Column(Index(w, b)), b);
  }

  /** Two indices of one word are told apart, and ordered, by their columns. */
  lemma ColumnOrder(i: nat, j: nat)
    requires i / 64 == j / 64
    ensures Column(i) <= Column(j) <==> i <= j
    ensures Column(i) == Column(j) <==> i == j
  {
    hide Column;
    ColumnValue(i);
    ColumnValue(j);
    ByValue(Column(i), Column(j));
  }

  lemma IndexOf(i: nat)
    ensures Index(i / 64, Column(i)) == i
  {
    hide Column;
    ColumnValue(i);
  }

  function Written(w: bv64, b: bv7, on: bool): bv64
    requires b < 64
  {
    if on then w | (1 << b) else w & !(1 << b)
  }

  lemma WrittenBit(w: bv64, b: bv7, on: bool, c: bv7)
    requires b < 64 && c < 64
    ensures Bit(Written(w, b, on), c) == if c == b then on else Bit(w, c)
  {
    hide Bit;
    SetBit(w, b, c);
  }

  lemma WrittenAt(words: seq<bv64>, w: nat, b: bv7, on: bool, i: nat)
    requires w < |words| && b < 64
    ensures Marked(words[w := Written(words[w], b, on)], i) == (if i == Index(w, b) then on else Marked(words, i))
  {
    hide Bit, Column, Index, Written;
    ColumnOf(w, b);
    if i / 64 == w {
      WrittenBit(words[w], b, on, Column(i));
      ColumnOrder(i, Index(w, b));
    }
  }

  class Bitmap {
    const size: nat
    const words: array<bv64>

    ghost predicate Valid()
      reads this
    {
      words.Length == (size + 63) / 64
    }

    /** The entries in use. */
    ghost function Used(): set<nat>
      reads this, words
    {
      set i: nat | i < size && Marked(words[..], i)
    }

    constructor (size: nat)
      ensures this.size == size && Valid() && fresh(words) && Used() == {}
    {
      this.size := size;
      words := new bv64[(size + 63) / 64](_ => 0);
      new;
      forall i: nat ensures !Marked(words[..], i) { }
    }

    /** Write bit `b` of word `w`; every other bit stays. */
    method Write(w: nat, b: bv7, on: bool)
      requires w < words.Length && b < 64
      modifies words
      ensures forall i: nat {:trigger Marked(words[..], i)} ::
                Marked(words[..], i) == (if i == Index(w, b) then on else old(Marked(words[..], i)))
    {
      ghost var before := words[..];
      words[w] := Written(words[w], b, on);
      assert words[..] == before[w := Written(before[w], b, on)];
      forall i: nat ensures Marked(words[..], i) == (if i == Index(w, b) then on else Marked(before, i)) {
        WrittenAt(before, w, b, on, i);
      }
    }

    /** `reply_pool_alloc`: the lowest free entry, or none if all are in use. */
    method Alloc() returns (r: Option<nat>)
      requires Valid()
      modifies words
      ensures r.Some? ==> r.value < size && r.value !in old(Used()) && Used() == old(Used()) + {r.value}
      ensures r.Some? ==> forall i: nat | i < r.value :: i in old(Used())
      ensures r.None? ==> Used() == old(Used()) && forall i: nat | i < size :: i in Used()
    {
      hide Bit, Column, Index, Marked, LowestClear;
      ghost var before := words[..];
      var w := 0;
      while w < words.Length
        invariant w <= words.Length && (forall i: nat :: Marked(words[..], i) == Marked(before, i))
        invariant forall i: nat | i < w * 64 && i < size :: Marked(before, i)
      {
        assert words[w] == words[..][w];
        ghost var row := words[..];
        if words[w] != FULL {
          var free := LowestClear(words[w]);
          LowestClearIsOneBit(words[w]);
          var b := BitIndex(free);
          var idx := Index(w, b);
          ColumnOf(w, b);
          RowBelow(row, w, b);
          Write(w, b, true);
          if idx < size {
            return Some(idx);
          }
          Write(w, b, false);
        } else {
          RowFull(row, w);
        }
        w := w + 1;
      }
      r := None;
    }

    /** `reply_pool_free`. */
    method Free(idx: nat)
      requires Valid()
      modifies words
      ensures Used() == old(Used()) - {idx}
    {
      if idx >= size { return; }
      hide Column, Marked, Index;
      IndexOf(idx);
      Write(idx / 64, Column(idx), false);
    }
  }

  lemma RowBelow(words: seq<bv64>, w: nat, b: bv7)
    requires w < |words| && b < 64 && LowestClear(words[w]) == 1 << b
    ensures !Marked(words, Index(w, b))
    ensures forall i: nat | w * 64 <= i < Index(w, b) :: Marked(words, i)
  {
    hide Bit, Column, Index, LowestClear;
    ColumnOf(w, b);
    LowestClearAt(words[w], b, b);
    forall i: nat | w * 64 <= i < Index(w, b) ensures Marked(words, i) {
      assert i / 64 == w;
      ColumnOrder(i, Index(w, b));
      LowestClearAt(words[w], b, Column(i));
    }
  }

  lemma RowFull(words: seq<bv64>, w: nat)
    requires w < |words| && words[w] == FULL
    ensures forall i: nat | w * 64 <= i < w * 64 + 64 :: Marked(words, i)
  {
    hide Bit, Column;
    forall i: nat | w * 64 <= i < w * 64 + 64 ensures Marked(words, i) {
      FullBit(Column(i));
    }
  }
}
