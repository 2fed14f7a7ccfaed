/** Power-of-two blocks of a page pool: alignment, nesting, buddies, and tilings of the
    pool by disjoint blocks.  Addresses are page numbers relative to the pool base. */
module BuddyBlocks {

  function Pow2(k: nat): (p: nat)
    ensures p > 0
  {
    if k == 0 then 1 else 2 * Pow2(k - 1)
  }

  /** The low `k` bits of `a` are zero. */
  predicate Aligned(a: nat, k: nat)
    decreases k
  {
    k == 0 || (a % 2 == 0 && Aligned(a / 2, k - 1))
  }

  /** A block of `2^order` pages starting at `addr`. */
  datatype Block = Block(addr: nat, order: nat) {
    function End(): nat { addr + Pow2(order) }

    predicate Has(p: nat) { addr <= p < End() }
  }

  ghost predicate Proper(top: nat, b: Block) {
    b.order <= top && Aligned(b.addr, b.order) && b.End() <= Pow2(top)
  }

  ghost predicate Disjoint(b: Block, c: Block) {
    b.End() <= c.addr || c.End() <= b.addr
  }

  ghost predicate Inside(b: Block, c: Block) {
    c.addr <= b.addr && b.End() <= c.End()
  }

  /** The partner at the other half of the enclosing block: `a` XOR `2^k`, on units of a page. */
  function Buddy(a: nat, k: nat): nat
    decreases k
  {
    if k > 0 then 2 * Buddy(a / 2, k - 1) + a % 2
    else if a % 2 == 0 then a + 1 else a - 1
  }

  // ---------------------------------------------------------------- arithmetic

  /** The two halves of a block, and how they find each other. */
  lemma {:induction false} Halves(a: nat, k: nat)
    requires Aligned(a, k + 1)
    ensures Aligned(a, k) && Aligned(a + Pow2(k), k)
    ensures Buddy(a, k) == a + Pow2(k) && Buddy(a + Pow2(k), k) == a
    decreases k
  {
    if k > 0 {
      Halves(a / 2, k - 1);
      assert (a + Pow2(k)) / 2 == a / 2 + Pow2(k - 1);
    }
  }

  /** A block and its buddy are the halves of the block at the lower address. */
  lemma {:induction false} BuddyHalves(a: nat, k: nat)
    requires Aligned(a, k)
    ensures var b := Buddy(a, k);
            var low := if b < a then b else a;
            && Aligned(low, k + 1) && b != a && Aligned(b, k) && Buddy(b, k) == a
            && (if b < a then b + Pow2(k) == a else a + Pow2(k) == b)
    decreases k
  {
    if k > 0 {
      BuddyHalves(a / 2, k - 1);
      assert Buddy(a, k) / 2 == Buddy(a / 2, k - 1);
    }
  }

  lemma {:induction false} AlignedDown(a: nat, j: nat, k: nat)
    requires k <= j && Aligned(a, j)
    ensures Aligned(a, k)
    decreases j
  {
    if k < j {
      Halves(a, j - 1);
      AlignedDown(a, j - 1, k);
    }
  }

  lemma {:induction false} EndAligned(a: nat, k: nat)
    requires Aligned(a, k)
    ensures Aligned(a + Pow2(k), k)
    decreases k
  {
    if k > 0 {
      EndAligned(a / 2, k - 1);
      assert (a + Pow2(k)) / 2 == a / 2 + Pow2(k - 1);
    }
  }

  /** Aligned addresses are a whole block apart. */
  lemma {:induction false} Apart(a: nat, b: nat, k: nat)
    requires Aligned(a, k) && Aligned(b, k) && a < b
    ensures a + Pow2(k) <= b
    decreases k
  {
    if k > 0 {
      Apart(a / 2, b / 2, k - 1);
    }
  }

  lemma {:induction false} Pow2Grows(k: nat, j: nat)
    requires k <= j
    ensures Pow2(k) <= Pow2(j)
  {
    if k < j { Pow2Grows(k, j - 1); }
  }

  /** Blocks that share a page nest. */
  lemma Nest(b: Block, c: Block, p: nat)
    requires Aligned(b.addr, b.order) && Aligned(c.addr, c.order) && b.order <= c.order
    requires b.Has(p) && c.Has(p)
    ensures Inside(b, c)
    ensures b.order == c.order ==> b == c
  {
    AlignedDown(c.addr, c.order, b.order);
    EndAligned(c.addr, c.order);
    AlignedDown(c.End(), c.order, b.order);
    Apart(b.addr, c.End(), b.order);
    if b.addr < c.addr {
      Apart(b.addr, c.addr, b.order);
    }
    Pow2Grows(b.order, c.order);
  }

  // ---------------------------------------------------------------- tilings

  ghost predicate Covered(t: set<Block>, p: nat) {
    exists b :: b in t && b.Has(p)
  }

  /** Disjoint proper blocks that make up the whole pool. */
  ghost predicate Tiling(top: nat, t: set<Block>) {
    && (forall b {:trigger Proper(top, b)} | b in t :: Proper(top, b))
    && (forall b, c {:trigger Disjoint(b, c)} | b in t && c in t && b != c :: Disjoint(b, c))
    && (forall p: nat | p < Pow2(top) :: Covered(t, p))
  }

  lemma {:induction false} ZeroAligned(k: nat)
    ensures Aligned(0, k)
    decreases k
  {
    if k > 0 { ZeroAligned(k - 1); }
  }

  lemma OneTile(top: nat)
    ensures Tiling(top, {Block(0, top)})
  {
    ZeroAligned(top);
    forall p: nat | p < Pow2(top) ensures Covered({Block(0, top)}, p) {
      assert Block(0, top).Has(p);
    }
  }

  /** Two tiles that share a page are one. */
  lemma SameTile(top: nat, t: set<Block>, b: Block, c: Block, p: nat)
    requires Tiling(top, t) && b in t && c in t && b.Has(p) && c.Has(p)
    ensures b == c
  {
    assert b != c ==> Disjoint(b, c);
  }

  ghost function LowHalf(b: Block): Block
    requires b.order > 0
  {
    Block(b.addr, b.order - 1)
  }

  ghost function HighHalf(b: Block): Block
    requires b.order > 0
  {
    Block(b.addr + Pow2(b.order - 1), b.order - 1)
  }

  lemma HalvesProper(top: nat, b: Block)
    requires Proper(top, b) && b.order > 0
    ensures Proper(top, LowHalf(b)) && Proper(top, HighHalf(b)) && Disjoint(LowHalf(b), HighHalf(b))
    ensures LowHalf(b) != HighHalf(b) && LowHalf(b) != b && HighHalf(b) != b
    ensures forall p: nat :: b.Has(p) <==> LowHalf(b).Has(p) || HighHalf(b).Has(p)
  {
    Halves(b.addr, b.order - 1);
    assert Pow2(b.order) == 2 * Pow2(b.order - 1);
  }

  /** Splitting a tile leaves a tiling. */
  lemma SplitTile(top: nat, t: set<Block>, b: Block)
    requires Tiling(top, t) && b in t && b.order > 0
    ensures Tiling(top, t - {b} + {LowHalf(b), HighHalf(b)})
  {
    HalvesProper(top, b);
    var t' := t - {b} + {LowHalf(b), HighHalf(b)};
    forall c, d | c in t' && d in t' && c != d ensures Disjoint(c, d) {
      if c in t && d in t { assert Disjoint(c, d); }
      else if c in t && c != b { assert Disjoint(c, b); }
      else if d in t && d != b { assert Disjoint(d, b); }
    }
    forall p: nat | p < Pow2(top) ensures Covered(t', p) {
      assert Covered(t, p);
      var c :| c in t && c.Has(p);
      if c == b {
        if LowHalf(b).Has(p) { assert LowHalf(b) in t'; } else { assert HighHalf(b) in t'; }
      } else {
        assert c in t';
      }
    }
  }

  /** Merging the two halves of a block leaves a tiling. */
  lemma MergeTile(top: nat, t: set<Block>, b: Block)
    requires Tiling(top, t) && 0 < b.order <= top && Aligned(b.addr, b.order)
    requires LowHalf(b) in t && HighHalf(b) in t
    ensures Proper(top, b) && b !in t && Tiling(top, t - {LowHalf(b), HighHalf(b)} + {b})
  {
    var lo, hi := LowHalf(b), HighHalf(b);
    assert Proper(top, lo) && Proper(top, hi) && b.End() == hi.End();
    HalvesProper(top, b);
    assert lo.Has(b.addr) && b.Has(b.addr) && (b in t ==> Disjoint(b, lo));
    var t' := t - {lo, hi} + {b};
    forall c, d | c in t' && d in t' && c != d ensures Disjoint(c, d) {
      if c == b { assert Disjoint(lo, d) && Disjoint(hi, d); }
      else if d == b { assert Disjoint(lo, c) && Disjoint(hi, c); }
    }
    forall p: nat | p < Pow2(top) ensures Covered(t', p) {
      assert Covered(t, p);
      var c :| c in t && c.Has(p);
      if c == lo || c == hi { assert b in t' && b.Has(p); } else { assert c in t'; }
    }
  }
}
