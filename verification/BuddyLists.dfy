/** components/mm_buddy: allocation and freeing on the free lists, and what holds over
    every run of them: the pool stays tiled, no two free buddies coexist, and the free
    lists are exactly the maximal free blocks. */
module BuddyLists {
  import opened Composition
  import opened Sequences
  import opened BuddyBlocks

  /** `lists[k]`: the addresses on the free list of order `k`, front first. */
  type Lists = seq<seq<nat>>

  // ---------------------------------------------------------------- operations

  function Push(lists: Lists, k: nat, a: nat): Lists
    requires k < |lists|
  {
    lists[k := [a] + lists[k]]
  }

  /** Smallest order from `k` up with a free block; `|lists|` if there is none. */
  function FirstFit(lists: Lists, k: nat): (f: nat)
    requires k <= |lists|
    ensures k <= f <= |lists|
    ensures forall j | k <= j < f :: lists[j] == []
    ensures f < |lists| ==> lists[f] != []
    decreases |lists| - k
  {
    if k == |lists| then k else if lists[k] != [] then k else FirstFit(lists, k + 1)
  }

  /** Halve the block at `a` from order `found` down to `k`, freeing the upper halves. */
  function SplitDown(lists: Lists, a: nat, found: nat, k: nat): (r: Lists)
    requires k <= found <= |lists|
    ensures |r| == |lists|
    decreases found - k
  {
    if found == k then lists
    else SplitDown(Push(lists, found - 1, a + Pow2(found - 1)), a, found - 1, k)
  }

  function Alloc(lists: Lists, k: nat): (r: (Lists, Option<nat>))
    ensures |r.0| == |lists|
  {
    if k >= |lists| then (lists, None)
    else
      var f := FirstFit(lists, k);
      if f == |lists| then (lists, None)
      else (SplitDown(lists[f := lists[f][1..]], lists[f][0], f, k), Some(lists[f][0]))
  }

  /** Merge with the buddy while it is free, then push. */
  function Coalesce(lists: Lists, a: nat, k: nat): (r: Lists)
    requires k < |lists| && Aligned(a, k)
    ensures |r| == |lists|
    decreases |lists| - k
  {
    if k < |lists| - 1 && Buddy(a, k) in lists[k] then
      var b := Buddy(a, k);
      BuddyHalves(a, k);
      Coalesce(lists[k := Without<nat>(lists[k], b)], if b < a then b else a, k + 1)
    else Push(lists, k, a)
  }

  function Free(lists: Lists, a: nat, k: nat): (r: Lists)
    requires Aligned(a, k)
    ensures |r| == |lists|
  {
    if k >= |lists| then lists else Coalesce(lists, a, k)
  }

  function Seeded(top: nat): Lists {
    seq(top + 1, k => if k == top then [0] else [])
  }

  // ---------------------------------------------------------------- invariant

  /** The blocks of order `k` at the addresses `s`. */
  ghost function BlocksAt(s: seq<nat>, k: nat): set<Block> {
    if s == [] then {} else BlocksAt(s[..|s| - 1], k) + {Block(s[|s| - 1], k)}
  }

  /** The blocks on the free lists. */
  ghost function Listed(lists: Lists): set<Block> {
    if lists == [] then {} else Listed(lists[..|lists| - 1]) + BlocksAt(lists[|lists| - 1], |lists| - 1)
  }

  lemma {:induction false} BlocksAtAre(s: seq<nat>, k: nat, b: Block)
    ensures b in BlocksAt(s, k) <==> b.order == k && b.addr in s
  {
    if s != [] {
      assert s == s[..|s| - 1] + [s[|s| - 1]];
      BlocksAtAre(s[..|s| - 1], k, b);
    }
  }

  lemma {:induction false} ListedAre(lists: Lists, b: Block)
    ensures b in Listed(lists) <==> b.order < |lists| && b.addr in lists[b.order]
  {
    if lists != [] {
      ListedAre(lists[..|lists| - 1], b);
      BlocksAtAre(lists[|lists| - 1], |lists| - 1, b);
    }
  }

  ghost predicate HasTwin(free: set<Block>, b: Block) {
    Block(Buddy(b.addr, b.order), b.order) in free
  }

  ghost predicate NoTwins(top: nat, free: set<Block>) {
    forall b {:trigger HasTwin(free, b)} | b in free && b.order < top :: !HasTwin(free, b)
  }

  /** Free, held and allocated blocks tile the pool, and no two free ones are buddies.
      `held` is a block in the allocator's hands, if any. */
  ghost predicate Tiled(top: nat, free: set<Block>, held: set<Block>, alloc: set<Block>) {
    && free !! held && free !! alloc && held !! alloc
    && Tiling(top, free + held + alloc)
    && NoTwins(top, free)
  }

  ghost predicate Tidy(lists: Lists) {
    |lists| > 0 && forall k | 0 <= k < |lists| :: Distinct(lists[k])
  }

  lemma TidyUpdate(lists: Lists, k: nat, s: seq<nat>)
    requires Tidy(lists) && k < |lists| && Distinct(s)
    ensures Tidy(lists[k := s])
  {
  }

  lemma TidyPush(lists: Lists, k: nat, a: nat)
    requires Tidy(lists) && k < |lists| && Block(a, k) !in Listed(lists)
    ensures Tidy(Push(lists, k, a))
  {
    InListed(lists, k, a);
    TidyUpdate(lists, k, [a] + lists[k]);
  }

  ghost predicate Pool(lists: Lists, held: set<Block>, alloc: set<Block>) {
    && Tidy(lists)
    && Tiled(|lists| - 1, Listed(lists), held, alloc)
  }

  ghost predicate Sound(lists: Lists, alloc: set<Block>) {
    Pool(lists, {}, alloc)
  }

  /** Moving a block between free, held and allocated changes no tile. */
  lemma Handover(top: nat, free: set<Block>, held: set<Block>, alloc: set<Block>,
                 free': set<Block>, held': set<Block>, alloc': set<Block>)
    requires Tiled(top, free, held, alloc)
    requires free' + held' + alloc' == free + held + alloc && NoTwins(top, free')
    requires free' !! held' && free' !! alloc' && held' !! alloc'
    ensures Tiled(top, free', held', alloc')
  {
  }

  lemma InListed(lists: Lists, k: nat, a: nat)
    requires k < |lists|
    ensures a in lists[k] <==> Block(a, k) in Listed(lists)
  {
    ListedAre(lists, Block(a, k));
  }

  lemma ListedPush(lists: Lists, k: nat, a: nat)
    requires k < |lists|
    ensures Listed(Push(lists, k, a)) == Listed(lists) + {Block(a, k)}
  {
    forall b ensures b in Listed(Push(lists, k, a)) <==> b in Listed(lists) + {Block(a, k)} {
      ListedAre(Push(lists, k, a), b);
      ListedAre(lists, b);
    }
  }

  lemma ListedWithout(lists: Lists, k: nat, a: nat, rest: seq<nat>)
    requires k < |lists| && forall y :: y in rest <==> y in lists[k] && y != a
    ensures Listed(lists[k := rest]) == Listed(lists) - {Block(a, k)}
  {
    forall b ensures b in Listed(lists[k := rest]) <==> b in Listed(lists) - {Block(a, k)} {
      ListedAre(lists[k := rest], b);
      ListedAre(lists, b);
    }
  }

  lemma PopHead(lists: Lists, k: nat)
    requires k < |lists| && lists[k] != [] && Distinct(lists[k])
    ensures Distinct(lists[k][1..])
    ensures Listed(lists[k := lists[k][1..]]) == Listed(lists) - {Block(lists[k][0], k)}
    ensures Block(lists[k][0], k) in Listed(lists)
  {
    var s := lists[k];
    assert s == [s[0]] + s[1..];
    ListedWithout(lists, k, s[0], s[1..]);
    InListed(lists, k, s[0]);
  }

  // ---------------------------------------------------------------- splitting

  /** Neither half of a tile is itself a tile. */
  lemma HalvesAreNew(top: nat, t: set<Block>, b: Block)
    requires Tiling(top, t) && b in t && b.order > 0
    ensures LowHalf(b) !in t && HighHalf(b) !in t
  {
    HalvesProper(top, b);
    if LowHalf(b) in t { SameTile(top, t, b, LowHalf(b), b.addr); }
    if HighHalf(b) in t { SameTile(top, t, b, HighHalf(b), HighHalf(b).addr); }
  }

  /** Freeing one half while the other is held makes no pair of free buddies. */
  lemma HighHalfNoTwin(top: nat, free: set<Block>, b: Block)
    requires NoTwins(top, free) && 0 < b.order <= top && Aligned(b.addr, b.order)
    requires forall c | c in free :: Aligned(c.addr, c.order)
    requires LowHalf(b) !in free
    ensures NoTwins(top, free + {HighHalf(b)})
  {
    Halves(b.addr, b.order - 1);
    var more, low, high := free + {HighHalf(b)}, LowHalf(b), HighHalf(b);
    forall c | c in more && c.order < top ensures !HasTwin(more, c) {
      BuddyHalves(c.addr, c.order);
      assert !HasTwin(free, c) || c == high;
      assert Block(Buddy(c.addr, c.order), c.order) == high ==> c == low;
    }
  }

  lemma SplitTiled(top: nat, free: set<Block>, b: Block, alloc: set<Block>)
    requires Tiled(top, free, {b}, alloc) && b.order > 0
    ensures HighHalf(b) !in free && Tiled(top, free + {HighHalf(b)}, {LowHalf(b)}, alloc)
  {
    var t := free + {b} + alloc;
    assert Proper(top, b);
    forall c | c in free ensures Aligned(c.addr, c.order) { assert Proper(top, c); }
    HalvesAreNew(top, t, b);
    SplitTile(top, t, b);
    HighHalfNoTwin(top, free, b);
    HalvesProper(top, b);
    assert free + {HighHalf(b)} + {LowHalf(b)} + alloc == t - {b} + {LowHalf(b), HighHalf(b)};
  }

  lemma SplitTiledAt(top: nat, free: set<Block>, a: nat, f: nat, alloc: set<Block>)
    requires Tiled(top, free, {Block(a, f)}, alloc) && f > 0
    ensures Block(a + Pow2(f - 1), f - 1) !in free
    ensures Tiled(top, free + {Block(a + Pow2(f - 1), f - 1)}, {Block(a, f - 1)}, alloc)
  {
    SplitTiled(top, free, Block(a, f), alloc);
  }

  lemma SplitStep(lists: Lists, a: nat, f: nat, alloc: set<Block>)
    requires Pool(lists, {Block(a, f)}, alloc) && 0 < f < |lists|
    ensures Pool(Push(lists, f - 1, a + Pow2(f - 1)), {Block(a, f - 1)}, alloc)
  {
    var lists' := Push(lists, f - 1, a + Pow2(f - 1));
    SplitTiledAt(|lists| - 1, Listed(lists), a, f, alloc);
    TidyPush(lists, f - 1, a + Pow2(f - 1));
    ListedPush(lists, f - 1, a + Pow2(f - 1));
    TiledSame(|lists| - 1, Listed(lists) + {Block(a + Pow2(f - 1), f - 1)}, Listed(lists'), {Block(a, f - 1)}, alloc);
  }

  lemma TiledSame(top: nat, free: set<Block>, free': set<Block>, held: set<Block>, alloc: set<Block>)
    requires Tiled(top, free, held, alloc) && free' == free
    ensures Tiled(top, free', held, alloc)
  {
  }

  lemma {:induction false} SplitDownSound(lists: Lists, a: nat, f: nat, k: nat, alloc: set<Block>)
    requires Pool(lists, {Block(a, f)}, alloc) && k <= f < |lists|
    ensures Pool(SplitDown(lists, a, f, k), {Block(a, k)}, alloc)
    decreases f - k
  {
    if k < f {
      SplitStep(lists, a, f, alloc);
      SplitDownSound(Push(lists, f - 1, a + Pow2(f - 1)), a, f - 1, k, alloc);
    }
  }

  /** Taking the head of a list puts its block in the allocator's hands. */
  lemma PopHolds(lists: Lists, f: nat, alloc: set<Block>)
    requires Sound(lists, alloc) && f < |lists| && lists[f] != []
    ensures Pool(lists[f := lists[f][1..]], {Block(lists[f][0], f)}, alloc)
  {
    PopHead(lists, f);
    forall c | c in Listed(lists) - {Block(lists[f][0], f)} && c.order < |lists| - 1
      ensures !HasTwin(Listed(lists) - {Block(lists[f][0], f)}, c)
    {
      assert !HasTwin(Listed(lists), c);
    }
    TidyUpdate(lists, f, lists[f][1..]);
    Handover(|lists| - 1, Listed(lists), {}, alloc, Listed(lists) - {Block(lists[f][0], f)}, {Block(lists[f][0], f)}, alloc);
  }

  lemma HandOut(lists: Lists, b: Block, alloc: set<Block>)
    requires Pool(lists, {b}, alloc)
    ensures Sound(lists, alloc + {b})
  {
    Handover(|lists| - 1, Listed(lists), {b}, alloc, Listed(lists), {}, alloc + {b});
  }

  /** Carving order `k` out of the first block of order `f`. */
  lemma CarveSound(lists: Lists, k: nat, f: nat, alloc: set<Block>)
    requires Sound(lists, alloc) && k <= f < |lists| && lists[f] != []
    ensures var a := lists[f][0];
            && Proper(|lists| - 1, Block(a, k)) && Block(a, k) !in alloc
            && Sound(SplitDown(lists[f := lists[f][1..]], a, f, k), alloc + {Block(a, k)})
  {
    var a, rest := lists[f][0], lists[f := lists[f][1..]];
    PopHolds(lists, f, alloc);
    SplitDownSound(rest, a, f, k, alloc);
    HandOut(SplitDown(rest, a, f, k), Block(a, k), alloc);
    assert Proper(|lists| - 1, Block(a, k));
  }

  /** What allocation does to the pool: nothing on failure; on success one aligned block,
      carved out of a block that was free. */
  lemma AllocSound(lists: Lists, k: nat, alloc: set<Block>)
    requires Sound(lists, alloc)
    ensures var (lists', r) := Alloc(lists, k);
            && (r.None? ==> lists' == lists)
            && (r.Some? ==>
                  && Proper(|lists| - 1, Block(r.value, k)) && Block(r.value, k) !in alloc
                  && Sound(lists', alloc + {Block(r.value, k)})
                  && exists b :: b in Listed(lists) && Inside(Block(r.value, k), b))
  {
    if k < |lists| {
      var f := FirstFit(lists, k);
      if f < |lists| {
        CarveSound(lists, k, f, alloc);
        InListed(lists, f, lists[f][0]);
        Pow2Grows(k, f);
        assert Inside(Block(lists[f][0], k), Block(lists[f][0], f));
      }
    }
  }

  // ---------------------------------------------------------------- coalescing

  lemma MergeTiled(top: nat, free: set<Block>, a: nat, k: nat, alloc: set<Block>)
    requires Tiled(top, free, {Block(a, k)}, alloc) && k < top && Aligned(a, k)
    requires Block(Buddy(a, k), k) in free
    ensures var b := Buddy(a, k);
            var low := if b < a then b else a;
            Aligned(low, k + 1) && Tiled(top, free - {Block(b, k)}, {Block(low, k + 1)}, alloc)
  {
    var b := Buddy(a, k);
    var low := if b < a then b else a;
    BuddyHalves(a, k);
    var merged, t := Block(low, k + 1), free + {Block(a, k)} + alloc;
    assert {LowHalf(merged), HighHalf(merged)} == {Block(a, k), Block(b, k)};
    MergeTile(top, t, merged);
    forall c | c in free - {Block(b, k)} && c.order < top ensures !HasTwin(free - {Block(b, k)}, c) {
      assert !HasTwin(free, c);
    }
    assert free - {Block(b, k)} + {merged} + alloc == t - {LowHalf(merged), HighHalf(merged)} + {merged};
  }

  lemma MergeStep(lists: Lists, a: nat, k: nat, alloc: set<Block>)
    requires Pool(lists, {Block(a, k)}, alloc) && k < |lists| - 1 && Aligned(a, k) && Buddy(a, k) in lists[k]
    ensures var b := Buddy(a, k);
            var low := if b < a then b else a;
            Aligned(low, k + 1) && Pool(lists[k := Without<nat>(lists[k], b)], {Block(low, k + 1)}, alloc)
  {
    var b := Buddy(a, k);
    InListed(lists, k, b);
    MergeTiled(|lists| - 1, Listed(lists), a, k, alloc);
    WithoutIs(lists[k], b);
    ListedWithout(lists, k, b, Without<nat>(lists[k], b));
    TidyUpdate(lists, k, Without<nat>(lists[k], b));
  }

  lemma PushTiled(top: nat, free: set<Block>, a: nat, k: nat, alloc: set<Block>)
    requires Tiled(top, free, {Block(a, k)}, alloc) && Aligned(a, k)
    requires k < top ==> Block(Buddy(a, k), k) !in free
    ensures Tiled(top, free + {Block(a, k)}, {}, alloc)
  {
    var free' := free + {Block(a, k)};
    forall c | c in free' && c.order < top ensures !HasTwin(free', c) {
      assert Proper(top, c);
      BuddyHalves(c.addr, c.order);
      assert !HasTwin(free, c) || c == Block(a, k);
    }
    Handover(top, free, {Block(a, k)}, alloc, free', {}, alloc);
  }

  lemma PushLast(lists: Lists, a: nat, k: nat, alloc: set<Block>)
    requires Pool(lists, {Block(a, k)}, alloc) && k < |lists| && Aligned(a, k)
    requires k < |lists| - 1 ==> Buddy(a, k) !in lists[k]
    ensures Pool(Push(lists, k, a), {}, alloc)
  {
    InListed(lists, k, Buddy(a, k));
    PushTiled(|lists| - 1, Listed(lists), a, k, alloc);
    ListedPush(lists, k, a);
    TidyPush(lists, k, a);
  }

  lemma {:induction false} CoalesceSound(lists: Lists, a: nat, k: nat, alloc: set<Block>)
    requires Pool(lists, {Block(a, k)}, alloc) && k < |lists| && Aligned(a, k)
    ensures Pool(Coalesce(lists, a, k), {}, alloc)
    decreases |lists| - k
  {
    if k < |lists| - 1 && Buddy(a, k) in lists[k] {
      var b := Buddy(a, k);
      MergeStep(lists, a, k, alloc);
      CoalesceSound(lists[k := Without<nat>(lists[k], b)], if b < a then b else a, k + 1, alloc);
    } else {
      PushLast(lists, a, k, alloc);
    }
  }

  lemma TakeBack(lists: Lists, b: Block, alloc: set<Block>)
    requires Sound(lists, alloc) && b in alloc
    ensures Proper(|lists| - 1, b) && Pool(lists, {b}, alloc - {b})
  {
    assert b in Listed(lists) + {} + alloc;
    Handover(|lists| - 1, Listed(lists), {}, alloc, Listed(lists), {b}, alloc - {b});
  }

  /** Giving back an allocated block keeps the pool sound. */
  lemma FreeSound(lists: Lists, b: Block, alloc: set<Block>)
    requires Sound(lists, alloc) && b in alloc
    ensures Proper(|lists| - 1, b) && Sound(Free(lists, b.addr, b.order), alloc - {b})
  {
    TakeBack(lists, b, alloc);
    CoalesceSound(lists, b.addr, b.order, alloc - {b});
  }

  lemma InitSound(top: nat)
    ensures Sound(Seeded(top), {}) && Listed(Seeded(top)) == {Block(0, top)}
  {
    var lists := Seeded(top);
    forall b ensures b in Listed(lists) <==> b == Block(0, top) { ListedAre(lists, b); }
    assert Listed(lists) == {Block(0, top)};
    assert Listed(lists) + {} + {} == {Block(0, top)};
    OneTile(top);
  }

  // ---------------------------------------------------------------- maximal free blocks

  ghost predicate FreePage(lists: Lists, p: nat) {
    Covered(Listed(lists), p)
  }

  ghost predicate WhollyFree(lists: Lists, b: Block) {
    forall p: nat | b.Has(p) :: FreePage(lists, p)
  }

  /** A page is free exactly if no allocated block holds it. */
  lemma FreeOrAllocated(lists: Lists, alloc: set<Block>, p: nat)
    requires Sound(lists, alloc) && p < Pow2(|lists| - 1)
    ensures FreePage(lists, p) <==> !Covered(alloc, p)
  {
    OneOrOther(|lists| - 1, Listed(lists), alloc, p);
  }

  lemma OneOrOther(top: nat, free: set<Block>, alloc: set<Block>, p: nat)
    requires Tiled(top, free, {}, alloc) && p < Pow2(top)
    ensures Covered(free, p) <==> !Covered(alloc, p)
  {
    assert free + {} + alloc == free + alloc;
    assert Covered(free + alloc, p);
    var b :| b in free + alloc && b.Has(p);
    if b in alloc {
      NotBoth(top, free + alloc, free, b, p);
    } else {
      NotBoth(top, free + alloc, alloc, b, p);
    }
  }

  /** The tile over `p` being `b`, a part of the tiling without `b` does not cover `p`. */
  lemma NotBoth(top: nat, t: set<Block>, part: set<Block>, b: Block, p: nat)
    requires Tiling(top, t) && b in t && b.Has(p) && part <= t && b !in part
    ensures !Covered(part, p)
  {
    forall c | c in part ensures !c.Has(p) {
      if c.Has(p) { SameTile(top, t, b, c, p); }
    }
  }

  /** Two free buddies would have been merged, so a wholly free aligned block lies inside
      a single free block. */
  lemma {:induction false} FreeRunIsCovered(lists: Lists, alloc: set<Block>, b: Block) returns (c: Block)
    requires Sound(lists, alloc) && Proper(|lists| - 1, b) && WhollyFree(lists, b)
    ensures c in Listed(lists) && c.order >= b.order && Inside(b, c)
    decreases b.order
  {
    var top := |lists| - 1;
    if b.order == 0 {
      assert b.Has(b.addr) && FreePage(lists, b.addr);
      c :| c in Listed(lists) && c.Has(b.addr);
      assert Proper(top, c);
      Nest(b, c, b.addr);
    } else {
      var lo, hi := LowHalf(b), HighHalf(b);
      HalvesProper(top, b);
      c := FreeRunIsCovered(lists, alloc, lo);
      var d := FreeRunIsCovered(lists, alloc, hi);
      assert Proper(top, c) && Proper(top, d);
      if c.order >= b.order {
        Nest(b, c, b.addr);
      } else if d.order >= b.order {
        Nest(b, d, hi.addr);
        c := d;
      } else {
        Nest(lo, c, lo.addr);
        Nest(hi, d, hi.addr);
        TwinsMerge(top, Listed(lists), b);
      }
    }
  }

  /** The two halves of a block are never both free. */
  lemma TwinsMerge(top: nat, free: set<Block>, b: Block)
    requires NoTwins(top, free) && 0 < b.order <= top && Aligned(b.addr, b.order)
    ensures LowHalf(b) !in free || HighHalf(b) !in free
  {
    Halves(b.addr, b.order - 1);
    assert HasTwin(free, LowHalf(b)) == (HighHalf(b) in free);
  }

  /** Allocation fails exactly when no aligned run of that size is wholly free. */
  lemma AllocFailsExactly(lists: Lists, alloc: set<Block>, k: nat)
    requires Sound(lists, alloc)
    ensures Alloc(lists, k).1.None? <==> !exists b: Block :: b.order == k && Proper(|lists| - 1, b) && WhollyFree(lists, b)
  {
    AllocSound(lists, k, alloc);
    var r := Alloc(lists, k).1;
    if r.Some? {
      var b := Block(r.value, k);
      var c :| c in Listed(lists) && Inside(b, c);
      forall p: nat | b.Has(p) ensures FreePage(lists, p) { assert c.Has(p); }
      assert b.order == k && Proper(|lists| - 1, b) && WhollyFree(lists, b);
    } else {
      forall b: Block | b.order == k && Proper(|lists| - 1, b) ensures !WhollyFree(lists, b) {
        if WhollyFree(lists, b) {
          var c := FreeRunIsCovered(lists, alloc, b);
          ListedAre(lists, c);
        }
      }
    }
  }

  /** The free lists, as sets, hold exactly the maximal wholly free blocks. */
  lemma ListedAreMaximal(lists: Lists, alloc: set<Block>, b: Block)
    requires Sound(lists, alloc) && Proper(|lists| - 1, b)
    ensures b in Listed(lists) <==>
            WhollyFree(lists, b)
            && forall c | Proper(|lists| - 1, c) && WhollyFree(lists, c) && Inside(b, c) :: c == b
  {
    var t := Listed(lists) + {} + alloc;
    if b in Listed(lists) {
      forall p: nat | b.Has(p) ensures FreePage(lists, p) { assert b.Has(p); }
      forall c | Proper(|lists| - 1, c) && WhollyFree(lists, c) && Inside(b, c) ensures c == b {
        var d := FreeRunIsCovered(lists, alloc, c);
        assert b in t && d in t && b.Has(b.addr) && d.Has(b.addr);
        SameTile(|lists| - 1, t, b, d, b.addr);
        InsideBoth(b, c);
      }
    }
    if WhollyFree(lists, b) && forall c | Proper(|lists| - 1, c) && WhollyFree(lists, c) && Inside(b, c) :: c == b {
      var d := FreeRunIsCovered(lists, alloc, b);
      assert d in t;
      forall p: nat | d.Has(p) ensures FreePage(lists, p) { assert d.Has(p); }
    }
  }

  lemma InsideBoth(b: Block, c: Block)
    requires Inside(b, c) && Inside(c, b)
    ensures b == c
  {
    if b.order < c.order {
      Pow2Strict(b.order, c.order);
    } else if c.order < b.order {
      Pow2Strict(c.order, b.order);
    }
  }

  lemma Pow2Strict(k: nat, j: nat)
    requires k < j
    ensures Pow2(k) < Pow2(j)
  {
    Pow2Grows(k + 1, j);
  }

  /** The free lists are determined, as sets, by which pages are free. */
  lemma FreePagesDecide(lists: Lists, alloc: set<Block>, lists': Lists, alloc': set<Block>)
    requires Sound(lists, alloc) && Sound(lists', alloc') && |lists| == |lists'|
    requires forall p: nat | p < Pow2(|lists| - 1) :: FreePage(lists, p) <==> FreePage(lists', p)
    ensures Listed(lists) == Listed(lists')
  {
    var top := |lists| - 1;
    forall b | Proper(top, b) ensures WhollyFree(lists, b) <==> WhollyFree(lists', b) {
      forall p: nat | b.Has(p) ensures FreePage(lists, p) <==> FreePage(lists', p) {}
    }
    forall b ensures b in Listed(lists) <==> b in Listed(lists') {
      if b in Listed(lists) { assert b in Listed(lists) + {} + alloc; }
      if b in Listed(lists') { assert b in Listed(lists') + {} + alloc'; }
      if Proper(top, b) {
        ListedAreMaximal(lists, alloc, b);
        ListedAreMaximal(lists', alloc', b);
      }
    }
  }

  // ---------------------------------------------------------------- whole runs

  datatype Op = Take(order: nat) | Give(block: Block)

  /** `lists` and `alloc` after a run of the pool of order `top`; giving back what is not
      allocated is not a move. */
  ghost function RunState(top: nat, ops: seq<Op>): (Lists, set<Block>) {
    if ops == [] then (Seeded(top), {})
    else
      var (lists, alloc) := RunState(top, ops[..|ops| - 1]);
      match ops[|ops| - 1]
      case Take(k) =>
        var (lists', r) := Alloc(lists, k);
        (lists', if r.Some? then alloc + {Block(r.value, k)} else alloc)
      case Give(b) =>
        if b in alloc && Aligned(b.addr, b.order) then (Free(lists, b.addr, b.order), alloc - {b}) else (lists, alloc)
  }

  lemma {:induction false} RunSound(top: nat, ops: seq<Op>)
    ensures var (lists, alloc) := RunState(top, ops);
            |lists| == top + 1 && Sound(lists, alloc)
  {
    if ops == [] {
      InitSound(top);
    } else {
      RunSound(top, ops[..|ops| - 1]);
      var (lists, alloc) := RunState(top, ops[..|ops| - 1]);
      match ops[|ops| - 1] {
        case Take(k) => AllocSound(lists, k, alloc);
        case Give(b) => if b in alloc { FreeSound(lists, b, alloc); }
      }
    }
  }

  /** However a run got there, with everything given back the pool is one block again. */
  lemma AllFreedIsInit(top: nat, ops: seq<Op>)
    requires RunState(top, ops).1 == {}
    ensures RunState(top, ops).0 == Seeded(top)
  {
    var lists := RunState(top, ops).0;
    RunSound(top, ops);
    InitSound(top);
    forall p: nat | p < Pow2(top) ensures FreePage(lists, p) <==> FreePage(Seeded(top), p) {
      FreeOrAllocated(lists, {}, p);
      FreeOrAllocated(Seeded(top), {}, p);
    }
    FreePagesDecide(lists, {}, Seeded(top), {});
    forall k | 0 <= k < |lists| ensures lists[k] == Seeded(top)[k] {
      OnlyTop(lists, top, k);
    }
  }

  lemma OnlyTop(lists: Lists, top: nat, k: nat)
    requires |lists| == top + 1 && k <= top && Listed(lists) == {Block(0, top)} && Distinct(lists[k])
    ensures lists[k] == if k == top then [0] else []
  {
    forall a | a in lists[k] ensures a == 0 && k == top { InListed(lists, k, a); }
    if k == top {
      InListed(lists, top, 0);
      OneElement(lists[k], 0);
    } else {
      NonEmptyHas(lists[k]);
    }
  }

  /** Two runs that leave the same blocks allocated leave the same free lists, as sets. */
  lemma HistoryIsForgotten(top: nat, ops: seq<Op>, ops': seq<Op>)
    requires RunState(top, ops).1 == RunState(top, ops').1
    ensures Listed(RunState(top, ops).0) == Listed(RunState(top, ops').0)
  {
    var (lists, alloc) := RunState(top, ops);
    var lists' := RunState(top, ops').0;
    RunSound(top, ops);
    RunSound(top, ops');
    forall p: nat | p < Pow2(top) ensures FreePage(lists, p) <==> FreePage(lists', p) {
      FreeOrAllocated(lists, alloc, p);
      FreeOrAllocated(lists', alloc, p);
    }
    FreePagesDecide(lists, alloc, lists', alloc);
  }
}
