/** The allocator itself: list heads per order and links threaded through the free pages
    themselves, relinked in place by split and coalesce. */
module BuddyPool {
  import opened Composition
  import opened Sequences
  import opened BuddyBlocks
  import opened BuddyLists

  /** What follows position `i`. */
  ghost function After(s: seq<nat>, i: int): Option<nat>
    requires -1 <= i
  {
    if i + 1 < |s| then Some(s[i + 1]) else None
  }

  /** Following `next` from `head` spells `s`. */
  ghost predicate Linked(head: Option<nat>, next: seq<Option<nat>>, s: seq<nat>) {
    && head == After(s, -1)
    && (forall i | 0 <= i < |s| :: s[i] < |next|)
    && forall i {:trigger next[s[i]]} | 0 <= i < |s| :: next[s[i]] == After(s, i)
  }

  /** No page is on two lists, nor twice on one. */
  ghost predicate Separate(lists: Lists) {
    && (forall k | 0 <= k < |lists| :: Distinct(lists[k]))
    && forall j, k, x | 0 <= j < |lists| && 0 <= k < |lists| && x in lists[j] && x in lists[k] :: j == k
  }

  ghost predicate Threaded(heads: seq<Option<nat>>, next: seq<Option<nat>>, lists: Lists) {
    && |heads| == |lists| && Separate(lists)
    && forall k | 0 <= k < |lists| :: Linked(heads[k], next, lists[k])
  }

  ghost predicate Absent(lists: Lists, p: nat) {
    forall k | 0 <= k < |lists| :: p !in lists[k]
  }

  /** Writing the link of a page that is on no list disturbs no list. */
  lemma LinkedFrame(head: Option<nat>, next: seq<Option<nat>>, s: seq<nat>, p: nat, v: Option<nat>)
    requires Linked(head, next, s) && p < |next| && p !in s
    ensures Linked(head, next[p := v], s)
  {
    assert forall i | 0 <= i < |s| :: s[i] in s;
  }

  lemma PushThreads(heads: seq<Option<nat>>, next: seq<Option<nat>>, lists: Lists, k: nat, p: nat)
    requires Threaded(heads, next, lists) && k < |lists| && p < |next| && Absent(lists, p)
    ensures Threaded(heads[k := Some(p)], next[p := heads[k]], Push(lists, k, p))
  {
    var lists' := Push(lists, k, p);
    forall j | 0 <= j < |lists'| ensures Linked(heads[k := Some(p)][j], next[p := heads[k]], lists'[j]) && Distinct(lists'[j]) {
      LinkedFrame(heads[j], next, lists[j], p, heads[k]);
    }
  }

  /** Unlinking position `i` of list `k` by writing the one link that leads to it. */
  lemma UnlinkHead(heads: seq<Option<nat>>, next: seq<Option<nat>>, lists: Lists, k: nat)
    requires Threaded(heads, next, lists) && k < |lists| && lists[k] != []
    ensures lists[k][0] < |next|
    ensures Threaded(heads[k := next[lists[k][0]]], next, lists[k := lists[k][1..]])
  {
    var s := lists[k];
    assert s == [s[0]] + s[1..];
    assert Linked(heads[k], next, s);
    var rest := s[1..];
    forall i | 0 <= i < |rest|
      ensures rest[i] < |next| && next[rest[i]] == After(rest, i)
    {
      assert rest[i] == s[i + 1];
    }
  }

  lemma UnlinkedAt(next: seq<Option<nat>>, s: seq<nat>, i: nat, j: nat)
    requires Distinct(s) && 0 < i < |s| && j < |s| - 1
    requires forall k | 0 <= k < |s| :: s[k] < |next| && next[s[k]] == After(s, k)
    ensures var s', next' := s[..i] + s[i + 1..], next[s[i - 1] := next[s[i]]];
            s'[j] < |next'| && next'[s'[j]] == After(s', j)
  {
    var s' := s[..i] + s[i + 1..];
    if j < i {
      assert s'[j] == s[j];
    } else {
      assert s'[j] == s[j + 1] && s[j + 1] != s[i - 1];
    }
  }

  lemma UnlinkedChain(head: Option<nat>, next: seq<Option<nat>>, s: seq<nat>, i: nat)
    requires Linked(head, next, s) && Distinct(s) && 0 < i < |s|
    ensures Linked(head, next[s[i - 1] := next[s[i]]], s[..i] + s[i + 1..])
  {
    var s', next' := s[..i] + s[i + 1..], next[s[i - 1] := next[s[i]]];
    forall j | 0 <= j < |s'| ensures s'[j] < |next'| && next'[s'[j]] == After(s', j) {
      UnlinkedAt(next, s, i, j);
    }
  }

  lemma SeparateWithout(lists: Lists, k: nat, i: nat)
    requires Separate(lists) && k < |lists| && i < |lists[k]|
    ensures Separate(lists[k := lists[k][..i] + lists[k][i + 1..]])
  {
    var s := lists[k];
    var s' := s[..i] + s[i + 1..];
    assert forall x :: x in s' ==> x in s;
    assert Distinct(s');
  }

  lemma UnlinkInside(heads: seq<Option<nat>>, next: seq<Option<nat>>, lists: Lists, k: nat, i: nat)
    requires Threaded(heads, next, lists) && k < |lists| && 0 < i < |lists[k]|
    ensures lists[k][i] < |next| && lists[k][i - 1] < |next|
    ensures Threaded(heads, next[lists[k][i - 1] := next[lists[k][i]]], lists[k := lists[k][..i] + lists[k][i + 1..]])
  {
    var s := lists[k];
    assert Linked(heads[k], next, s);
    UnlinkedChain(heads[k], next, s, i);
    SeparateWithout(lists, k, i);
    forall j | 0 <= j < |lists| && j != k ensures Linked(heads[j], next[s[i - 1] := next[s[i]]], lists[j]) {
      assert s[i - 1] in s;
      LinkedFrame(heads[j], next, lists[j], s[i - 1], next[s[i]]);
    }
  }

  lemma TileAt(top: nat, t: set<Block>, b: Block, p: nat, k: nat)
    requires Tiling(top, t) && b in t && b.Has(p)
    ensures Block(p, k) in t ==> Block(p, k) == b
  {
    if Block(p, k) in t {
      assert Block(p, k).Has(p);
      SameTile(top, t, b, Block(p, k), p);
    }
  }

  /** A page of the held block starts no free block. */
  lemma HeldIsAbsent(lists: Lists, b: Block, alloc: set<Block>, p: nat)
    requires Pool(lists, {b}, alloc) && b.Has(p)
    ensures Absent(lists, p) && p < Pow2(|lists| - 1)
  {
    var t := Listed(lists) + {b} + alloc;
    assert Proper(|lists| - 1, b);
    forall k | 0 <= k < |lists| ensures p !in lists[k] {
      InListed(lists, k, p);
      TileAt(|lists| - 1, t, b, p, k);
    }
  }

  lemma SplitNothing(lists: Lists, a: nat, k: nat)
    requires k <= |lists|
    ensures SplitDown(lists, a, k, k) == lists
  {
  }

  class Allocator {
    const top: nat
    const heads: array<Option<nat>>
    const next: array<Option<nat>>
    ghost var lists: Lists
    ghost var alloc: set<Block>

    ghost predicate Shaped()
      reads this, heads, next
    {
      && heads.Length == top + 1 && next.Length == Pow2(top) && heads != next
      && |lists| == top + 1 && Threaded(heads[..], next[..], lists)
    }

    ghost predicate Valid()
      reads this, heads, next
    {
      Shaped() && Sound(lists, alloc)
    }

    constructor (order: nat)
      ensures top == order && Valid() && fresh(heads) && fresh(next)
      ensures lists == Seeded(order) && alloc == {}
    {
      top := order;
      heads := new Option<nat>[order + 1](_ => None);
      next := new Option<nat>[Pow2(order)](_ => None);
      lists := seq(order + 1, _ => []);
      alloc := {};
      new;
      assert forall k | 0 <= k < |lists| :: lists[k] == [];
      assert Threaded(heads[..], next[..], lists);
      PushNode(order, 0);
      assert forall k | 0 <= k <= order :: lists[k] == Seeded(order)[k];
      assert lists == Seeded(order);
      InitSound(order);
    }

    method PushNode(k: nat, p: nat)
      requires Shaped() && k <= top && p < Pow2(top) && Absent(lists, p)
      modifies this`lists, heads, next
      ensures Shaped() && lists == Push(old(lists), k, p)
    {
      PushThreads(heads[..], next[..], lists, k, p);
      ghost var h, n := heads[..][k := Some(p)], next[..][p := heads[k]];
      next[p] := heads[k];
      heads[k] := Some(p);
      assert heads[..] == h && next[..] == n;
      lists := Push(lists, k, p);
    }

    method PopNode(k: nat) returns (p: nat)
      requires Shaped() && k <= top && heads[k].Some?
      modifies this`lists, heads
      ensures Shaped() && old(lists)[k] != [] && p == old(lists)[k][0] && lists == old(lists)[k := old(lists)[k][1..]]
    {
      assert heads[..][k] == heads[k] && Linked(heads[..][k], next[..], lists[k]);
      p := heads[k].value;
      UnlinkHead(heads[..], next[..], lists, k);
      ghost var h := heads[..][k := next[p]];
      heads[k] := next[p];
      assert heads[..] == h;
      lists := lists[k := lists[k][1..]];
    }

    /** Walk list `k` for `target` and unlink it. */
    method RemoveNode(k: nat, target: nat) returns (found: bool)
      requires Shaped() && k <= top
      modifies this`lists, heads, next
      ensures Shaped() && found == (target in old(lists)[k])
      ensures lists == if found then old(lists)[k := Without(old(lists)[k], target)] else old(lists)
    {
      ghost var s := lists[k];
      ghost var i := 0;
      var prev: Option<nat> := None;
      var cur := heads[k];
      assert heads[..][k] == heads[k] && Linked(heads[..][k], next[..], s);
      while cur.Some? && cur.value != target
        invariant 0 <= i <= |s| && target !in s[..i]
        invariant cur == if i < |s| then Some(s[i]) else None
        invariant prev == if i > 0 then Some(s[i - 1]) else None
        decreases |s| - i
      {
        assert s[..i + 1] == s[..i] + [s[i]];
        assert next[..][s[i]] == After(s, i);
        prev := cur;
        cur := next[cur.value];
        i := i + 1;
      }
      if cur.None? {
        assert s[..i] == s;
        return false;
      }
      WithoutAt(s, s[i], i);
      if prev.None? {
        UnlinkHead(heads[..], next[..], lists, k);
        ghost var h := heads[..][k := next[target]];
        heads[k] := next[target];
        assert heads[..] == h && s[..0] + s[1..] == s[1..];
      } else {
        UnlinkInside(heads[..], next[..], lists, k, i);
        ghost var n := next[..][prev.value := next[target]];
        next[prev.value] := next[target];
        assert next[..] == n;
      }
      lists := lists[k := Without(s, target)];
      found := true;
    }

    /** Smallest order from `order` up whose list is not empty. */
    method FindFit(order: nat) returns (found: nat)
      requires Shaped() && order <= top
      ensures found == FirstFit(lists, order)
    {
      found := order;
      while found <= top && heads[found].None?
        invariant order <= found <= top + 1
        invariant forall j | order <= j < found :: lists[j] == []
      {
        assert Linked(heads[..][found], next[..], lists[found]);
        found := found + 1;
      }
      if found <= top {
        assert Linked(heads[..][found], next[..], lists[found]);
      }
    }

    /** `block`, of order `k`, is in the allocator's hands. */
    ghost predicate Holding(block: nat, k: nat)
      reads this, heads, next
    {
      Shaped() && Pool(lists, {Block(block, k)}, alloc)
    }

    method SplitOnce(block: nat, found: nat, ghost order: nat)
      requires Holding(block, found) && order < found <= top
      modifies this`lists, heads, next
      ensures Holding(block, found - 1)
      ensures SplitDown(lists, block, found - 1, order) == SplitDown(old(lists), block, found, order)
    {
      assert Block(block, found).Has(block + Pow2(found - 1));
      HeldIsAbsent(lists, Block(block, found), alloc, block + Pow2(found - 1));
      SplitStep(lists, block, found, alloc);
      PushNode(found - 1, block + Pow2(found - 1));
    }

    /** Descend on the lower half, putting each upper half back on a list. */
    method SplitBlock(block: nat, from: nat, order: nat)
      requires Holding(block, from) && order <= from <= top
      modifies this`lists, heads, next
      ensures Holding(block, order) && lists == SplitDown(old(lists), block, from, order)
    {
      hide Pool, Threaded, SplitDown;
      SplitNothing(lists, block, order);
      var found := from;
      while found > order
        invariant order <= found <= from && Holding(block, found)
        invariant SplitDown(lists, block, found, order) == SplitDown(old(lists), block, from, order)
      {
        SplitOnce(block, found, order);
        found := found - 1;
      }
      SplitNothing(lists, block, order);
    }

    method AllocPages(order: nat) returns (r: Option<nat>)
      requires Valid()
      modifies this`lists, this`alloc, heads, next
      ensures Valid() && (lists, r) == Alloc(old(lists), order)
      ensures alloc == if r.Some? then old(alloc) + {Block(r.value, order)} else old(alloc)
    {
      if order > top { return None; }
      var found := FindFit(order);
      if found > top { return None; }
      assert Linked(heads[..][found], next[..], lists[found]);
      ghost var was := lists;
      var block := PopNode(found);
      PopHolds(was, found, alloc);
      SplitBlock(block, found, order);
      HandOut(lists, Block(block, order), alloc);
      alloc := alloc + {Block(block, order)};
      r := Some(block);
    }

    /** Take the buddy of the held block off its list, if it is there, and hold both. */
    method MergeOnce(a: nat, k: nat) returns (merged: bool, low: nat)
      requires k < top && Aligned(a, k) && Holding(a, k)
      modifies this`lists, heads, next
      ensures merged ==> Aligned(low, k + 1) && Holding(low, k + 1) && Coalesce(lists, low, k + 1) == Coalesce(old(lists), a, k)
      ensures !merged ==> Holding(a, k) && lists == old(lists) && Buddy(a, k) !in lists[k]
    {
      var b := Buddy(a, k);
      low := if b < a then b else a;
      if b in lists[k] { MergeStep(lists, a, k, alloc); }
      merged := RemoveNode(k, b);
    }

    /** Merge upwards while the buddy is free; the block to push and its order. */
    method MergeUp(addr: nat, order: nat) returns (a: nat, k: nat)
      requires order <= top && Aligned(addr, order) && Holding(addr, order)
      modifies this`lists, heads, next
      ensures k <= top && Aligned(a, k) && Holding(a, k)
      ensures k < top ==> Buddy(a, k) !in lists[k]
      ensures Coalesce(lists, a, k) == Coalesce(old(lists), addr, order)
    {
      hide Pool, Threaded, Coalesce, Buddy, Aligned;
      a, k := addr, order;
      var merged := true;
      while k < top && merged
        invariant order <= k <= top && Aligned(a, k) && Holding(a, k)
        invariant !merged ==> k < top && Buddy(a, k) !in lists[k]
        invariant Coalesce(lists, a, k) == Coalesce(old(lists), addr, order)
        decreases top - k, merged
      {
        var low;
        merged, low := MergeOnce(a, k);
        if merged {
          a, k := low, k + 1;
        }
      }
    }

    method PushBack(k: nat, a: nat)
      requires k <= top && Aligned(a, k) && Holding(a, k)
      requires k < top ==> Buddy(a, k) !in lists[k]
      modifies this`lists, heads, next
      ensures Valid() && lists == Coalesce(old(lists), a, k)
    {
      PushLast(lists, a, k, alloc);
      HeldIsAbsent(lists, Block(a, k), alloc, a);
      PushNode(k, a);
    }

    /** Give back a block the allocator handed out. */
    method FreePages(addr: nat, order: nat)
      requires Valid() && Block(addr, order) in alloc
      modifies this`lists, this`alloc, heads, next
      ensures Valid() && alloc == old(alloc) - {Block(addr, order)}
      ensures Aligned(addr, order) && lists == Free(old(lists), addr, order)
    {
      TakeBack(lists, Block(addr, order), alloc);
      alloc := alloc - {Block(addr, order)};
      var a, k := MergeUp(addr, order);
      PushBack(k, a);
    }
  }
}
