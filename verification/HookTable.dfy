/** The hook chains as they are laid out: list heads per point, `_next` links threaded
    through the hooks, `_dead` marks and a count of dispatches in progress.  Callbacks are
    scripts that may register, unregister and dispatch again to any depth; whatever they
    do, the table goes through the steps of `Hooks` and keeps its invariant. */
module HookTable {
  import opened Composition
  import opened Sequences
  import opened Hooks
  import opened HookRuns

  type Links = map<HookId, Option<HookId>>

  // ---------------------------------------------------------------- links

  function LinkOf(next: Links, h: HookId): Option<HookId> {
    if h in next then next[h] else None
  }

  /** Following the links from `head` spells `s`. */
  ghost predicate Linked(head: Option<HookId>, next: Links, s: seq<HookId>) {
    && head == Head(s)
    && forall i {:trigger s[i]} | 0 <= i < |s| :: LinkOf(next, s[i]) == Head(s[i + 1..])
  }

  /** The place a link is stored: a list head, or the `_next` of a hook. */
  function HeadWith(head: Option<HookId>, prev: Option<HookId>, v: Option<HookId>): Option<HookId> {
    if prev.None? then v else head
  }

  function NextWith(next: Links, prev: Option<HookId>, v: Option<HookId>): Links {
    if prev.None? then next else next[prev.value := v]
  }

  function Last(s: seq<HookId>): Option<HookId> {
    if s == [] then None else Some(s[|s| - 1])
  }

  /** A chain whose own links are not written is not disturbed. */
  lemma LinkedFrame(head: Option<HookId>, next: Links, next': Links, s: seq<HookId>)
    requires Linked(head, next, s) && forall x | x in s :: LinkOf(next', x) == LinkOf(next, x)
    ensures Linked(head, next', s)
  {
    hide Head, LinkOf;
    forall i | 0 <= i < |s| ensures LinkOf(next', s[i]) == Head(s[i + 1..]) {
      assert s[i] in s;
    }
  }

  /** What the link behind position `i` holds. */
  lemma LinkedAt(head: Option<HookId>, next: Links, s: seq<HookId>, i: nat)
    requires Linked(head, next, s) && i <= |s|
    ensures (if i == 0 then head else LinkOf(next, s[i - 1])) == Head(s[i..])
  {
    if i == 0 {
      assert s[0..] == s;
    } else {
      assert LinkOf(next, s[i - 1]) == Head(s[i - 1 + 1..]);
    }
  }

  lemma InsertLinkedAt(head: Option<HookId>, next: Links, s: seq<HookId>, i: nat, h: HookId, j: nat)
    requires Linked(head, next, s) && Distinct(s) && i <= |s| && h !in s && j <= |s|
    ensures var prev := Last(s[..i]);
            LinkOf(NextWith(next[h := Head(s[i..])], prev, Some(h)), Insert(s, i, h)[j]) == Head(Insert(s, i, h)[j + 1..])
  {
    var longer := Insert(s, i, h);
    if j < i {
      assert longer[j] == s[j] && s[j] in s;
      assert LinkOf(next, s[j]) == Head(s[j + 1..]);
      HeadIs(longer, j + 1);
      HeadIs(s, j + 1);
      assert j < i - 1 ==> s[j] != s[i - 1];
    } else if j == i {
      assert longer[j] == h && longer[i + 1..] == s[i..];
      assert i > 0 ==> s[i - 1] in s;
    } else {
      assert longer[j] == s[j - 1] && s[j - 1] in s && longer[j + 1..] == s[j..];
      assert i > 0 ==> s[j - 1] != s[i - 1];
      assert LinkOf(next, s[j - 1]) == Head(s[j - 1 + 1..]);
    }
  }

  lemma InsertLinked(head: Option<HookId>, next: Links, s: seq<HookId>, i: nat, h: HookId)
    requires Linked(head, next, s) && Distinct(s) && i <= |s| && h !in s
    ensures var prev := Last(s[..i]);
            var own := next[h := Head(s[i..])];
            Linked(HeadWith(head, prev, Some(h)), NextWith(own, prev, Some(h)), Insert(s, i, h))
  {
    var prev, longer := Last(s[..i]), Insert(s, i, h);
    var next' := NextWith(next[h := Head(s[i..])], prev, Some(h));
    forall j | 0 <= j < |longer| ensures LinkOf(next', longer[j]) == Head(longer[j + 1..]) {
      InsertLinkedAt(head, next, s, i, h, j);
    }
  }

  lemma UnlinkLinked(head: Option<HookId>, next: Links, s: seq<HookId>, i: nat)
    requires Linked(head, next, s) && Distinct(s) && i < |s|
    ensures var prev := Last(s[..i]);
            var v := LinkOf(next, s[i]);
            Linked(HeadWith(head, prev, v), NextWith(next, prev, v)[s[i] := None], s[..i] + s[i + 1..])
  {
    var prev, v, less := Last(s[..i]), LinkOf(next, s[i]), s[..i] + s[i + 1..];
    assert v == Head(s[i + 1..]);
    var next' := NextWith(next, prev, v)[s[i] := None];
    forall j | 0 <= j < |less| ensures LinkOf(next', less[j]) == Head(less[j + 1..]) {
      var j0 := if j < i then j else j + 1;
      assert less[j] == s[j0] && s[j0] != s[i] && LinkOf(next, s[j0]) == Head(s[j0 + 1..]);
      if j < i - 1 {
        assert s[j] != s[i - 1] && less[j + 1] == s[j + 1];
      } else if j == i - 1 {
        assert less[j + 1..] == s[i + 1..];
      } else {
        assert less[j + 1..] == s[j0 + 1..];
        assert prev.Some? ==> prev.value == s[i - 1] && s[j0] != s[i - 1];
      }
    }
    if i == 0 { assert less == s[1..]; }
  }

  /** Every list head spells its chain. */
  ghost predicate Threads(heads: seq<Option<HookId>>, next: Links, c: State) {
    forall p {:trigger heads[p]} | 0 <= p < |heads| :: Linked(heads[p], next, c.Chain(p))
  }

  lemma ChainFacts(st: State, p: Point)
    requires Inv(st)
    ensures Distinct(st.Chain(p)) && ChainOk(st, p)
    ensures forall h | h in st.Chain(p) :: h in st.hooks && st.hooks[h].point == p
  {
    hide FramesOk, Sorted;
    assert ChainOk(st, p);
    SortedDistinct(st, st.Chain(p));
  }

  lemma PrevIn(chain: seq<HookId>, i: nat)
    requires i <= |chain|
    ensures Last(chain[..i]).Some? ==> Last(chain[..i]).value in chain
  {
  }

  /** Writing links of hooks of point `p` only leaves every other chain as it was. */
  lemma RelinkedOthers(heads: seq<Option<HookId>>, next: Links, next': Links, st: State, p: Point, q: Point)
    requires Inv(st) && Threads(heads, next, st) && q < |heads| && q != p
    requires forall x | x in st.hooks && st.hooks[x].point != p :: LinkOf(next', x) == LinkOf(next, x)
    ensures Linked(heads[q], next', st.Chain(q))
  {
    ChainFacts(st, q);
    hide Inv, LinkOf, Linked;
    assert Linked(heads[q], next, st.Chain(q));
    LinkedFrame(heads[q], next, next', st.Chain(q));
  }

  /** `prev` and `cur` are the neighbours a hook of priority `prio` gets on chain `p`. */
  ghost predicate Between(st: State, p: Point, prio: int, prev: Option<HookId>, cur: Option<HookId>) {
    var chain := st.Chain(p);
    var i := Slot(st, chain, prio);
    prev == Last(chain[..i]) && cur == Head(chain[i..])
  }

  /** The three writes of an insertion thread the chain with the new hook in it. */
  lemma RegisterThreads(heads: seq<Option<HookId>>, next: Links, st: State, h: HookId, p: Point, prev: Option<HookId>, cur: Option<HookId>)
    requires Inv(st) && Threads(heads, next, st) && h in st.hooks && p == st.hooks[h].point < |heads|
    requires h !in st.Chain(p) && Between(st, p, st.hooks[h].priority, prev, cur)
    ensures Threads(heads[p := HeadWith(heads[p], prev, Some(h))], NextWith(next[h := cur], prev, Some(h)), Hooks.Register(st, h).0)
  {
    hide Inv, Slot, Insert, Linked, Head, Last;
    var chain := st.Chain(p);
    var i := Slot(st, chain, st.hooks[h].priority);
    var heads', next' := heads[p := HeadWith(heads[p], prev, Some(h))], NextWith(next[h := cur], prev, Some(h));
    var st' := Hooks.Register(st, h).0;
    ChainFacts(st, p);
    assert Linked(heads[p], next, chain);
    InsertLinked(heads[p], next, chain, i, h);
    PrevIn(chain, i);
    forall q | 0 <= q < |heads| ensures Linked(heads'[q], next', st'.Chain(q)) {
      if q != p { RelinkedOthers(heads, next, next', st, p, q); }
    }
  }

  /** What registration does besides threading. */
  lemma RegisterIs(st: State, h: HookId)
    ensures var (st', rc) := Hooks.Register(st, h);
            && st'.hooks == st.hooks && st'.frames == st.frames
            && (h !in st.hooks ==> st' == st && rc == EINVAL)
            && (h in st.hooks && h in st.Chain(st.hooks[h].point) ==> st' == st && rc == EEXIST)
            && (h in st.hooks && h !in st.Chain(st.hooks[h].point) ==> st'.dead == st.dead - {h} && rc == OK)
  {
    hide Slot, Insert;
  }

  /** Unlinking by the one link that leads to the hook. */
  lemma UnlinkThreads(heads: seq<Option<HookId>>, next: Links, st: State, h: HookId, i: nat)
    requires Inv(st) && Threads(heads, next, st) && h in st.hooks && st.hooks[h].point < |heads| && st.frames == []
    requires var chain := st.Chain(st.hooks[h].point);
             i < |chain| && chain[i] == h
    ensures var p := st.hooks[h].point;
            var prev, v := Last(st.Chain(p)[..i]), LinkOf(next, h);
            Threads(heads[p := HeadWith(heads[p], prev, v)], NextWith(next, prev, v)[h := None], Unregister(st, h))
  {
    hide Inv, Without, Linked, Head, Last;
    var p := st.hooks[h].point;
    var chain := st.Chain(p);
    var prev, v := Last(chain[..i]), LinkOf(next, h);
    var heads', next' := heads[p := HeadWith(heads[p], prev, v)], NextWith(next, prev, v)[h := None];
    var st' := Unregister(st, h);
    ChainFacts(st, p);
    assert Linked(heads[p], next, chain);
    UnlinkLinked(heads[p], next, chain, i);
    PrevIn(chain, i);
    var k := RemoveAt(chain, h);
    assert k == i;
    forall q | 0 <= q < |heads| ensures Linked(heads'[q], next', st'.Chain(q)) {
      if q != p { RelinkedOthers(heads, next, next', st, p, q); }
    }
  }

  // ---------------------------------------------------------------- the sweep

  /** The chain of `p` once its first `j` hooks have been looked at. */
  function Swept(st: State, p: Point, j: nat): seq<HookId>
    requires j <= |st.Chain(p)|
  {
    Alive(st.Chain(p)[..j], st.dead) + st.Chain(p)[j..]
  }

  /** Chains below `p` are swept, that of `p` up to `j`, the rest not yet. */
  ghost predicate Sweeping(heads: seq<Option<HookId>>, next: Links, st: State, p: Point, j: nat)
    requires j <= |st.Chain(p)|
  {
    forall q {:trigger heads[q]} | 0 <= q < |heads| ::
      Linked(heads[q], next, if q < p then Alive(st.Chain(q), st.dead) else if q == p then Swept(st, p, j) else st.Chain(q))
  }

  /** Hooks the sweep has been past. */
  predicate Passed(st: State, p: Point, j: nat, x: HookId)
    requires j <= |st.Chain(p)|
  {
    x in st.hooks && (st.hooks[x].point < p || (st.hooks[x].point == p && x in st.Chain(p)[..j]))
  }

  lemma {:induction false} AliveIn(chain: seq<HookId>, dead: set<HookId>)
    ensures forall x :: x in Alive(chain, dead) <==> x in chain && x !in dead
  {
    if chain != [] {
      assert chain == chain[..|chain| - 1] + [chain[|chain| - 1]];
      AliveIn(chain[..|chain| - 1], dead);
    }
  }

  lemma {:induction false} AliveDistinct(chain: seq<HookId>, dead: set<HookId>)
    requires Distinct(chain)
    ensures Distinct(Alive(chain, dead))
  {
    if chain != [] {
      var front, last := chain[..|chain| - 1], chain[|chain| - 1];
      AliveDistinct(front, dead);
      AliveIn(front, dead);
      assert last !in front;
    }
  }

  lemma SweptStep(st: State, p: Point, j: nat)
    requires Inv(st) && j < |st.Chain(p)|
    ensures var x := st.Chain(p)[j];
            var kept := Alive(st.Chain(p)[..j], st.dead);
            && Swept(st, p, j) == kept + [x] + st.Chain(p)[j + 1..] && Distinct(Swept(st, p, j))
            && Alive(st.Chain(p)[..j + 1], st.dead) == (if x in st.dead then kept else kept + [x])
  {
    ChainFacts(st, p);
    hide Inv;
    var chain := st.Chain(p);
    assert chain[..j + 1][..j] == chain[..j] && chain[j..] == [chain[j]] + chain[j + 1..];
    SweptDistinct(chain, j, st.dead);
  }

  lemma SweptDistinct(chain: seq<HookId>, j: nat, dead: set<HookId>)
    requires Distinct(chain) && j <= |chain|
    ensures Distinct(Alive(chain[..j], dead) + chain[j..])
  {
    hide Alive;
    var kept := Alive(chain[..j], dead);
    AliveIn(chain[..j], dead);
    AliveDistinct(chain[..j], dead);
    var s := kept + chain[j..];
    forall a, b | 0 <= a < b < |s| ensures s[a] != s[b] {
      if a < |kept| <= b {
        assert kept[a] in chain[..j];
      }
    }
  }

  /** The hook just looked at, in the list as it stands. */
  lemma SweptAt(st: State, p: Point, j: nat)
    requires Inv(st) && j < |st.Chain(p)|
    ensures var kept, s := Alive(st.Chain(p)[..j], st.dead), Swept(st, p, j);
            && |kept| < |s| && s[|kept|] == st.Chain(p)[j] && s[..|kept|] == kept && Distinct(s)
            && Swept(st, p, j + 1) == if s[|kept|] in st.dead then s[..|kept|] + s[|kept| + 1..] else s
  {
    hide Inv, Alive;
    SweptStep(st, p, j);
    var kept, s, x := Alive(st.Chain(p)[..j], st.dead), Swept(st, p, j), st.Chain(p)[j];
    assert s[..|kept|] == kept && s[|kept| + 1..] == st.Chain(p)[j + 1..];
  }

  /** The chain of `q` as the sweep of `p` finds it. */
  function SweptOther(st: State, p: Point, q: Point): seq<HookId> {
    if q < p then Alive(st.Chain(q), st.dead) else st.Chain(q)
  }

  lemma SweepFrame(heads: seq<Option<HookId>>, next: Links, next': Links, st: State, p: Point, j: nat, q: Point)
    requires Inv(st) && j <= |st.Chain(p)| && Sweeping(heads, next, st, p, j) && q < |heads| && q != p
    requires forall x | x in st.hooks && st.hooks[x].point != p :: LinkOf(next', x) == LinkOf(next, x)
    ensures Linked(heads[q], next', SweptOther(st, p, q))
  {
    ChainFacts(st, q);
    hide Inv, Linked, Alive, LinkOf;
    AliveIn(st.Chain(q), st.dead);
    assert Linked(heads[q], next, SweptOther(st, p, q));
    LinkedFrame(heads[q], next, next', SweptOther(st, p, q));
  }

  lemma SweepUnlink(heads: seq<Option<HookId>>, next: Links, st: State, p: Point, j: nat)
    requires Inv(st) && p < |heads| && j < |st.Chain(p)| && Sweeping(heads, next, st, p, j) && st.Chain(p)[j] in st.dead
    ensures var x := st.Chain(p)[j];
            var prev, v := Last(Alive(st.Chain(p)[..j], st.dead)), LinkOf(next, x);
            Sweeping(heads[p := HeadWith(heads[p], prev, v)], NextWith(next, prev, v)[x := None], st, p, j + 1)
  {
    hide Inv, Linked, Head, Last, Alive, Swept;
    SweptAt(st, p, j);
    ChainFacts(st, p);
    var x, s, i := st.Chain(p)[j], Swept(st, p, j), |Alive(st.Chain(p)[..j], st.dead)|;
    var prev, v := Last(s[..i]), LinkOf(next, x);
    var heads', next' := heads[p := HeadWith(heads[p], prev, v)], NextWith(next, prev, v)[x := None];
    assert Linked(heads[p], next, s);
    UnlinkLinked(heads[p], next, s, i);
    AliveIn(st.Chain(p)[..j], st.dead);
    PrevOf(Alive(st.Chain(p)[..j], st.dead));
    forall q | 0 <= q < |heads| && q != p ensures Linked(heads'[q], next', SweptOther(st, p, q)) {
      SweepFrame(heads, next, next', st, p, j, q);
    }
  }

  lemma PrevOf(s: seq<HookId>)
    ensures Last(s).Some? ==> Last(s).value in s
  {
  }

  lemma SweepKeep(heads: seq<Option<HookId>>, next: Links, st: State, p: Point, j: nat)
    requires Inv(st) && p < |heads| && j < |st.Chain(p)| && Sweeping(heads, next, st, p, j) && st.Chain(p)[j] !in st.dead
    ensures Sweeping(heads, next, st, p, j + 1)
  {
    hide Inv, Linked, Alive, Swept;
    SweptAt(st, p, j);
  }

  lemma SweepNext(heads: seq<Option<HookId>>, next: Links, st: State, p: Point)
    requires Sweeping(heads, next, st, p, |st.Chain(p)|)
    ensures Sweeping(heads, next, st, p + 1, 0)
  {
    hide Linked;
    var chain, more := st.Chain(p), st.Chain(p + 1);
    assert chain[..|chain|] == chain && chain[|chain|..] == [];
    assert more[..0] == [] && more[0..] == more;
    assert Swept(st, p + 1, 0) == more && Swept(st, p, |chain|) == Alive(chain, st.dead);
  }

  lemma SweepStart(heads: seq<Option<HookId>>, next: Links, st: State)
    requires Threads(heads, next, st)
    ensures Sweeping(heads, next, st, 0, 0)
  {
    hide Linked, Alive;
    assert st.Chain(0)[..0] == [] && st.Chain(0)[0..] == st.Chain(0);
    NoneAlive(st.dead);
    assert Swept(st, 0, 0) == st.Chain(0);
  }

  lemma SweepDone(heads: seq<Option<HookId>>, next: Links, st: State)
    requires Sweeping(heads, next, st, |heads|, 0)
    ensures Threads(heads, next, Sweep(st))
  {
    hide Linked, Alive;
    assert Alive([], st.dead) == [] by { NoneAlive(st.dead); }
  }

  lemma NoneAlive(dead: set<HookId>)
    ensures Alive([], dead) == []
  {
  }

  // ---------------------------------------------------------------- the table

  class Table {
    const hooks: map<HookId, Hook>
    const points: nat
    const heads: array<Option<HookId>>
    var next: Links
    var dead: set<HookId>
    var dispatching: nat
    ghost var st: State

    ghost predicate Threaded(c: State)
      reads this, heads
    {
      && heads.Length == points && c.hooks == hooks
      && (forall h | h in hooks :: hooks[h].point < points)
      && Threads(heads[..], next, c)
    }

    ghost predicate Valid()
      reads this, heads
    {
      Threaded(st) && Inv(st) && dead == st.dead && dispatching == |st.frames|
    }

    constructor (hooks: map<HookId, Hook>, points: nat)
      requires forall h | h in hooks :: hooks[h].point < points
      ensures Valid() && this.hooks == hooks && st.frames == [] && fresh(heads)
    {
      this.hooks, this.points := hooks, points;
      heads := new Option<HookId>[points](_ => None);
      next, dead, dispatching := map[], {}, 0;
      st := State(hooks, map[], {}, [], map[], 0);
      new;
      StartInv(hooks);
    }

    /** The walk of `nx_hook_register` and `nx_hook_unregister` over a chain. */
    method Find(p: Point, h: HookId) returns (found: bool)
      requires Threaded(st) && p < points
      ensures found <==> h in st.Chain(p)
    {
      hide Head, LinkOf;
      ghost var chain := st.Chain(p);
      ghost var i := 0;
      var n := heads[p];
      assert Linked(heads[..][p], next, chain);
      LinkedAt(heads[p], next, chain, 0);
      HeadIs(chain, 0);
      while n.Some?
        invariant i <= |chain| && n == Head(chain[i..]) && h !in chain[..i]
        invariant n.Some? ==> i < |chain| && n.value == chain[i]
        invariant n.None? ==> i == |chain|
        decreases |chain| - i
      {
        if n.value == h { return true; }
        assert chain[..i + 1] == chain[..i] + [chain[i]];
        LinkedAt(heads[p], next, chain, i + 1);
        HeadIs(chain, i + 1);
        n := LinkOf(next, n.value);
        i := i + 1;
      }
      assert chain[..i] == chain;
      found := false;
    }

    /** Store `v` in the link behind `prev` on chain `p`. */
    method SetLink(p: Point, prev: Option<HookId>, v: Option<HookId>)
      requires p < heads.Length
      modifies this`next, heads
      ensures heads[..] == old(heads[..])[p := HeadWith(old(heads[p]), prev, v)] && next == NextWith(old(next), prev, v)
    {
      if prev.None? {
        heads[p] := v;
      } else {
        next := next[prev.value := v];
      }
    }

    /** Where `h` goes in its chain: behind the last hook of no higher priority. */
    method Seek(p: Point, prio: int) returns (prev: Option<HookId>, cur: Option<HookId>)
      requires Threaded(st) && Inv(st) && p < points
      ensures Between(st, p, prio, prev, cur)
    {
      hide Head, LinkOf, Inv, FramesOk;
      ghost var chain := st.Chain(p);
      ChainFacts(st, p);
      ghost var i := 0;
      prev, cur := None, heads[p];
      assert Linked(heads[..][p], next, chain);
      LinkedAt(heads[p], next, chain, 0);
      HeadIs(chain, 0);
      while cur.Some? && hooks[cur.value].priority <= prio
        invariant i <= |chain| && cur == Head(chain[i..]) && prev == Last(chain[..i])
        invariant i < |chain| ==> cur == Some(chain[i])
        invariant cur.Some? ==> i < |chain|
        invariant Slot(st, chain, prio) == i + Slot(st, chain[i..], prio)
        decreases |chain| - i
      {
        assert chain[i] in chain && chain[i..][1..] == chain[i + 1..];
        LinkedAt(heads[p], next, chain, i + 1);
        HeadIs(chain, i + 1);
        prev := cur;
        cur := LinkOf(next, cur.value);
        i := i + 1;
      }
      if cur.Some? { assert chain[i] in chain; }
    }

    /** The two writes that put `h` between `prev` and `cur`. */
    method Splice(p: Point, prev: Option<HookId>, h: HookId, cur: Option<HookId>)
      requires p < heads.Length
      modifies this`next, heads
      ensures heads[..] == old(heads[..])[p := HeadWith(old(heads[p]), prev, Some(h))]
      ensures next == NextWith(old(next)[h := cur], prev, Some(h))
    {
      hide HeadWith, NextWith;
      next := next[h := cur];
      SetLink(p, prev, Some(h));
    }

    /** The second half of registration: `h` goes in behind the last hook that is not of
        higher priority. */
    method LinkIn(h: HookId)
      requires Valid() && h in hooks && h !in st.Chain(hooks[h].point)
      modifies this`next, this`dead, this`st, heads
      ensures Valid() && st == Hooks.Register(old(st), h).0
    {
      hide Inv, Threads, Hooks.Register, HeadWith, NextWith, Between, State.Chain;
      var p := hooks[h].point;
      var prev, cur := Seek(p, hooks[h].priority);
      RegisterThreads(heads[..], next, st, h, p, prev, cur);
      RegisterInv(st, h);
      RegisterIs(st, h);
      Splice(p, prev, h, cur);
      dead, st := dead - {h}, Hooks.Register(st, h).0;
    }

    method Register(h: HookId) returns (rc: Status)
      requires Valid() && st.UserRuns()
      modifies this`next, this`dead, this`st, heads
      ensures Valid() && (st, rc) == Hooks.Register(old(st), h)
    {
      hide Inv, Threads, Hooks.Register;
      RegisterIs(st, h);
      if h !in hooks { return EINVAL; }
      var found := Find(hooks[h].point, h);
      if found { return EEXIST; }
      LinkIn(h);
      return OK;
    }

    /** The hook in front of `h` on its chain, if any. */
    method SeekHook(p: Point, h: HookId) returns (prev: Option<HookId>, ghost i: nat)
      requires Threaded(st) && p < points && h in st.Chain(p)
      ensures i < |st.Chain(p)| && st.Chain(p)[i] == h && prev == Last(st.Chain(p)[..i])
    {
      hide Head, LinkOf, Last;
      ghost var chain := st.Chain(p);
      i := 0;
      var cur := heads[p];
      prev := None;
      assert Linked(heads[..][p], next, chain);
      LinkedAt(heads[p], next, chain, 0);
      HeadIs(chain, 0);
      LastIs(chain, 0);
      while cur.Some? && cur.value != h
        invariant i <= |chain| && h !in chain[..i] && prev == Last(chain[..i])
        invariant cur == if i < |chain| then Some(chain[i]) else None
        decreases |chain| - i
      {
        assert chain[..i + 1] == chain[..i] + [chain[i]];
        LinkedAt(heads[p], next, chain, i + 1);
        HeadIs(chain, i + 1);
        LastIs(chain, i + 1);
        prev := cur;
        cur := LinkOf(next, cur.value);
        i := i + 1;
      }
      assert chain[..|chain|] == chain;
    }

    /** `chain_unlink`. */
    method Unlink(p: Point, h: HookId)
      requires Valid() && h in hooks && p == hooks[h].point && h in st.Chain(p) && st.frames == []
      modifies this`next, this`dead, this`st, heads
      ensures Valid() && st == Hooks.Unregister(old(st), h)
    {
      hide Inv, Linked, Threads, LinkOf, Last, Without;
      var prev;
      ghost var i;
      prev, i := SeekHook(p, h);
      UnlinkThreads(heads[..], next, st, h, i);
      UnregisterInv(st, h);
      SetLink(p, prev, LinkOf(next, h));
      next := next[h := None];
      dead := dead - {h};
      st := Hooks.Unregister(st, h);
    }

    method Unregister(h: HookId)
      requires Valid() && st.UserRuns()
      modifies this`next, this`dead, this`st, heads
      ensures Valid() && st == Hooks.Unregister(old(st), h)
    {
      hide Inv, Linked, Threads, Without;
      if h !in hooks { return; }
      var p := hooks[h].point;
      var found := Find(p, h);
      if !found { return; }
      if dispatching > 0 {
        UnregisterInv(st, h);
        SameThreads(heads[..], next, st, Hooks.Unregister(st, h));
        dead := dead + {h};
        st := Hooks.Unregister(st, h);
      } else {
        Unlink(p, h);
      }
    }

    /** One chain of `sweep_dead`. */
    method SweepChain(p: Point)
      requires p < points && heads.Length == points && Inv(st) && Sweeping(heads[..], next, st, p, 0)
      requires forall x :: x in dead <==> x in st.dead && !Passed(st, p, 0, x)
      modifies this`next, this`dead, heads
      ensures Sweeping(heads[..], next, st, p, |st.Chain(p)|)
      ensures forall x :: x in dead <==> x in st.dead && !Passed(st, p, |st.Chain(p)|, x)
    {
      hide Inv, Linked, Sweeping, Head, Last, Alive, LinkOf;
      ghost var chain := st.Chain(p);
      ghost var j := 0;
      ChainFacts(st, p);
      var prev: Option<HookId>, cur := None, heads[p];
      SweepAt(heads[..], next, st, p, 0);
      while cur.Some?
        invariant heads.Length == points && j <= |chain| && Sweeping(heads[..], next, st, p, j)
        invariant prev == Last(Alive(chain[..j], st.dead)) && cur == if j < |chain| then Some(chain[j]) else None
        invariant forall x :: x in dead <==> x in st.dead && !Passed(st, p, j, x)
        decreases |chain| - j
      {
        assert chain[..j + 1] == chain[..j] + [chain[j]] && chain[j] in chain && chain[j] !in chain[..j];
        SweepAt(heads[..], next, st, p, j);
        SweptStep(st, p, j);
        var x := cur.value;
        var after := LinkOf(next, x);
        if x in dead {
          SweepUnlink(heads[..], next, st, p, j);
          SetLink(p, prev, after);
          next := next[x := None];
          dead := dead - {x};
        } else {
          SweepKeep(heads[..], next, st, p, j);
          LastSnoc(Alive(chain[..j], st.dead), x);
          prev := cur;
        }
        cur := after;
        j := j + 1;
      }
    }

    /** `sweep_dead`. */
    method SweepAll()
      requires Threaded(st) && Inv(st) && dead == st.dead
      modifies this`next, this`dead, heads
      ensures Threaded(Sweep(st)) && dead == {}
    {
      hide Inv, Linked, Threads, Sweeping, Alive;
      SweepStart(heads[..], next, st);
      for p := 0 to points
        invariant heads.Length == points && Sweeping(heads[..], next, st, p, 0)
        invariant forall x :: x in dead <==> x in st.dead && !Passed(st, p, 0, x)
      {
        SweepChain(p);
        SweepNext(heads[..], next, st, p);
        PassedNext(st, p);
      }
      SweepDone(heads[..], next, st);
      DeadPassed(st, points);
    }

    /** The end of a dispatch; the outermost one sweeps. */
    method Leave()
      requires Valid() && st.frames != []
      modifies this`next, this`dead, this`dispatching, this`st, heads
      ensures Valid() && st == Hooks.Leave(old(st))
    {
      hide Inv, Linked, Threads, Alive;
      LeaveInv(st);
      dispatching := dispatching - 1;
      if dispatching == 0 {
        SweepAll();
        SameThreads(heads[..], next, Sweep(st), Hooks.Leave(st));
      } else {
        SameThreads(heads[..], next, st, Hooks.Leave(st));
      }
      st := Hooks.Leave(st);
    }

    /** What callback code does with the framework. */
    method RunActs(acts: seq<Act>) returns (ghost trace: seq<Step>)
      requires Valid() && st.UserRuns()
      modifies this`next, this`dead, this`dispatching, this`st, heads
      ensures Valid() && Stretch(old(st), trace, st) && st.UserRuns() && Acted(points, acts, trace)
      decreases acts
    {
      hide Inv, Linked, Threads, Stretch, Hooks.Register, Hooks.Unregister, Acted, Dispatched;
      trace := [];
      RunNothing(st);
      ActedNothing(points);
      assert acts[..0] == [];
      for i := 0 to |acts|
        invariant Valid() && st.UserRuns() && Stretch(old(st), trace, st) && Acted(points, acts[..i], trace)
      {
        ghost var before := st;
        ghost var t;
        match acts[i] {
          case Registering(h) =>
            UserStep(st, Reg(h));
            var _ := Register(h);
            t := [Reg(h)];
          case Unregistering(h) =>
            UserStep(st, Unreg(h));
            Unregister(h);
            t := [Unreg(h)];
          case Dispatching(p, answers) =>
            var action;
            ghost var ran;
            action, t, ran := Dispatch(p, answers);
            assert action == Continue || action == Abort;
        }
        UserConcat(old(st), before, st, trace, t);
        ActedMore(points, acts, i, trace, t);
        trace := trace + t;
      }
      assert acts[..|acts|] == acts;
    }

    /** A step of a dispatch that moves nothing but its own frame. */
    ghost method Move(st0: State, p: Point, h: Option<HookId>, running: bool, t: seq<Step>, step: Step) returns (t': seq<Step>)
      requires Valid() && InDispatch(st0, st, p, h, running, t) && Enabled(st, step)
      requires step == Call || step == Skip || step == Return(Continue)
      modifies this`st
      ensures Valid() && st.chains == old(st.chains) && t' == t + [step]
      ensures InDispatch(st0, st, p, if running then h else After(old(st.Chain(p)), h.value), step == Call, t')
    {
      hide Inv, Linked, Threads, InDispatch, After;
      StepDispatch(st0, st, p, h, running, t, step);
      InvKept(st, step);
      SameThreads(heads[..], next, st, Next(st, step));
      st := Next(st, step);
      t' := t + [step];
    }

    /** The count goes up and the loop stands at the head of the chain. */
    method EnterDispatch(p: Point) returns (h: Option<HookId>, ghost t: seq<Step>)
      requires Valid() && st.UserRuns() && p < points
      modifies this`dispatching, this`st
      ensures Valid() && InDispatch(old(st), st, p, h, false, t) && t == [Begin(p)]
    {
      hide Inv, Linked, Threads, InDispatch, Head;
      BeginDispatch(st, p);
      BeginInv(st, p);
      SameThreads(heads[..], next, st, Next(st, Begin(p)));
      HeadIsFirst(heads[..], next, st, p);
      dispatching := dispatching + 1;
      st := Next(st, Begin(p));
      h, t := heads[p], [Begin(p)];
    }

    /** A live hook is called and does what `answer` says, short of returning. */
    method CallHook(ghost st0: State, p: Point, ghost h: Option<HookId>, nxt: Option<HookId>, answer: Answer, ghost t0: seq<Step>)
        returns (ghost t: seq<Step>, ghost u: seq<Step>)
      requires Valid() && InDispatch(st0, st, p, h, false, t0) && Enabled(st, Call) && h.Some? && nxt == After(st.Chain(p), h.value)
      modifies this`next, this`dead, this`dispatching, this`st, heads
      ensures Valid() && InDispatch(st0, st, p, nxt, true, t) && t == t0 + [Call] + u && Acted(points, answer.acts, u)
      decreases answer
    {
      hide Inv, Linked, Threads, InDispatch, After, Stretch, Acted;
      t := Move(st0, p, h, false, t0, Call);
      AtTop(st0, st, p, nxt, true, t);
      ghost var before := st;
      u := RunActs(answer.acts);
      CallbackRan(st0, before, st, p, nxt, t, u);
      t := t + u;
    }

    /** The hook behind the one the loop stands at, read before that one is called. */
    method Peek(ghost st0: State, p: Point, h: Option<HookId>, ghost t: seq<Step>) returns (nxt: Option<HookId>)
      requires Valid() && InDispatch(st0, st, p, h, false, t) && h.Some? && p < points
      ensures nxt == After(st.Chain(p), h.value)
      ensures Position(st.Chain(p), nxt) == Position(st.Chain(p), h) + 1 <= |st.Chain(p)|
      ensures if h.value in dead then Enabled(st, Skip) else Enabled(st, Call)
    {
      hide Inv, Linked, Threads, InDispatch, After, Position;
      AtTop(st0, st, p, h, false, t);
      WalkAdvances(st);
      LinkIsNext(heads[..], next, st, p, h.value);
      nxt := LinkOf(next, h.value);
    }

    /** The `k`-th callback as scripted, or one past the script. */
    method CallNext(ghost st0: State, p: Point, ghost h: Option<HookId>, nxt: Option<HookId>, answers: seq<Answer>, k: nat, ghost n: nat,
                    ghost t0: seq<Step>)
        returns (last: Action, ghost t: seq<Step>, ghost u: seq<Step>)
      requires Valid() && InDispatch(st0, st, p, h, false, t0) && Enabled(st, Call) && h.Some? && nxt == After(st.Chain(p), h.value)
      requires if n < |answers| then k == n else k == |answers|
      modifies this`next, this`dead, this`dispatching, this`st, heads
      ensures Valid() && InDispatch(st0, st, p, nxt, true, t) && t == t0 + [Call] + u && Answered(points, answers, n, u, last)
      ensures k == |answers| ==> st.chains == old(st.chains)
      decreases answers, 0
    {
      hide Inv, Linked, Threads, InDispatch, After, Acted;
      last, u := Continue, [];
      if k < |answers| {
        t, u := CallHook(st0, p, h, nxt, answers[k], t0);
        last := answers[k].action;
      } else {
        t := Move(st0, p, h, false, t0, Call);
      }
    }

    /** The end of the loop, whether by `step` a veto or the end of the chain. */
    method FinishDispatch(ghost st0: State, p: Point, ghost h: Option<HookId>, ghost running: bool, ghost t: seq<Step>, ghost step: Step)
        returns (ghost trace: seq<Step>, ghost ran: seq<HookId>)
      requires Valid() && InDispatch(st0, st, p, h, running, t) && Enabled(st, step) && (step == End || step == Return(Abort))
      modifies this`next, this`dead, this`dispatching, this`st, heads
      ensures Valid() && Stretch(st0, trace, st) && trace == t + [step]
      ensures trace[0] == Begin(p) && ran == CallsAt(st0, trace, |st0.frames| + 1) && Distinct(ran)
      ensures step == End ==> forall x | x in st0.Chain(p) && x !in st0.dead && Unreg(x) !in trace :: x in ran
    {
      hide Inv, Linked, Threads, InDispatch, Stretch, CallsAt, Hooks.Leave;
      AtTop(st0, st, p, h, running, t);
      HookRuns.LeaveDispatch(st0, st, p, h, running, t, step);
      ran, trace := st.Top().ran, t + [step];
      Leave();
    }

    /** `nx_hook_dispatch`; the k-th callback it calls does `answers[k]`, and any further
        one does nothing and continues.  `ran` are the calls this dispatch made. */
    method Dispatch(p: Point, answers: seq<Answer>) returns (action: Action, ghost trace: seq<Step>, ghost ran: seq<HookId>)
      requires Valid() && st.UserRuns()
      modifies this`next, this`dead, this`dispatching, this`st, heads
      ensures Valid() && Stretch(old(st), trace, st)
      ensures ran == CallsAt(old(st), trace, |old(st).frames| + 1) && Distinct(ran)
      ensures Dispatched(points, p, answers, trace, action)
      ensures p < points && action == Continue ==>
                forall h | h in old(st.Chain(p)) && h !in old(st.dead) && Unreg(h) !in trace :: h in ran
      decreases answers, 1
    {
      hide Inv, Linked, Threads, Stretch, InDispatch, Head, After, Position, CallsAt, Dispatched, Looping, Answered, LinkOf;
      RunNothing(st);
      if p >= points {
        NoSuchPoint(points, p, answers);
        return Continue, [], [];
      }
      var h;
      h, trace := EnterDispatch(p);
      LoopBegins(points, p, answers);
      var k := 0;
      ghost var n := 0;
      while h.Some?
        invariant Valid() && InDispatch(old(st), st, p, h, false, trace) && k <= |answers|
        invariant Looping(points, p, answers, n, trace) && (if n < |answers| then k == n else k == |answers|)
        decreases |answers| - k, |st.Chain(p)| - Position(st.Chain(p), h)
      {
        var nxt := Peek(old(st), p, h, trace);
        ghost var t0, u := trace, [];
        if h.value in dead {
          LoopSkips(points, p, answers, n, trace);
          trace := Move(old(st), p, h, false, trace, Skip);
        } else {
          var last;
          last, trace, u := CallNext(old(st), p, h, nxt, answers, k, n, trace);
          if k < |answers| { k := k + 1; }
          AtTop(old(st), st, p, nxt, true, trace);
          if last == Abort {
            LoopAborts(points, p, answers, n, t0, u);
            trace, ran := FinishDispatch(old(st), p, nxt, true, trace, Return(Abort));
            return Abort, trace, ran;
          }
          LoopCalls(points, p, answers, n, t0, u);
          trace := Move(old(st), p, nxt, true, trace, Return(Continue));
          n := n + 1;
        }
        h := nxt;
      }
      AtTop(old(st), st, p, h, false, trace);
      LoopEnds(points, p, answers, n, trace);
      trace, ran := FinishDispatch(old(st), p, h, false, trace, End);
      action := Continue;
    }
  }

  lemma SameThreads(heads: seq<Option<HookId>>, next: Links, st: State, st': State)
    requires Threads(heads, next, st) && st'.chains == st.chains
    ensures Threads(heads, next, st')
  {
    hide Linked;
  }

  /** The head of a list and the link behind a hook, as the steps see them. */
  lemma HeadIsFirst(heads: seq<Option<HookId>>, next: Links, st: State, p: Point)
    requires p < |heads| && Threads(heads, next, st)
    ensures heads[p] == Head(st.Chain(p))
  {
    assert st.Chain(p)[0..] == st.Chain(p);
    LinkedAt(heads[p], next, st.Chain(p), 0);
  }

  lemma LinkIsNext(heads: seq<Option<HookId>>, next: Links, st: State, p: Point, h: HookId)
    requires Inv(st) && p < |heads| && Threads(heads, next, st) && h in st.Chain(p)
    ensures LinkOf(next, h) == After(st.Chain(p), h)
  {
    ChainFacts(st, p);
    hide Inv, Linked, After, Head;
    var k := FirstIndex(st.Chain(p), h);
    AfterAt(st.Chain(p), k);
    LinkedAt(heads[p], next, st.Chain(p), k + 1);
  }

  lemma LastIs(s: seq<HookId>, i: nat)
    requires i <= |s|
    ensures Last(s[..i]) == if i == 0 then None else Some(s[i - 1])
  {
  }

  lemma LastSnoc(s: seq<HookId>, x: HookId)
    ensures Last(s + [x]) == Some(x)
  {
  }

  /** What the sweep reads at position `j`. */
  lemma SweepAt(heads: seq<Option<HookId>>, next: Links, st: State, p: Point, j: nat)
    requires Inv(st) && p < |heads| && j <= |st.Chain(p)| && Sweeping(heads, next, st, p, j)
    ensures j < |st.Chain(p)| ==> LinkOf(next, st.Chain(p)[j]) == if j + 1 < |st.Chain(p)| then Some(st.Chain(p)[j + 1]) else None
    ensures j == 0 ==> heads[p] == (if 0 < |st.Chain(p)| then Some(st.Chain(p)[0]) else None)
                       && Last(Alive(st.Chain(p)[..0], st.dead)) == None
  {
    hide Inv;
    var chain, s := st.Chain(p), Swept(st, p, j);
    assert Linked(heads[p], next, s);
    var kept := Alive(chain[..j], st.dead);
    if j < |chain| {
      assert s[|kept|] == chain[j] && s[|kept| + 1..] == chain[j + 1..];
      assert LinkOf(next, s[|kept|]) == Head(s[|kept| + 1..]);
    }
    if j == 0 { assert chain[..0] == [] && s == chain; }
  }

  lemma PassedNext(st: State, p: Point)
    requires Inv(st)
    ensures forall x | x in st.dead :: Passed(st, p, |st.Chain(p)|, x) <==> Passed(st, p + 1, 0, x)
  {
    hide FramesOk, ChainOk;
    assert st.Chain(p)[..|st.Chain(p)|] == st.Chain(p);
  }

  lemma DeadPassed(st: State, points: nat)
    requires Inv(st) && forall h | h in st.hooks :: st.hooks[h].point < points
    ensures forall x | x in st.dead :: Passed(st, points, 0, x)
  {
    hide FramesOk, ChainOk;
  }

  lemma HeadIs(s: seq<HookId>, i: nat)
    requires i <= |s|
    ensures Head(s[i..]) == if i < |s| then Some(s[i]) else None
  {
  }
}
