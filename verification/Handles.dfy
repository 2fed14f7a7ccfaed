/** framework/handle.c on values: how a handle names a table entry, and what allocating,
    resolving and closing do to one table. */
module Handles {
  import opened Composition
  import opened Sums

  /** One end of a channel; the two ends share an allocation. */
  datatype Endpoint = Endpoint(chan: nat, side: bool)

  /** What an entry refers to.  A console is the character device's singleton resource; a
      file is any other resource. */
  datatype Item =
    | Empty
    | Channel(end: Endpoint, rights: nat)
    | File(id: nat, rights: nat)
    | Console(rights: nat)
    | Directory(rights: nat)

  datatype Entry = Entry(item: Item, generation: nat)

  datatype Table = Table(entries: seq<Entry>, count: nat)

  const CAPACITY := 64

  /** Handles are 32 bits wide: eight for the index, twenty-four for the generation.  The
      counter in the entry has all thirty-two. */
  const GENERATIONS := 0x100_0000
  const WORD := 0x1_0000_0000

  type Handle = h: nat | h < WORD

  function Encode(generation: nat, index: nat): Handle {
    ((generation * 256) % WORD + index + 1) % WORD
  }

  function Index(h: Handle): Option<nat> {
    var code := h % 256;
    if code == 0 || code > CAPACITY then None else Some(code - 1)
  }

  function Generation(h: Handle): nat {
    h / 256
  }

  /** Whether a handle made from this counter can name its entry again. */
  predicate Nameable(generation: nat) {
    generation < GENERATIONS
  }

  function Occupied(): Entry -> int {
    (x: Entry) => if x.item.Empty? then 0 else 1
  }

  /** A table as the kernel keeps it: full size, its count the number of live entries. */
  predicate TableOk(t: Table) {
    |t.entries| == CAPACITY && t.count == Sum(t.entries, Occupied())
  }

  // ---------------------------------------------------------------- operations

  /** First free entry from `i` on. */
  function FreeFrom(entries: seq<Entry>, i: nat): (k: Option<nat>)
    requires i <= |entries|
    ensures k.Some? ==> i <= k.value < |entries| && entries[k.value].item.Empty?
                        && forall j | i <= j < k.value :: !entries[j].item.Empty?
    ensures k.None? ==> forall j | i <= j < |entries| :: !entries[j].item.Empty?
    decreases |entries| - i
  {
    if i == |entries| then None else if entries[i].item.Empty? then Some(i) else FreeFrom(entries, i + 1)
  }

  function Put(t: Table, i: nat, x: Entry): Table
    requires i < |t.entries|
  {
    Table(t.entries[i := x], t.count + (if t.entries[i].item.Empty? then 1 else 0))
  }

  /** `nx_handle_alloc`: the entry taken, if any. */
  function Alloc(t: Table, item: Item): (Table, Option<nat>) {
    var k := FreeFrom(t.entries, 0);
    if k.None? then (t, None) else (Put(t, k.value, Entry(item, t.entries[k.value].generation)), k)
  }

  /** `nx_handle_lookup`: where the handle resolves to, or why not. */
  function Lookup(t: Table, h: Handle): (r: (Status, nat)) {
    var i := Index(h);
    if i.None? || i.value >= |t.entries| then (EINVAL, 0)
    else if t.entries[i.value].item.Empty? || t.entries[i.value].generation != Generation(h) then (ENOENT, 0)
    else (OK, i.value)
  }

  function Closed(x: Entry): Entry {
    Entry(Empty, (x.generation + 1) % WORD)
  }

  /** `nx_handle_close`. */
  function Close(t: Table, h: Handle): (Table, Status) {
    var r := Lookup(t, h);
    if r.0 != OK then (t, r.0)
    else (Table(t.entries[r.1 := Closed(t.entries[r.1])], if t.count == 0 then 0 else t.count - 1), OK)
  }

  // ---------------------------------------------------------------- names

  lemma Shifted(generation: nat)
    ensures (generation * 256) % WORD == (generation % GENERATIONS) * 256
  {
    var q, g := generation / GENERATIONS, generation % GENERATIONS;
    assert generation * 256 == q * WORD + g * 256;
    Multiple(q, g * 256);
  }

  lemma {:induction false} Multiple(q: nat, r: nat)
    requires r < WORD
    ensures (q * WORD + r) % WORD == r
  {
    if q > 0 {
      Multiple(q - 1, r);
      assert q * WORD + r == (q - 1) * WORD + r + WORD;
    }
  }

  lemma DecodeEncoded(generation: nat, i: nat)
    requires i < CAPACITY
    ensures Index(Encode(generation, i)) == Some(i) && Generation(Encode(generation, i)) == generation % GENERATIONS
  {
    Shifted(generation);
  }

  /** A live entry answers to the handle built from its own counter exactly while the
      counter still fits in the handle. */
  lemma OwnHandle(t: Table, i: nat)
    requires i < |t.entries| == CAPACITY && !t.entries[i].item.Empty?
    ensures var h := Encode(t.entries[i].generation, i);
            Lookup(t, h) == if Nameable(t.entries[i].generation) then (OK, i) else (ENOENT, 0)
  {
    DecodeEncoded(t.entries[i].generation, i);
  }

  /** Two handles that resolve in the same table are the same number exactly if they
      resolve to the same entry. */
  lemma HandlesAreNames(t: Table, g: Handle, h: Handle)
    requires Lookup(t, g).0 == OK && Lookup(t, h).0 == OK
    ensures g == h <==> Lookup(t, g).1 == Lookup(t, h).1
  {
  }

  // ---------------------------------------------------------------- counting

  lemma PutOk(t: Table, i: nat, x: Entry)
    requires TableOk(t) && i < CAPACITY && !x.item.Empty?
    ensures TableOk(Put(t, i, x))
  {
    SumUpdate(t.entries, i, x, Occupied());
  }

  lemma AllocOk(t: Table, item: Item)
    requires TableOk(t) && !item.Empty?
    ensures TableOk(Alloc(t, item).0)
  {
    var k := FreeFrom(t.entries, 0);
    if k.Some? { PutOk(t, k.value, Entry(item, t.entries[k.value].generation)); }
  }

  lemma CloseOk(t: Table, h: Handle)
    requires TableOk(t)
    ensures TableOk(Close(t, h).0)
    ensures Close(t, h).1 == OK ==> t.count > 0 && Close(t, h).0.count == t.count - 1
  {
    var r := Lookup(t, h);
    if r.0 == OK {
      SumUpdate(t.entries, r.1, Closed(t.entries[r.1]), Occupied());
      SumNonNegative(t.entries[r.1 := Closed(t.entries[r.1])], Occupied());
    }
  }

  // ---------------------------------------------------------------- stale handles

  datatype TableStep = Allocating(item: Item) | Closing(h: Handle)

  function StepTable(t: Table, s: TableStep): Table {
    match s
    case Allocating(item) => Alloc(t, item).0
    case Closing(h) => Close(t, h).0
  }

  function RunTable(t: Table, steps: seq<TableStep>): Table {
    if steps == [] then t else StepTable(RunTable(t, steps[..|steps| - 1]), steps[|steps| - 1])
  }

  /** How often entry `i` is closed along a run. */
  function Closes(t: Table, steps: seq<TableStep>, i: nat): nat {
    if steps == [] then 0
    else
      var before, last := RunTable(t, steps[..|steps| - 1]), steps[|steps| - 1];
      Closes(t, steps[..|steps| - 1], i) + if last.Closing? && Lookup(before, last.h) == (OK, i) then 1 else 0
  }

  lemma {:induction false} GenerationCounts(t: Table, steps: seq<TableStep>, i: nat)
    requires i < |t.entries| && t.entries[i].generation < WORD
    ensures var t' := RunTable(t, steps);
            |t'.entries| == |t.entries| && t'.entries[i].generation == (t.entries[i].generation + Closes(t, steps, i)) % WORD
  {
    hide Lookup, StepTable;
    if steps != [] {
      var front := steps[..|steps| - 1];
      GenerationCounts(t, front, i);
      StepGeneration(RunTable(t, front), steps[|steps| - 1], i);
      NextTurn(t.entries[i].generation, Closes(t, front, i));
    }
  }

  lemma StepGeneration(t: Table, s: TableStep, i: nat)
    requires i < |t.entries|
    ensures var t', g := StepTable(t, s), t.entries[i].generation;
            && |t'.entries| == |t.entries|
            && t'.entries[i].generation == if s.Closing? && Lookup(t, s.h) == (OK, i) then (g + 1) % WORD else g
  {
    hide Index, Generation;
  }

  lemma NextTurn(g: nat, n: nat)
    ensures ((g + n) % WORD + 1) % WORD == (g + n + 1) % WORD
  {
  }

  /** The promise that a closed handle stays dead, for tables that are only allocated from
      and closed in: it comes back exactly when its entry is live again after a whole
      number of turns of the 32-bit counter. */
  lemma StaleExactly(t: Table, h: Handle, steps: seq<TableStep>)
    requires Lookup(t, h).0 == OK && t.entries[Lookup(t, h).1].generation < WORD
    ensures var i, t' := Lookup(t, h).1, RunTable(t, steps);
            && i < |t'.entries|
            && (Lookup(t', h) == (OK, i) <==> !t'.entries[i].item.Empty? && Closes(t, steps, i) % WORD == 0)
            && (Lookup(t', h).0 == OK ==> Lookup(t', h).1 == i)
  {
    var i := Lookup(t, h).1;
    GenerationCounts(t, steps, i);
    TurnsOfCounter(t.entries[i].generation, Closes(t, steps, i));
  }

  lemma TurnsOfCounter(g: nat, n: nat)
    requires g < WORD
    ensures (g + n) % WORD == g <==> n % WORD == 0
  {
    var q, r := n / WORD, n % WORD;
    assert g + n == q * WORD + (g + r);
    if g + r < WORD {
      Multiple(q, g + r);
    } else {
      assert q * WORD + (g + r) == (q + 1) * WORD + (g + r - WORD);
      Multiple(q + 1, g + r - WORD);
    }
  }
}
