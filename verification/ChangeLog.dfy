/** The change-log ring of framework/registry.c: a fixed array holding the newest events of
    an unbounded history. */
module ChangeLog {
  import opened Composition
  import opened Modulo
  import opened Sequences

  /** The last `n` elements. */
  function Newest<T>(s: seq<T>, n: nat): seq<T> {
    if |s| <= n then s else s[|s| - n..]
  }

  datatype Stamped<T> = Stamped(generation: nat, what: T)

  function Since<T>(since: nat): Stamped<T> -> bool {
    (e: Stamped<T>) => e.generation > since
  }

  /** What a reader asking for events after `since` is given. */
  function Answer<T>(history: seq<Stamped<T>>, capacity: nat, since: nat, max: nat): seq<Stamped<T>> {
    Cut(Filter(Newest(history, capacity), Since(since)), max)
  }

  lemma {:induction false} FilterPrefix<T>(s: seq<T>, k: nat, p: T -> bool)
    requires k <= |s|
    ensures Filter(s[..k], p) <= Filter(s, p)
    decreases |s| - k
  {
    if k < |s| {
      assert s[..k + 1] == s[..k] + [s[k]];
      FilterSnoc(s[..k], s[k], p);
      FilterPrefix(s, k + 1, p);
    } else {
      assert s[..k] == s;
    }
  }

  lemma {:induction false} NoneSince<T>(s: seq<Stamped<T>>, since: nat, n: nat)
    requires n <= |s| && (forall i | 0 <= i < n :: s[i].generation <= since) && forall i | n <= i < |s| :: s[i].generation > since
    ensures Filter(s, Since(since)) == s[n..]
  {
    if s != [] {
      var rest := s[1..];
      if n > 0 {
        NoneSince(rest, since, n - 1);
        assert rest[n - 1..] == s[n..];
      } else {
        NoneSince(rest, since, 0);
        assert s == [s[0]] + rest;
      }
    }
  }

  /** With events numbered from one, an answer is one stretch of the history: from the first
      event after `since` that the ring still has, as many as asked for. */
  lemma AnswerIs<T>(history: seq<Stamped<T>>, capacity: nat, since: nat, max: nat)
    requires forall i | 0 <= i < |history| :: history[i].generation == i + 1
    ensures var n := |history|;
            var lost := if n > capacity then n - capacity else 0;
            var first := if since < lost then lost else if since < n then since else n;
            Answer(history, capacity, since, max) == history[first..if first + max < n then first + max else n]
  {
    var n := |history|;
    var lost := if n > capacity then n - capacity else 0;
    var first := if since < lost then lost else if since < n then since else n;
    var kept := history[lost..];
    assert Newest(history, capacity) == kept;
    NoneSince(kept, since, first - lost);
    assert kept[first - lost..] == history[first..];
  }

  class Ring<T(0)> {
    const ring: array<Stamped<T>>
    var total: nat
    ghost var history: seq<Stamped<T>>

    ghost predicate Valid()
      reads this, ring
    {
      && ring.Length > 0 && total == |history|
      && forall i | 0 <= i < total && total - i <= ring.Length :: ring[i % ring.Length] == history[i]
    }

    constructor (capacity: nat, blank: T)
      requires capacity > 0
      ensures Valid() && history == [] && ring.Length == capacity && fresh(ring)
    {
      ring := new Stamped<T>[capacity](_ => Stamped(0, blank));
      total, history := 0, [];
    }

    /** `change_log_append`. */
    method Append(e: Stamped<T>)
      requires Valid()
      modifies this`total, this`history, ring
      ensures Valid() && history == old(history) + [e]
    {
      forall i | 0 <= i < total && total + 1 - i <= ring.Length ensures i % ring.Length != total % ring.Length {
        DifferentPlaces(i, total, ring.Length);
      }
      ring[total % ring.Length] := e;
      total := total + 1;
      history := history + [e];
    }

    /** `nx_change_log_size`. */
    method Size() returns (n: nat)
      requires Valid()
      ensures n == |Newest(history, ring.Length)|
    {
      n := if total < ring.Length then total else ring.Length;
    }

    /** `nx_change_log_read`. */
    method Read(since: nat, max: nat) returns (out: seq<Stamped<T>>)
      requires Valid()
      ensures out == Answer(history, ring.Length, since, max)
    {
      out := [];
      if max == 0 { return; }
      var held := if total < ring.Length then total else ring.Length;
      var i := total - held;
      ghost var newest, start, p := Newest(history, ring.Length), i, Since<T>(since);
      while i < total && |out| < max
        invariant start <= i <= total && out == Filter(newest[..i - start], p) && |out| <= max
      {
        assert newest[..i + 1 - start] == newest[..i - start] + [newest[i - start]];
        FilterSnoc(newest[..i - start], newest[i - start], p);
        var e := ring[i % ring.Length];
        if e.generation > since { out := out + [e]; }
        i := i + 1;
      }
      FilterPrefix(newest, i - start, p);
      assert i == total ==> newest[..i - start] == newest;
    }

    /** `nx_change_log_reset`: the ring itself is left as it is. */
    method Reset()
      requires ring.Length > 0
      modifies this`total, this`history
      ensures Valid() && history == []
    {
      total, history := 0, [];
    }
  }
}
