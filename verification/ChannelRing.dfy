/** Sending and receiving on the two rings of a channel, framework/channel.c: each ring is a
    bounded queue, and what comes out at an end is what went in at the other, in order. */
module ChannelRing {
  import opened Composition
  import opened Bytes
  import opened Modulo

  const MSG_MAX := 256

  type Message = seq<Byte>

  /** Messages between the indices `head` and `tail` of a ring. */
  function Held(head: nat, tail: nat, n: nat): nat
    requires head < n && tail < n
  {
    if tail >= head then tail - head else tail + n - head
  }

  function Window(ring: seq<Message>, head: nat, tail: nat): (r: seq<Message>)
    requires head < |ring| && tail < |ring|
    ensures |r| == Held(head, tail, |ring|)
  {
    seq(Held(head, tail, |ring|), i requires 0 <= i < Held(head, tail, |ring|) =>
      ring[if head + i >= |ring| then head + i - |ring| else head + i])
  }

  /** The place behind `x`. */
  function Succ(x: nat, n: nat): (y: nat)
    requires x < n
    ensures y < n
  {
    if x + 1 == n then 0 else x + 1
  }

  lemma SuccIs(x: nat, n: nat)
    requires x < n && 1 < n
    ensures (x + 1) % n == Succ(x, n)
  {
    if x + 1 == n { OneTurn(x + 1, n); } else { Remainder(x + 1, n, 0, x + 1); }
  }

  lemma WindowGrows(ring: seq<Message>, head: nat, tail: nat, m: Message)
    requires 1 < |ring| && head < |ring| && tail < |ring| && Succ(tail, |ring|) != head
    ensures Window(ring[tail := m], head, Succ(tail, |ring|)) == Window(ring, head, tail) + [m]
  {
  }

  lemma WindowShrinks(ring: seq<Message>, head: nat, tail: nat)
    requires 1 < |ring| && head < |ring| && tail < |ring| && head != tail
    ensures Window(ring, head, tail) == [ring[head]] + Window(ring, Succ(head, |ring|), tail)
  {
  }

  /** One end: what waits to be received there. */
  class End {
    const ring: array<Message>
    var head: nat
    var tail: nat
    var closed: bool
    ghost var sent: seq<Message>
    ghost var received: seq<Message>

    /** Everything sent here has been received, or is waiting, in order. */
    ghost predicate Valid()
      reads this, ring
    {
      1 < ring.Length && head < ring.Length && tail < ring.Length && sent == received + Window(ring[..], head, tail)
    }

    constructor (length: nat)
      requires length > 1
      ensures Valid() && sent == [] && received == [] && !closed && ring.Length == length && fresh(ring)
    {
      ring := new Message[length](_ => []);
      head, tail, closed, sent, received := 0, 0, false, [], [];
    }
  }

  /** `nx_channel_send` from `e` to its peer `p`. */
  method Send(e: End, p: End, data: Message) returns (rc: int)
    requires e.Valid() && p.Valid() && e != p && e.ring != p.ring
    modifies p`tail, p`sent, p.ring
    ensures p.Valid() && p.received == old(p.received)
    ensures rc == if |data| > MSG_MAX then EINVAL
                  else if e.closed || p.closed || |old(Window(p.ring[..], p.head, p.tail))| == p.ring.Length - 1 then EBUSY
                  else |data|
    ensures p.sent == if rc >= 0 then old(p.sent) + [data] else old(p.sent)
  {
    if |data| > MSG_MAX { return EINVAL; }
    if e.closed { return EBUSY; }
    if p.closed { return EBUSY; }
    var next := (p.tail + 1) % p.ring.Length;
    SuccIs(p.tail, p.ring.Length);
    if next == p.head { return EBUSY; }
    WindowGrows(p.ring[..], p.head, p.tail, data);
    ghost var before := p.ring[..];
    p.ring[p.tail] := data;
    assert p.ring[..] == before[p.tail := data];
    p.tail := next;
    p.sent := p.sent + [data];
    return |data|;
  }

  /** `nx_channel_recv` at `e`, whose peer is `p`. */
  method Receive(e: End, p: End, cap: nat) returns (rc: int, data: Message)
    requires e.Valid() && p.Valid()
    modifies e`head, e`received
    ensures e.Valid() && e.sent == old(e.sent)
    ensures var waiting := old(Window(e.ring[..], e.head, e.tail));
            && rc == (if cap == 0 then EINVAL else if e.closed then EBUSY
                      else if waiting == [] then if p.closed then 0 else EAGAIN
                      else if |waiting[0]| > cap then ENOMEM else |waiting[0]|)
            && (if cap > 0 && !e.closed && waiting != [] && rc >= 0
                then data == waiting[0] && e.received == old(e.received) + [data] else e.received == old(e.received))
  {
    if cap == 0 { return EINVAL, []; }
    if e.closed { return EBUSY, []; }
    if e.head == e.tail { return if p.closed then 0 else EAGAIN, []; }
    WindowShrinks(e.ring[..], e.head, e.tail);
    SuccIs(e.head, e.ring.Length);
    var m := e.ring[e.head];
    if |m| > cap { return ENOMEM, []; }
    ghost var rest := Window(e.ring[..], Succ(e.head, e.ring.Length), e.tail);
    assert e.received + ([m] + rest) == (e.received + [m]) + rest;
    e.head := (e.head + 1) % e.ring.Length;
    e.received := e.received + [m];
    return |m|, m;
  }
}
