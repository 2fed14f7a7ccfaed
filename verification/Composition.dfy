/** The vocabulary of a nonux composition: slots, components, connection edges,
    and the status codes of `framework/registry.h`.  C pointers are identifiers. */
module Composition {

  datatype Option<+T> = None | Some(value: T)

  type SlotId = nat
  type CompId = nat

  /** Status codes are the source's integers; callbacks may return any other. */
  type Status = int

  const OK: Status := 0
  const EINVAL: Status := -1
  const ENOMEM: Status := -2
  const EEXIST: Status := -3
  const ENOENT: Status := -4
  const EBUSY: Status := -5
  const ESTATE: Status := -6
  const ELOOP: Status := -7
  const EABORT: Status := -8
  const EDEADLINE: Status := -9
  const EPERM: Status := -10
  const EAGAIN: Status := -11

  datatype Stage = Uninit | Init | Ready | Active | Paused | Destroyed

  datatype SlotPause = Running | Cutting | Draining | Done

  datatype Mode = Async | Sync

  datatype Policy = Queue | Reject | Redirect

  datatype Mutability = Hot | Warm | Frozen

  /** A directed edge `from` calls `to`; boot edges have no `from`. */
  datatype Connection = Connection(from: Option<SlotId>, to: SlotId, mode: Mode, stateful: bool, policy: Policy)

  datatype SlotChange = SlotChange(slot: Option<SlotId>, replace: bool, newComp: Option<CompId>)

  datatype ConnAction = Add | Remove | Rewire

  datatype ConnChange = ConnChange(
    from: Option<SlotId>, to: Option<SlotId>, action: ConnAction, mode: Mode, stateful: bool, policy: Policy)

  /** What `s` depends on, in list order: the targets of its outgoing edges. */
  function Dependencies(conns: seq<Connection>, s: SlotId): seq<SlotId> {
    if conns == [] then []
    else
      var front := Dependencies(conns[..|conns| - 1], s);
      var last := conns[|conns| - 1];
      if last.from == Some(s) then front + [last.to] else front
  }

  lemma {:induction false} DependenciesAreEdges(conns: seq<Connection>, s: SlotId, t: SlotId)
    ensures t in Dependencies(conns, s) <==> exists c :: c in conns && c.from == Some(s) && c.to == t
  {
    if conns != [] {
      var front, last := conns[..|conns| - 1], conns[|conns| - 1];
      assert conns == front + [last];
      DependenciesAreEdges(front, s, t);
    }
  }
}
