/** What the router's lists and its call stack keep to on every run: messages are filed where
    they belong, each pair has one hold entry, and whatever is held for an open slot lies
    ahead of a flush of that slot. */
module RouterTidy {
  import opened Composition
  import opened Sequences
  import opened Router

  predicate On(m: Msg, src: SlotId, dst: SlotId) {
    m.src == Some(src) && m.dst == Some(dst)
  }

  // ---------------------------------------------------------------- where messages are

  /** An inbox holds messages for its own slot. */
  ghost predicate Filed(q: seq<Msg>, s: SlotId) {
    forall i | 0 <= i < |q| :: q[i].dst == Some(s) && q[i].src.Some?
  }

  ghost predicate InboxesFiled(inbox: map<SlotId, seq<Msg>>) {
    forall s | s in inbox :: Filed(inbox[s], s)
  }

  /** The edge of the pair has QUEUE policy. */
  predicate Queues(conns: seq<Connection>, src: SlotId, dst: SlotId) {
    FindEdge(conns, src, dst).Some? && FindEdge(conns, src, dst).value.policy == Queue
  }

  /** Messages of the pair that may be sent, over an edge that holds them. */
  ghost predicate PairFiled(conns: seq<Connection>, src: SlotId, dst: SlotId, q: seq<Msg>) {
    && (forall i | 0 <= i < |q| :: On(q[i], src, dst) && CapsAllowed(conns, src, q[i].caps))
    && (q != [] ==> Queues(conns, src, dst))
  }

  ghost predicate HoldFiled(conns: seq<Connection>, made: nat, e: Hold) {
    PairFiled(conns, e.src, e.dst, e.queue) && e.queue != [] && e.id < made
  }

  ghost predicate Other(e: Hold, f: Hold) {
    (e.src != f.src || e.dst != f.dst) && e.id != f.id
  }

  ghost predicate Others(holds: seq<Hold>) {
    forall i, j {:trigger Other(holds[i], holds[j])} | 0 <= i < j < |holds| :: Other(holds[i], holds[j])
  }

  ghost predicate HoldsFiled(conns: seq<Connection>, made: nat, holds: seq<Hold>) {
    (forall i | 0 <= i < |holds| :: HoldFiled(conns, made, holds[i])) && Others(holds)
  }

  // ---------------------------------------------------------------- hold queues

  predicate Keyed(e: Hold, src: SlotId, dst: SlotId) {
    e.src == src && e.dst == dst
  }

  lemma {:induction false} FindHoldIs(holds: seq<Hold>, src: SlotId, dst: SlotId)
    ensures var i := FindHold(holds, src, dst);
            && (i < |holds| ==> Keyed(holds[i], src, dst))
            && forall k | 0 <= k < i :: !Keyed(holds[k], src, dst)
  {
    if holds != [] && !(holds[0].src == src && holds[0].dst == dst) {
      FindHoldIs(holds[1..], src, dst);
      var i := FindHold(holds[1..], src, dst);
      forall k | 0 <= k < i + 1 ensures !Keyed(holds[k], src, dst) {
        if k > 0 { assert holds[1..][k - 1] == holds[k]; }
      }
    }
  }

  lemma {:induction false} SameKeysFind(holds: seq<Hold>, holds': seq<Hold>, src: SlotId, dst: SlotId)
    requires |holds| == |holds'|
    requires forall k | 0 <= k < |holds| :: holds[k].src == holds'[k].src && holds[k].dst == holds'[k].dst
    ensures FindHold(holds, src, dst) == FindHold(holds', src, dst)
  {
    if holds != [] {
      assert forall k | 0 <= k < |holds| - 1 :: holds[1..][k] == holds[k + 1] && holds'[1..][k] == holds'[k + 1];
      SameKeysFind(holds[1..], holds'[1..], src, dst);
    }
  }

  lemma HoldMsgOf(holds: seq<Hold>, id: nat, s: SlotId, d: SlotId, m: Msg, src: SlotId, dst: SlotId)
    ensures HoldOf(HoldMsg(holds, id, s, d, m), src, dst) ==
            if s == src && d == dst then HoldOf(holds, src, dst) + [m] else HoldOf(holds, src, dst)
  {
    var i := FindHold(holds, s, d);
    FindHoldIs(holds, s, d);
    if i < |holds| {
      SameKeysFind(holds, HoldMsg(holds, id, s, d, m), src, dst);
      FindHoldIs(holds, src, dst);
    } else {
      assert ([Hold(id, s, d, [m])] + holds)[1..] == holds;
    }
  }

  lemma {:induction false} HoldMsgFiled(conns: seq<Connection>, made: nat, holds: seq<Hold>, s: SlotId, d: SlotId, m: Msg)
    requires HoldsFiled(conns, made, holds) && On(m, s, d) && CapsAllowed(conns, s, m.caps) && Queues(conns, s, d)
    ensures HoldsFiled(conns, made + 1, HoldMsg(holds, made, s, d, m))
    ensures FindHold(holds, s, d) < |holds| ==> HoldsFiled(conns, made, HoldMsg(holds, made, s, d, m))
  {
    hide Queues, CapsAllowed;
    var holds', i := HoldMsg(holds, made, s, d, m), FindHold(holds, s, d);
    var made' := if i < |holds| then made else made + 1;
    FindHoldIs(holds, s, d);
    forall k | 0 <= k < |holds'| ensures HoldFiled(conns, made', holds'[k]) && HoldFiled(conns, made + 1, holds'[k]) {
      if i < |holds| {
        assert HoldFiled(conns, made, holds[k]);
      } else if k > 0 {
        assert HoldFiled(conns, made, holds[k - 1]);
      }
    }
    forall j, k | 0 <= j < k < |holds'| ensures Other(holds'[j], holds'[k]) {
      if i < |holds| {
        assert Other(holds[j], holds[k]);
      } else if j > 0 {
        assert Other(holds[j - 1], holds[k - 1]);
      } else {
        assert !Keyed(holds[k - 1], s, d) && HoldFiled(conns, made, holds[k - 1]);
      }
    }
  }

  /** A pair's hold queue is that of any entry of the pair, and empty without one. */
  lemma HoldOfIs(holds: seq<Hold>, e: Hold)
    requires Others(holds) && e in holds
    ensures HoldOf(holds, e.src, e.dst) == e.queue
  {
    hide FindHold;
    var k :| 0 <= k < |holds| && holds[k] == e;
    var i := FindHold(holds, e.src, e.dst);
    FindHoldIs(holds, e.src, e.dst);
    assert k >= i by { assert k < i ==> !Keyed(holds[k], e.src, e.dst); }
    assert i < k ==> Other(holds[i], holds[k]);
  }

  lemma HoldOfNone(holds: seq<Hold>, src: SlotId, dst: SlotId)
    requires forall e | e in holds :: !Keyed(e, src, dst)
    ensures HoldOf(holds, src, dst) == []
  {
    hide FindHold;
    FindHoldIs(holds, src, dst);
  }

  /** Something is held for a pair only in an entry of it. */
  lemma HoldOfSome(holds: seq<Hold>, src: SlotId, dst: SlotId) returns (i: nat)
    requires HoldOf(holds, src, dst) != []
    ensures i < |holds| && Keyed(holds[i], src, dst)
  {
    hide FindHold;
    FindHoldIs(holds, src, dst);
    i := FindHold(holds, src, dst);
  }

  lemma LessAt(holds: seq<Hold>, r: nat, k: nat)
    requires r < |holds| && k < |holds| - 1
    ensures |Less(holds, r)| == |holds| - 1 && Less(holds, r)[k] == holds[if k < r then k else k + 1]
  {
  }

  lemma LessFiled(conns: seq<Connection>, made: nat, holds: seq<Hold>, r: nat)
    requires HoldsFiled(conns, made, holds) && r < |holds|
    ensures HoldsFiled(conns, made, Less(holds, r))
  {
    hide HoldFiled;
    var less := Less(holds, r);
    forall k | 0 <= k < |less| ensures HoldFiled(conns, made, less[k]) {
      assert HoldFiled(conns, made, holds[if k < r then k else k + 1]);
    }
    forall j, k | 0 <= j < k < |less| ensures Other(less[j], less[k]) {
      assert Other(holds[if j < r then j else j + 1], holds[if k < r then k else k + 1]);
    }
  }

  lemma OthersDiffer(holds: seq<Hold>, r: nat, e: Hold)
    requires Others(holds) && r < |holds| && e in Less(holds, r)
    ensures Other(e, holds[r])
  {
    var less := Less(holds, r);
    var k :| 0 <= k < |less| && less[k] == e;
    assert k < r ==> Other(holds[k], holds[r]);
    assert k >= r ==> holds[k + 1] == e && Other(holds[r], holds[k + 1]);
  }

  lemma StillThere(holds: seq<Hold>, r: nat, e: Hold)
    requires r < |holds| && e in holds && e != holds[r]
    ensures e in Less(holds, r)
  {
    var k :| 0 <= k < |holds| && holds[k] == e;
    assert Less(holds, r)[if k < r then k else k - 1] == e;
  }

  /** Taking entry `r` off the list empties its pair's hold queue and leaves the others. */
  lemma LessHolds(conns: seq<Connection>, made: nat, holds: seq<Hold>, r: nat, src: SlotId, dst: SlotId)
    requires HoldsFiled(conns, made, holds) && r < |holds|
    ensures HoldOf(Less(holds, r), src, dst) == if Keyed(holds[r], src, dst) then [] else HoldOf(holds, src, dst)
    ensures HoldOf(holds, holds[r].src, holds[r].dst) == holds[r].queue
  {
    var less := Less(holds, r);
    HoldOfIs(holds, holds[r]);
    LessFiled(conns, made, holds, r);
    hide HoldOf, HoldFiled, Others, Less;
    if Keyed(holds[r], src, dst) {
      forall e | e in less ensures !Keyed(e, src, dst) { OthersDiffer(holds, r, e); }
      HoldOfNone(less, src, dst);
    } else if e :| e in holds && Keyed(e, src, dst) {
      HoldOfIs(holds, e);
      StillThere(holds, r, e);
      HoldOfIs(less, e);
    } else {
      forall e | e in less ensures !Keyed(e, src, dst) { LessIn(holds, r, e); }
      HoldOfNone(holds, src, dst);
      HoldOfNone(less, src, dst);
    }
  }

  lemma LessIn(holds: seq<Hold>, r: nat, e: Hold)
    requires r < |holds| && e in Less(holds, r)
    ensures e in holds
  {
  }

  // ---------------------------------------------------------------- pointers into the list

  lemma {:induction false} PlaceIs(holds: seq<Hold>, id: nat)
    ensures var i := Place(holds, id);
            (i < |holds| ==> holds[i].id == id) && forall k | 0 <= k < i :: holds[k].id != id
  {
    if holds != [] && holds[0].id != id {
      PlaceIs(holds[1..], id);
      var i := Place(holds[1..], id);
      forall k | 0 <= k < i + 1 ensures holds[k].id != id {
        if k > 0 { assert holds[1..][k - 1] == holds[k]; }
      }
    }
  }

  /** Each entry is where its own number says. */
  lemma {:induction false} PlaceAt(holds: seq<Hold>, k: nat)
    requires Others(holds) && k < |holds|
    ensures Place(holds, holds[k].id) == k
  {
    hide Place;
    var i := Place(holds, holds[k].id);
    PlaceIs(holds, holds[k].id);
    assert i < k ==> Other(holds[i], holds[k]);
  }

  lemma {:induction false} PlaceNone(holds: seq<Hold>, id: nat)
    requires forall k | 0 <= k < |holds| :: holds[k].id != id
    ensures Place(holds, id) == |holds|
  {
    if holds != [] {
      assert forall k | 0 <= k < |holds| - 1 :: holds[1..][k] == holds[k + 1];
      PlaceNone(holds[1..], id);
    }
  }

  lemma {:induction false} SameIdsPlace(holds: seq<Hold>, holds': seq<Hold>, id: nat)
    requires |holds| == |holds'| && forall k | 0 <= k < |holds| :: holds[k].id == holds'[k].id
    ensures Place(holds, id) == Place(holds', id)
  {
    if holds != [] {
      assert forall k | 0 <= k < |holds| - 1 :: holds[1..][k] == holds[k + 1] && holds'[1..][k] == holds'[k + 1];
      SameIdsPlace(holds[1..], holds'[1..], id);
    }
  }

  /** An entry that goes off the list. */
  lemma {:induction false} LessPlace(holds: seq<Hold>, r: nat, id: nat)
    requires Others(holds) && r < |holds|
    ensures var p := Place(holds, id);
            Place(Less(holds, r), id) == if p == r then |holds| - 1 else if p < r then p else p - 1
  {
    hide Place;
    var p, less := Place(holds, id), Less(holds, r);
    PlaceIs(holds, id);
    PlaceIs(less, id);
    LessOthers(holds, r);
    if p < |holds| && p != r {
      var q := if p < r then p else p - 1;
      LessAt(holds, r, q);
      PlaceAt(less, q);
    } else {
      forall k | 0 <= k < |less| ensures less[k].id != id {
        LessAt(holds, r, k);
        if p == r { OthersDiffer(holds, r, less[k]); }
      }
      PlaceNone(less, id);
    }
  }

  lemma LessOthers(holds: seq<Hold>, r: nat)
    requires Others(holds) && r < |holds|
    ensures Others(Less(holds, r))
  {
    var less := Less(holds, r);
    forall j, k | 0 <= j < k < |less| ensures Other(less[j], less[k]) {
      assert Other(holds[if j < r then j else j + 1], holds[if k < r then k else k + 1]);
    }
  }

  /** A message that is held moves every old entry back by one, or none. */
  lemma HoldMsgPlace(holds: seq<Hold>, made: nat, s: SlotId, d: SlotId, m: Msg, id: nat)
    requires id != made
    ensures var holds', p := HoldMsg(holds, made, s, d, m), Place(holds, id);
            Place(holds', id) == p + |holds'| - |holds|
  {
    hide FindHold;
    var holds' := HoldMsg(holds, made, s, d, m);
    if FindHold(holds, s, d) < |holds| {
      SameIdsPlace(holds, holds', id);
    } else {
      assert holds'[1..] == holds;
    }
  }

  /** The entries themselves are what and where they were. */
  lemma HoldMsgAt(holds: seq<Hold>, made: nat, s: SlotId, d: SlotId, m: Msg, i: nat)
    requires i < |HoldMsg(holds, made, s, d, m)|
    ensures var holds' := HoldMsg(holds, made, s, d, m);
            var k := i - (|holds'| - |holds|);
            && |holds| <= |holds'| <= |holds| + 1
            && if k < 0 then holds'[i] == Hold(made, s, d, [m])
               else k < |holds| && holds'[i].src == holds[k].src && holds'[i].dst == holds[k].dst && holds'[i].id == holds[k].id
  {
    hide FindHold;
  }

  // ---------------------------------------------------------------- flushes in progress

  predicate HasLeft(f: Frame, src: SlotId, dst: SlotId) {
    f.Flushing? && f.src == src && f.dst == dst && f.queue != []
  }

  lemma LeftSnoc(frames: seq<Frame>, f: Frame, src: SlotId, dst: SlotId)
    ensures Left(frames + [f], src, dst) ==
            (if f.Flushing? && f.src == src && f.dst == dst then f.queue else []) + Left(frames, src, dst)
  {
    assert (frames + [f])[..|frames|] == frames;
  }

  lemma LeftTop(frames: seq<Frame>, src: SlotId, dst: SlotId)
    requires frames != []
    ensures var n := |frames| - 1;
            Left(frames, src, dst) ==
              (if frames[n].Flushing? && frames[n].src == src && frames[n].dst == dst then frames[n].queue else [])
              + Left(frames[..n], src, dst)
  {
  }

  /** Something is left only in a frame that has it. */
  lemma {:induction false} LeftHas(frames: seq<Frame>, src: SlotId, dst: SlotId) returns (i: nat)
    requires Left(frames, src, dst) != []
    ensures i < |frames| && HasLeft(frames[i], src, dst)
  {
    var n := |frames| - 1;
    LeftTop(frames, src, dst);
    if HasLeft(frames[n], src, dst) {
      i := n;
    } else {
      i := LeftHas(frames[..n], src, dst);
    }
  }

  /** A flush replays messages of one pair; the entry it stands behind is not for its slot. */
  ghost predicate FrameOk(st: State, i: nat)
    requires i < |st.frames|
  {
    var f := st.frames[i];
    f.Flushing? ==>
      && PairFiled(st.conns, f.src, f.dst, f.queue)
      && (f.at.Some? ==> f.at.value < st.made
                         && var p := Place(st.holds, f.at.value); p < |st.holds| ==> st.holds[p].dst != f.dst)
  }

  ghost predicate FramesOk(st: State) {
    forall i | 0 <= i < |st.frames| :: FrameOk(st, i)
  }

  ghost predicate Ahead(holds: seq<Hold>, at: Option<nat>, i: nat) {
    Stands(holds, at) ==> Reach(holds, at) <= i
  }

  /** Frame `j` flushes the slot of entry `i` and has not gone past it; nothing of the same
      pair is left in it or above it. */
  ghost predicate Serves(st: State, i: nat, j: nat)
    requires i < |st.holds|
  {
    && j < |st.frames| && FlushOf(st.frames[j], st.holds[i].dst) && Ahead(st.holds, st.frames[j].at, i)
    && forall k | j <= k < |st.frames| :: !HasLeft(st.frames[k], st.holds[i].src, st.holds[i].dst)
  }

  ghost predicate Served(st: State, i: nat)
    requires i < |st.holds|
  {
    st.Pause(st.holds[i].dst) == Running ==> exists j: nat :: Serves(st, i, j)
  }

  ghost predicate AllServed(st: State) {
    forall i | 0 <= i < |st.holds| :: Served(st, i)
  }

  ghost predicate Tidy(st: State) {
    InboxesFiled(st.inbox) && HoldsFiled(st.conns, st.made, st.holds) && FramesOk(st) && AllServed(st)
  }

  lemma FlushedBySome(st: State, j: nat, s: SlotId)
    requires j < |st.frames| && FlushOf(st.frames[j], s)
    ensures BeingFlushed(st, s)
  {
    assert st.frames[j] in st.frames;
  }

  lemma LeftIsFlush(st: State, src: SlotId, dst: SlotId)
    requires Left(st.frames, src, dst) != []
    ensures BeingFlushed(st, dst)
  {
    hide Left;
    var i := LeftHas(st.frames, src, dst);
    FlushedBySome(st, i, dst);
  }

  lemma HeldIsFlush(st: State, src: SlotId, dst: SlotId)
    requires Tidy(st) && HoldOf(st.holds, src, dst) != [] && st.Pause(dst) == Running
    ensures BeingFlushed(st, dst)
  {
    hide HoldsFiled, InboxesFiled, FramesOk, HoldOf, Serves;
    var i := HoldOfSome(st.holds, src, dst);
    assert Served(st, i);
    var j: nat :| Serves(st, i, j);
    assert FlushOf(st.frames[j], dst) by { ServesFlush(st, i, j); }
    FlushedBySome(st, j, dst);
  }

  lemma ServesFlush(st: State, i: nat, j: nat)
    requires i < |st.holds| && Serves(st, i, j)
    ensures j < |st.frames| && FlushOf(st.frames[j], st.holds[i].dst)
  {
  }

  /** Messages come late only while their slot is being flushed. */
  lemma LateIsFlush(st: State, m: Msg)
    requires Tidy(st) && Late(st, m)
    ensures BeingFlushed(st, m.dst.value)
  {
    hide Tidy, BeingFlushed, Left, HoldOf;
    var s, d := m.src.value, m.dst.value;
    if Left(st.frames, s, d) != [] { LeftIsFlush(st, s, d); } else { HeldIsFlush(st, s, d); }
  }

  /** The frame on top has nothing left of a pair held for an open slot. */
  lemma {:induction false} HeldNotLeft(st: State, i: nat)
    requires Tidy(st) && i < |st.holds| && st.Pause(st.holds[i].dst) == Running && st.frames != []
    ensures !HasLeft(st.Top(), st.holds[i].src, st.holds[i].dst)
  {
    hide HoldsFiled, InboxesFiled, FramesOk;
    assert Served(st, i);
    var j: nat :| Serves(st, i, j);
  }

  /** While the flush on top has messages for an open slot, none of their pair is held. */
  lemma {:induction false} TopLeftNotHeld(st: State)
    requires Tidy(st) && Enabled(st, Again) && st.Pause(st.Top().dst) == Running
    ensures HoldOf(st.holds, st.Top().src, st.Top().dst) == []
  {
    hide Tidy, HoldOf;
    if HoldOf(st.holds, st.Top().src, st.Top().dst) != [] {
      var i := HoldOfSome(st.holds, st.Top().src, st.Top().dst);
      HeldNotLeft(st, i);
      assert false;
    }
  }

  // ---------------------------------------------------------------- keeping it tidy

  /** Inboxes, clock and ledgers may change. */
  lemma SameTidy(st: State, st': State)
    requires Tidy(st) && InboxesFiled(st'.inbox)
    requires st'.conns == st.conns && st'.pause == st.pause && st'.holds == st.holds && st'.made == st.made && st'.frames == st.frames
    ensures Tidy(st')
  {
    hide HoldsFiled, InboxesFiled;
    forall i | 0 <= i < |st'.frames| ensures FrameOk(st', i) { assert FrameOk(st, i); }
    forall i | 0 <= i < |st'.holds| ensures Served(st', i) {
      assert Served(st, i);
      if st.Pause(st.holds[i].dst) == Running {
        var j: nat :| Serves(st, i, j);
        assert Serves(st', i, j);
      }
    }
  }

  lemma TidyInboxes(st: State)
    requires Tidy(st)
    ensures InboxesFiled(st.inbox)
  {
  }

  lemma TidyHolds(st: State)
    requires Tidy(st)
    ensures HoldsFiled(st.conns, st.made, st.holds) && Others(st.holds)
  {
  }

  /** A frame that serves an entry still does with another one on top that has nothing left. */
  lemma PushServes(st: State, st': State, i: nat, j: nat, f: Frame)
    requires i < |st.holds| && Serves(st, i, j) && st'.holds == st.holds && st'.frames == st.frames + [f]
    requires f.Handling? || f.queue == []
    ensures Serves(st', i, j)
  {
    forall k | j <= k < |st'.frames| ensures !HasLeft(st'.frames[k], st.holds[i].src, st.holds[i].dst) {
      assert k < |st.frames| ==> !HasLeft(st.frames[k], st.holds[i].src, st.holds[i].dst);
    }
  }

  /** A handler starts. */
  lemma HandlerTidy(st: State)
    requires Tidy(st)
    ensures Tidy(st.(frames := st.frames + [Handling]))
  {
    hide HoldsFiled, InboxesFiled, PairFiled, Serves;
    var st' := st.(frames := st.frames + [Handling]);
    forall i | 0 <= i < |st'.frames| ensures FrameOk(st', i) { assert i < |st.frames| ==> FrameOk(st, i); }
    forall i | 0 <= i < |st'.holds| ensures Served(st', i) {
      assert Served(st, i);
      if st.Pause(st.holds[i].dst) == Running {
        var j: nat :| Serves(st, i, j);
        PushServes(st, st', i, j, Handling);
      }
    }
  }

  lemma NothingFiled(conns: seq<Connection>, s: SlotId, d: SlotId)
    ensures PairFiled(conns, s, d, [])
  {
  }

  lemma OpenTidy(st: State, s: SlotId)
    requires Tidy(st)
    ensures Tidy(Opened(st, s))
  {
    hide HoldsFiled, InboxesFiled, PairFiled, Serves;
    var st', f := Opened(st, s), Flushing(s, s, [], None);
    NothingFiled(st.conns, s, s);
    forall i | 0 <= i < |st'.frames| ensures FrameOk(st', i) { assert i < |st.frames| ==> FrameOk(st, i); }
    forall i | 0 <= i < |st'.holds| ensures Served(st', i) {
      assert Served(st, i);
      if st.holds[i].dst == s {
        NewServes(st, s, i);
      } else if st.Pause(st.holds[i].dst) == Running {
        var j: nat :| Serves(st, i, j);
        PushServes(st, st', i, j, f);
      }
    }
  }

  /** A new flush has the whole list ahead of it. */
  lemma NewServes(st: State, s: SlotId, i: nat)
    requires i < |st.holds| && st.holds[i].dst == s
    ensures Serves(Opened(st, s), i, |st.frames|)
  {
  }

  lemma HaltTidy(st: State, s: SlotId, to: SlotPause)
    requires Tidy(st) && to != Running
    ensures Tidy(st.(pause := st.pause[s := to]))
  {
    hide HoldsFiled, InboxesFiled, PairFiled;
    var st' := st.(pause := st.pause[s := to]);
    forall i | 0 <= i < |st'.frames| ensures FrameOk(st', i) { assert FrameOk(st, i); }
    forall i | 0 <= i < |st'.holds| ensures Served(st', i) {
      assert Served(st, i);
      if st'.Pause(st.holds[i].dst) == Running {
        var j: nat :| Serves(st, i, j);
        assert Serves(st', i, j);
      }
    }
  }

  /** A handler returns, or a flush at the end of the list is over. */
  lemma UnframeTidy(st: State)
    requires Tidy(st) && (Enabled(st, Return) || Enabled(st, Close))
    ensures Tidy(Unframed(st))
  {
    hide HoldsFiled, InboxesFiled, PairFiled;
    var st' := Unframed(st);
    forall i | 0 <= i < |st'.frames| ensures FrameOk(st', i) { assert FrameOk(st, i); }
    forall i | 0 <= i < |st'.holds| ensures Served(st', i) {
      assert Served(st, i);
      if st.Pause(st.holds[i].dst) == Running {
        var j: nat :| Serves(st, i, j);
        assert j < |st'.frames|;
        assert Serves(st', i, j);
      }
    }
  }

  /** A frame that serves an entry still does when the top frame has no more left than before
      and has not gone past the entry. */
  lemma RetopServes(st: State, st': State, f: Frame, i: nat, j: nat)
    requires i < |st.holds| && Serves(st, i, j) && st'.holds == st.holds && st.frames != [] && st.Top().Flushing?
    requires st'.frames == st.frames[|st.frames| - 1 := f] && f.Flushing? && f.dst == st.Top().dst
    requires FlushOf(f, st.holds[i].dst) && Ahead(st.holds, st.Top().at, i) ==> Ahead(st.holds, f.at, i)
    requires HasLeft(f, st.holds[i].src, st.holds[i].dst) ==> HasLeft(st.Top(), st.holds[i].src, st.holds[i].dst)
    ensures Serves(st', i, j)
  {
    hide Ahead;
    forall k | j <= k < |st'.frames| ensures !HasLeft(st'.frames[k], st.holds[i].src, st.holds[i].dst) {
      assert !HasLeft(st.frames[k], st.holds[i].src, st.holds[i].dst);
    }
  }

  /** The flush on top goes past an entry that is not for its slot. */
  lemma PassTidy(st: State)
    requires Tidy(st) && Enabled(st, Pass)
    ensures Tidy(PassOne(st))
  {
    hide InboxesFiled, PairFiled, Serves, Place;
    var st', r := PassOne(st), Reach(st.holds, st.Top().at);
    assert HoldFiled(st.conns, st.made, st.holds[r]);
    PlaceAt(st.holds, r);
    forall i | 0 <= i < |st'.frames| ensures FrameOk(st', i) { assert FrameOk(st, i); }
    forall i | 0 <= i < |st'.holds| ensures Served(st', i) {
      assert Served(st, i);
      if st.Pause(st.holds[i].dst) == Running {
        var j: nat :| Serves(st, i, j);
        RetopServes(st, st', st'.Top(), i, j);
      }
    }
  }

  /** The flush on top takes its next message out of its queue. */
  lemma ShiftTidy(st: State)
    requires Tidy(st) && Enabled(st, Again)
    ensures Tidy(Shifted(st))
    ensures var f := st.Top();
            On(f.queue[0], f.src, f.dst) && CapsAllowed(st.conns, f.src, f.queue[0].caps) && Queues(st.conns, f.src, f.dst)
  {
    hide InboxesFiled, HoldsFiled, Serves, Place, CapsAllowed, Queues;
    var st' := Shifted(st);
    assert FrameOk(st, |st.frames| - 1);
    forall i | 0 <= i < |st'.frames| ensures FrameOk(st', i) { assert FrameOk(st, i); }
    forall i | 0 <= i < |st'.holds| ensures Served(st', i) {
      assert Served(st, i);
      if st.Pause(st.holds[i].dst) == Running {
        var j: nat :| Serves(st, i, j);
        RetopServes(st, st', st'.Top(), i, j);
      }
    }
  }

  /** What lies ahead of a pointer still does when another entry goes off the list. */
  lemma LessAhead(holds: seq<Hold>, r: nat, at: Option<nat>, i: nat)
    requires Others(holds) && r < |holds| && i < |holds| && i != r && Ahead(holds, at, i)
    ensures Ahead(Less(holds, r), at, if i < r then i else i - 1)
  {
    hide Place, Others;
    if at.Some? { LessPlace(holds, r, at.value); }
  }

  lemma {:induction false} LessServes(st: State, i: nat, j: nat)
    requires HoldsFiled(st.conns, st.made, st.holds) && Enabled(st, Detach)
    requires i < |st.holds| && i != Reach(st.holds, st.Top().at) && Serves(st, i, j)
    ensures var r := Reach(st.holds, st.Top().at);
            var i' := if i < r then i else i - 1;
            i' < |DetachOne(st).holds| && Serves(DetachOne(st), i', j)
  {
    hide Place, Ahead, HoldFiled;
    var st', r := DetachOne(st), Reach(st.holds, st.Top().at);
    var i' := if i < r then i else i - 1;
    LessAt(st.holds, r, i');
    assert Other(st.holds[r], st.holds[i]) by {
      assert i < r ==> Other(st.holds[i], st.holds[r]);
      assert r < i ==> Other(st.holds[r], st.holds[i]);
    }
    LessAhead(st.holds, r, st.frames[j].at, i);
    forall k | j <= k < |st'.frames| ensures !HasLeft(st'.frames[k], st.holds[i].src, st.holds[i].dst) {
      assert !HasLeft(st.frames[k], st.holds[i].src, st.holds[i].dst);
    }
  }

  /** The flush on top takes its next entry. */
  lemma {:induction false} DetachTidy(st: State)
    requires Tidy(st) && Enabled(st, Detach)
    ensures Tidy(DetachOne(st))
  {
    hide InboxesFiled, PairFiled, Serves, Place, HoldsFiled, Less;
    var st', r := DetachOne(st), Reach(st.holds, st.Top().at);
    LessFiled(st.conns, st.made, st.holds, r);
    LessSize(st.holds, r);
    EntryFiled(st, r);
    forall k | 0 <= k < |st'.frames| ensures FrameOk(st', k) {
      assert FrameOk(st, k);
      if st.frames[k].Flushing? && st.frames[k].at.Some? {
        var p := Place(st.holds, st.frames[k].at.value);
        LessPlace(st.holds, r, st.frames[k].at.value);
        if p < |st.holds| && p != r { LessAt(st.holds, r, if p < r then p else p - 1); }
      }
    }
    forall i | 0 <= i < |st'.holds| ensures Served(st', i) {
      LessAt(st.holds, r, i);
      var i0 := if i < r then i else i + 1;
      assert Served(st, i0);
      if st.Pause(st.holds[i0].dst) == Running {
        var j: nat :| Serves(st, i0, j);
        LessServes(st, i0, j);
      }
    }
  }

  lemma LessSize(holds: seq<Hold>, r: nat)
    requires r < |holds|
    ensures |Less(holds, r)| == |holds| - 1
  {
  }

  lemma EntryFiled(st: State, r: nat)
    requires HoldsFiled(st.conns, st.made, st.holds) && r < |st.holds|
    ensures PairFiled(st.conns, st.holds[r].src, st.holds[r].dst, st.holds[r].queue) && st.holds[r].queue != [] && Others(st.holds)
    ensures st.holds[r].id < st.made
  {
    hide PairFiled;
    assert HoldFiled(st.conns, st.made, st.holds[r]);
  }

  /** Pointers into the list are where they were, one further back if an entry came in front. */
  lemma KeptReach(st: State, m: Msg, at: Option<nat>)
    requires m.src.Some? && m.dst.Some? && (at.Some? ==> at.value < st.made)
    ensures var holds, holds' := st.holds, Kept(st, m).holds;
            && |holds| <= |holds'| <= |holds| + 1 && (Stands(holds', at) <==> Stands(holds, at))
            && Reach(holds', at) == if at.None? then 0 else Reach(holds, at) + |holds'| - |holds|
  {
    hide Place, FindHold;
    if at.Some? { HoldMsgPlace(st.holds, st.made, m.src.value, m.dst.value, m, at.value); }
  }

  lemma KeptServes(st: State, m: Msg, i: nat, j: nat)
    requires m.src.Some? && m.dst.Some? && i < |st.holds| && Serves(st, i, j) && FrameOk(st, j)
    ensures var i' := i + |Kept(st, m).holds| - |st.holds|;
            i <= i' < |Kept(st, m).holds| && Serves(Kept(st, m), i', j)
  {
    hide Place, FindHold, HoldMsg;
    KeptReach(st, m, st.frames[j].at);
    HoldMsgAt(st.holds, st.made, m.src.value, m.dst.value, m, i + |Kept(st, m).holds| - |st.holds|);
  }

  /** Holding a message back for a paused slot. */
  lemma {:induction false} KeptTidy(st: State, m: Msg)
    requires Tidy(st) && m.src.Some? && m.dst.Some? && st.Pause(m.dst.value) != Running
    requires CapsAllowed(st.conns, m.src.value, m.caps) && Queues(st.conns, m.src.value, m.dst.value)
    ensures Tidy(Kept(st, m))
  {
    hide HoldsFiled, InboxesFiled, PairFiled, HoldMsg, FindHold, CapsAllowed, Place, Serves, Queues;
    var st', s, d := Kept(st, m), m.src.value, m.dst.value;
    HoldMsgFiled(st.conns, st.made, st.holds, s, d, m);
    forall k | 0 <= k < |st'.frames| ensures FrameOk(st', k) {
      assert FrameOk(st, k);
      if st.frames[k].Flushing? && st.frames[k].at.Some? {
        KeptReach(st, m, st.frames[k].at);
        var p' := Place(st'.holds, st.frames[k].at.value);
        if p' < |st'.holds| { HoldMsgAt(st.holds, st.made, s, d, m, p'); }
      }
    }
    forall i | 0 <= i < |st'.holds| ensures Served(st', i) {
      HoldMsgAt(st.holds, st.made, s, d, m, i);
      var k := i - (|st'.holds| - |st.holds|);
      if k >= 0 && st.Pause(st'.holds[i].dst) == Running {
        assert Served(st, k);
        var j: nat :| Serves(st, k, j);
        ServesFlush(st, k, j);
        KeptServes(st, m, k, j);
      }
    }
  }

  // ---------------------------------------------------------------- inboxes and verdicts

  lemma FiledSnoc(st: State, s: SlotId, m: Msg)
    requires InboxesFiled(st.inbox) && m.dst == Some(s) && m.src.Some?
    ensures InboxesFiled(st.inbox[s := st.Inbox(s) + [m]])
  {
    assert Filed(st.Inbox(s), s);
    assert Filed(st.Inbox(s) + [m], s);
  }

  lemma PopFiled(inbox: map<SlotId, seq<Msg>>, s: SlotId)
    requires InboxesFiled(inbox) && s in inbox && inbox[s] != []
    ensures InboxesFiled(inbox[s := inbox[s][1..]]) && inbox[s][0].dst == Some(s)
  {
    assert Filed(inbox[s], s);
    assert Filed(inbox[s][1..], s);
  }

  lemma PopTidy(st: State, env: Env, s: SlotId)
    requires Tidy(st) && st.Inbox(s) != []
    ensures Tidy(PopOne(st, env, s)) && Tidy(Popped(st, s))
  {
    hide Tidy, InboxesFiled;
    var st1 := Popped(st, s);
    TidyInboxes(st);
    PopFiled(st.inbox, s);
    SameTidy(st, st1);
    CalledTidy(st1, st.Inbox(s)[0]);
  }

  lemma EnterSame(st: State, m: Msg, anew: bool)
    ensures Enter(st, m, anew) == st.(accepted := Enter(st, m, anew).accepted, jumped := Enter(st, m, anew).jumped)
  {
    hide Late;
  }

  lemma EnterTidy(st: State, m: Msg, anew: bool)
    requires Tidy(st)
    ensures Tidy(Enter(st, m, anew))
  {
    hide Tidy, Late;
    TidyInboxes(st);
    SameTidy(st, Enter(st, m, anew));
  }

  lemma QueuedTidy(st: State, d: SlotId, m: Msg)
    requires Tidy(st) && m.dst == Some(d) && m.src.Some?
    ensures Tidy(Queued(st, d, m))
  {
    hide Tidy;
    TidyInboxes(st);
    FiledSnoc(st, d, m);
    SameTidy(st, Queued(st, d, m));
  }

  lemma CalledTidy(st: State, m: Msg)
    requires Tidy(st)
    ensures Tidy(Called(st, m))
  {
    hide Tidy;
    HandlerTidy(st);
    TidyInboxes(st);
    SameTidy(st.(frames := st.frames + [Handling]), Called(st, m));
  }

  /** What the verdicts of the router mean. */
  ghost predicate Meant(st: State, r: Routed) {
    r.verdict.Refuse? ||
    (&& r.m.src.Some? && r.m.dst.Some? && CapsAllowed(st.conns, r.m.src.value, r.m.caps)
     && var edge := FindEdge(st.conns, r.m.src.value, r.m.dst.value);
        && edge.Some?
        && (r.verdict.HoldIt? ==> st.Pause(r.m.dst.value) != Running && edge.value.policy == Queue)
        && (r.verdict.TakeIt? ==> st.Pause(r.m.dst.value) == Running && edge.value.mode == r.verdict.mode))
  }

  lemma {:induction false} RouteMeans(st: State, env: Env, m: Msg, depth: nat, hooks: nat)
    ensures Meant(st, Route(st, env, m, depth, hooks))
    decreases REDIRECT_DEPTH_MAX - depth
  {
    hide FindEdge, CapsAllowed;
    var hop := Decide(st, env, m, depth, st.now + hooks);
    if hop.Onward? && depth < REDIRECT_DEPTH_MAX {
      RouteMeans(st, env, m.(dst := Some(hop.to)), depth + 1, hooks + 1);
    }
  }

  lemma TakeTidy(st: State, how: Mode, m: Msg, anew: bool)
    requires Tidy(st) && m.src.Some? && m.dst.Some?
    ensures Tidy(Take(st, how, m, anew).0)
  {
    hide Tidy, Enter;
    EnterTidy(st, m, anew);
    QueuedTidy(Enter(st, m, anew), m.dst.value, m);
    CalledTidy(Enter(st, m, anew), m);
  }

  lemma CarryTidy(st: State, r: Routed, anew: bool)
    requires Tidy(st) && Meant(st, r)
    ensures Tidy(Carry(st, r, anew).0)
  {
    hide Tidy, Take, Kept, Enter, FindEdge, CapsAllowed;
    var st1 := st.(now := st.now + r.hooks);
    TidyInboxes(st);
    SameTidy(st, st1);
    match r.verdict {
      case Refuse(_) =>
      case HoldIt =>
        EnterTidy(st1, r.m, anew);
        EnterSame(st1, r.m, anew);
        KeptTidy(Enter(st1, r.m, anew), r.m);
      case TakeIt(how) => TakeTidy(st1, how, r.m, anew);
    }
  }

  // ---------------------------------------------------------------- runs

  lemma StepTidy(st: State, env: Env, step: Step)
    requires Tidy(st) && Enabled(st, step)
    ensures Tidy(Next(st, env, step))
  {
    hide Tidy, Route, Carry, PopOne, DetachOne, PassOne, Opened;
    match step {
      case Put(m) =>
        RouteMeans(st, env, m, 0, 0);
        CarryTidy(st, Route(st, env, m, 0, 0), true);
      case Pop(s) => PopTidy(st, env, s);
      case Halt(s, to) => HaltTidy(st, s, to);
      case Open(s) => OpenTidy(st, s);
      case Return => UnframeTidy(st);
      case Pass => PassTidy(st);
      case Detach => DetachTidy(st);
      case Again =>
        ShiftTidy(st);
        RouteMeans(Shifted(st), env, st.Top().queue[0], 0, 0);
        CarryTidy(Shifted(st), Route(Shifted(st), env, st.Top().queue[0], 0, 0), false);
      case Close => UnframeTidy(st);
    }
  }

  /** On every run each pair has one hold entry, everything is filed where it belongs, and
      what is held for an open slot lies ahead of a flush of it. */
  lemma {:induction false} RunTidy(st: State, env: Env, steps: seq<Step>)
    requires Tidy(st) && Run(st, env, steps).Some?
    ensures Tidy(Run(st, env, steps).value)
  {
    hide Tidy, Next, Enabled;
    if steps != [] {
      RunTidy(st, env, steps[..|steps| - 1]);
      StepTidy(Run(st, env, steps[..|steps| - 1]).value, env, steps[|steps| - 1]);
    }
  }

  /** A fresh router: nothing queued, held, recorded or running. */
  ghost predicate Fresh(st: State) {
    st.inbox == map[] && st.holds == [] && st.frames == [] && st.accepted == [] && st.delivered == [] && st.jumped == []
  }

  lemma FreshTidy(st: State)
    requires Fresh(st)
    ensures Tidy(st)
  {
  }

  lemma {:induction false} RunFront(st: State, env: Env, steps: seq<Step>, i: nat)
    requires i < |steps| && Run(st, env, steps).Some?
    ensures Run(st, env, steps[..i]).Some? && Enabled(Run(st, env, steps[..i]).value, steps[i])
  {
    hide Next, Enabled;
    if i < |steps| - 1 {
      RunFront(st, env, steps[..|steps| - 1], i);
      assert steps[..|steps| - 1][..i] == steps[..i];
    }
  }
}
