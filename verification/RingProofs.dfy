/**
 Every run of the ring is a FIFO with exact ownership: what each step keeps,
 and what holds of every reachable state (nhi.c).
 */
module RingProofs {
  import opened RingSpec

  // ----- tickets and their order

  function Tickets(items: seq<Item>): (ts: seq<nat>)
    ensures |ts| == |items|
  {
    seq(|items|, i requires 0 <= i < |items| => items[i].ticket)
  }

  function HandedTickets(hs: seq<Handed>): (ts: seq<nat>)
    ensures |ts| == |hs|
  {
    seq(|hs|, i requires 0 <= i < |hs| => hs[i].item.ticket)
  }

  function Iota(n: nat): (ts: seq<nat>)
    ensures |ts| == n
  {
    seq(n, i => i)
  }

  function Pending(r: Ring): (items: seq<Item>) {
    r.inFlight + r.queue
  }

  /** Tickets in the order they left the ring: handed back, then waiting for their callback. */
  function Claimed(r: Ring): (ts: seq<nat>) {
    HandedTickets(r.handed) + Tickets(r.done)
  }

  /** Two tickets in the wrong order. */
  predicate Inverted(ts: seq<nat>) {
    exists i, j | 0 <= i < j < |ts| :: ts[i] > ts[j]
  }

  // ----- the invariant

  /** The frames still in the ring carry the last tickets, in order, unchanged. */
  predicate PendingOk(r: Ring) {
    var p := Pending(r);
    && |p| <= |r.accepted|
    && forall i | 0 <= i < |p| ::
         p[i].ticket == |r.accepted| - |p| + i && p[i].frame == r.accepted[p[i].ticket]
  }

  /**
   While the ring runs, slot `tail + k` belongs to `inFlight[k]`: its address,
   its record, and, when the slot is marked completed, the completion.
   */
  predicate SlotOk(r: Ring, k: nat)
    requires Shaped(r) && k < |r.inFlight| && k < r.size
  {
    var s := Slot(r.tail, k, r.size);
    var item := r.inFlight[k];
    && r.desc[s].phys == item.frame.bufferPhy
    && r.records[s].ticket == item.ticket
    && r.records[s].postedPhys == item.frame.bufferPhy
    && (Completed(r.desc[s].attributes) ==>
          item.ticket in r.completions && r.completions[item.ticket] == r.desc[s].attributes)
  }

  predicate WindowOk(r: Ring)
    requires Shaped(r)
  {
    r.running ==>
      && |r.inFlight| == Distance(r.tail, r.head, r.size)
      && forall k | 0 <= k < |r.inFlight| :: SlotOk(r, k)
  }

  /** A frame that left the ring was canceled untouched, or completed by the device. */
  predicate Settled(r: Ring, item: Item, canceled: bool) {
    && item.ticket < |r.accepted|
    && if canceled then item.frame == r.accepted[item.ticket]
       else item.ticket in r.completions
            && item.frame == Stamp(r.isTx, r.accepted[item.ticket], r.completions[item.ticket])
  }

  predicate SettledOk(r: Ring) {
    && (forall i | 0 <= i < |r.done| :: Settled(r, r.done[i], r.canceling))
    && (forall i | 0 <= i < |r.handed| :: Settled(r, r.handed[i].item, r.handed[i].canceled))
  }

  /** The claimed tickets are exactly the first ones, in order unless poll overlapped a callback. */
  predicate OrderOk(r: Ring) {
    && |Claimed(r)| + |Pending(r)| == |r.accepted|
    && multiset(Claimed(r)) == multiset(Iota(|Claimed(r)|))
    && (!r.overlapped ==> Claimed(r) == Iota(|Claimed(r)|))
    && (r.overlapped ==> Inverted(Claimed(r)))
  }

  predicate StopOk(r: Ring) {
    && (r.stopping ==> !r.running)
    && (!r.running && !r.stopping ==> Pending(r) == [] && r.done == [])
    && (r.stopping && r.canceled ==> Pending(r) == [])
  }

  function Occurrences(log: seq<nat>, s: nat): (n: nat) {
    if log == [] then 0 else Occurrences(log[..|log| - 1], s) + if log[|log| - 1] == s then 1 else 0
  }

  /** The generation of a slot's record is the number of times the slot was posted. */
  predicate GenerationOk(r: Ring) {
    |r.records| == r.size && forall s | 0 <= s < r.size :: r.records[s].generation == Occurrences(r.postLog, s)
  }

  predicate Inv(r: Ring) {
    Shaped(r) && PendingOk(r) && WindowOk(r) && SettledOk(r) && OrderOk(r) && StopOk(r) && GenerationOk(r)
  }

  /** The window depends on the indices, the descriptors and `inFlight` only. */
  lemma WindowSame(r: Ring, t: Ring)
    requires Shaped(r) && Shaped(t) && WindowOk(r)
    requires t.running ==> r.running
    requires t.running ==> t.size == r.size && t.head == r.head && t.tail == r.tail
    requires t.inFlight == r.inFlight && t.desc == r.desc && t.records == r.records && t.completions == r.completions
    ensures WindowOk(t)
  {
    if t.running {
      forall k | 0 <= k < |t.inFlight| ensures SlotOk(t, k) {
        assert SlotOk(r, k);
      }
    }
  }

  /** Only indices and flags differ. */
  predicate SameContents(r: Ring, t: Ring) {
    && t.size == r.size && t.isTx == r.isTx && t.queue == r.queue && t.inFlight == r.inFlight && t.done == r.done
    && t.canceling == r.canceling && t.desc == r.desc && t.records == r.records && t.accepted == r.accepted
    && t.handed == r.handed && t.completions == r.completions && t.postLog == r.postLog && t.overlapped == r.overlapped
  }

  lemma ContentsInv(r: Ring, t: Ring)
    requires Inv(r) && Shaped(t) && SameContents(r, t) && WindowOk(t) && StopOk(t)
    ensures Inv(t)
  {
    Moved(r, t);
  }

  lemma FreshInv(size: nat, isTx: bool)
    requires size > 0
    ensures Inv(Fresh(size, isTx))
  {
  }

  // ----- posting keeps the invariant

  lemma PostedNotCompleted(isTx: bool, f: Frame)
    ensures !Completed(PostedWord(isTx, f))
  {
    DescriptorRoundTrip(if isTx then f.size else 0, if isTx then f.eof else 0, if isTx then f.sof else 0,
                        DESC_POSTED + DESC_INTERRUPT);
  }

  lemma PostOneWindow(r: Ring)
    requires Shaped(r) && r.running && WindowOk(r) && r.queue != [] && !Full(r)
    ensures WindowOk(PostOne(r))
  {
    var t := PostOne(r);
    var n := |r.inFlight|;
    PostedNotCompleted(r.isTx, r.queue[0].frame);
    assert Slot(r.tail, n, r.size) == r.head;
    forall k | 0 <= k < |t.inFlight|
      ensures SlotOk(t, k)
    {
      if k < n {
        assert SlotOk(r, k);
        assert Slot(r.tail, k, r.size) != r.head;
      }
    }
  }

  lemma PostOneGeneration(r: Ring)
    requires Shaped(r) && r.queue != [] && GenerationOk(r)
    ensures GenerationOk(PostOne(r))
  {
    var t := PostOne(r);
    assert t.postLog[..|t.postLog| - 1] == r.postLog;
  }

  /** A step that moves frames from the queue to `inFlight` at most keeps tickets and logs. */
  lemma Moved(r: Ring, t: Ring)
    requires PendingOk(r) && SettledOk(r) && OrderOk(r)
    requires Pending(t) == Pending(r) && t.accepted == r.accepted && t.isTx == r.isTx
    requires t.done == r.done && t.handed == r.handed && t.completions == r.completions
    requires t.canceling == r.canceling && t.overlapped == r.overlapped
    ensures PendingOk(t) && SettledOk(t) && OrderOk(t)
  {
    assert Claimed(t) == Claimed(r);
  }

  lemma PostOneInv(r: Ring)
    requires Inv(r) && r.running && r.queue != [] && !Full(r)
    ensures Inv(PostOne(r))
  {
    PostOneWindow(r);
    PostOneGeneration(r);
    assert Pending(PostOne(r)) == Pending(r);
    Moved(r, PostOne(r));
  }

  lemma {:induction false} PostAllInv(r: Ring)
    requires Inv(r) && r.running
    ensures Inv(PostAll(r))
    ensures var t := PostAll(r); t.done == r.done && t.handed == r.handed && t.accepted == r.accepted && t.running
    decreases |r.queue|
  {
    if r.queue != [] && !Full(r) {
      PostOneInv(r);
      PostAllInv(PostOne(r));
    }
  }

  // ----- taking the completed tail

  lemma TakeTailWindow(r: Ring)
    requires Shaped(r) && r.running && WindowOk(r) && TailCompleted(r)
    ensures WindowOk(TakeTail(r).0)
  {
    var t := TakeTail(r).0;
    forall k | 0 <= k < |t.inFlight|
      ensures SlotOk(t, k)
    {
      assert SlotOk(r, k + 1);
      assert Slot(t.tail, k, t.size) == Slot(r.tail, k + 1, r.size);
    }
  }

  /** The frame taken at the tail is the oldest pending one, stamped by its own completion. */
  lemma TakeTailItem(r: Ring)
    requires Shaped(r) && PendingOk(r) && TailCompleted(r) && SlotOk(r, 0)
    ensures var (t, item) := TakeTail(r);
            && PendingOk(t) && Settled(t, item, false)
            && item.ticket == |r.accepted| - |Pending(r)|
            && Pending(t) == Pending(r)[1..]
  {
    assert Pending(r)[0] == r.inFlight[0];
    var t := TakeTail(r).0;
    assert Pending(t) == Pending(r)[1..];
  }

  lemma IotaSnoc(n: nat)
    ensures Iota(n) + [n] == Iota(n + 1)
  {
  }

  lemma {:induction false} InvertedInsert(a: seq<nat>, x: nat, b: seq<nat>)
    requires Inverted(a + b)
    ensures Inverted(a + [x] + b)
  {
    var s, t := a + b, a + [x] + b;
    var i, j :| 0 <= i < j < |s| && s[i] > s[j];
    var i', j' := if i < |a| then i else i + 1, if j < |a| then j else j + 1;
    assert t[i'] == s[i] && t[j'] == s[j];
  }

  /** Appending the next ticket to the claimed ones. */
  lemma ClaimNext(old_: seq<nat>, new_: seq<nat>)
    requires new_ == old_ + [|old_|] && multiset(old_) == multiset(Iota(|old_|))
    ensures multiset(new_) == multiset(Iota(|new_|))
    ensures old_ == Iota(|old_|) ==> new_ == Iota(|new_|)
    ensures Inverted(old_) ==> Inverted(new_)
  {
    IotaSnoc(|old_|);
    if Inverted(old_) {
      assert old_ + [] == old_ && old_ + [|old_|] + [] == new_;
      InvertedInsert(old_, |old_|, []);
    }
  }

  lemma CollectOneInv(r: Ring)
    requires Inv(r) && r.running && TailCompleted(r) && !r.canceling
    ensures Inv(CollectOne(r))
  {
    var t := CollectOne(r);
    TakeTailWindow(r);
    WindowSame(TakeTail(r).0, t);
    assert SlotOk(r, 0);
    TakeTailItem(r);
    assert Claimed(t) == Claimed(r) + [|Claimed(r)|];
    ClaimNext(Claimed(r), Claimed(t));
  }

  lemma {:induction false} CollectAllInv(r: Ring)
    requires Inv(r) && r.running && !r.canceling
    ensures Inv(CollectAll(r)) && CollectAll(r).running
    decreases |r.inFlight|
  {
    if TailCompleted(r) {
      CollectOneInv(r);
      CollectAllInv(CollectOne(r));
    }
  }

  // ----- the steps

  lemma StartInv(r: Ring, anchor: nat, synchronized: bool)
    requires Inv(r) && !r.stopping
    ensures Inv(StartAt(r, anchor, synchronized))
  {
    if !(r.quarantined || r.goingAway || r.running || anchor >= r.size) {
      var t := StartAt(r, anchor, synchronized);
      assert Pending(r) == [];
      assert r.inFlight == [];
      ContentsInv(r, t);
    }
  }

  lemma EnqueueInv(r: Ring, f: Frame)
    requires Inv(r)
    ensures Inv(Enqueue(r, f))
  {
    if r.running && !r.quarantined {
      var t := r.(queue := r.queue + [Item(|r.accepted|, f)], accepted := r.accepted + [f]);
      assert Pending(t) == Pending(r) + [Item(|r.accepted|, f)];
      assert Claimed(t) == Claimed(r);
      WindowSame(r, t);
      PostAllInv(t);
    }
  }

  lemma DeviceWindow(r: Ring, slot: nat, word: nat, m: nat)
    requires Shaped(r) && WindowOk(r) && PendingOk(r) && DeviceOwns(r, slot) && Completed(word)
    requires m < |r.inFlight| && m < r.size && Slot(r.tail, m, r.size) == slot
    ensures WindowOk(DeviceComplete(r, slot, word))
  {
    var t := DeviceComplete(r, slot, word);
    assert SlotOk(r, m) && Pending(r)[m] == r.inFlight[m];
    forall k | 0 <= k < |t.inFlight| ensures SlotOk(t, k) {
      assert SlotOk(r, k) && Pending(r)[k] == r.inFlight[k];
    }
  }

  lemma DeviceSettled(r: Ring, slot: nat, word: nat, m: nat)
    requires Shaped(r) && WindowOk(r) && PendingOk(r) && SettledOk(r) && OrderOk(r)
    requires DeviceOwns(r, slot) && Completed(word)
    requires m < |r.inFlight| && m < r.size && Slot(r.tail, m, r.size) == slot
    ensures SettledOk(DeviceComplete(r, slot, word))
  {
    assert SlotOk(r, m) && Pending(r)[m] == r.inFlight[m];
    ClaimedSmall(r);
  }

  lemma DeviceInv(r: Ring, slot: nat, word: nat)
    requires Inv(r)
    ensures Inv(DeviceComplete(r, slot, word))
  {
    if DeviceOwns(r, slot) && Completed(word) {
      var t := DeviceComplete(r, slot, word);
      var m :| 0 <= m < |r.inFlight| && m < r.size && Slot(r.tail, m, r.size) == slot;
      DeviceWindow(r, slot, word, m);
      DeviceSettled(r, slot, word, m);
      assert Pending(t) == Pending(r) && Claimed(t) == Claimed(r);
    }
  }

  /** Claimed tickets are older than every pending ticket. */
  lemma ClaimedSmall(r: Ring)
    requires OrderOk(r)
    ensures forall i | 0 <= i < |r.done| :: r.done[i].ticket < |r.accepted| - |Pending(r)|
    ensures forall i | 0 <= i < |r.handed| :: r.handed[i].item.ticket < |r.accepted| - |Pending(r)|
  {
    var c := Claimed(r);
    forall i | 0 <= i < |c|
      ensures c[i] < |c|
    {
      assert c[i] in multiset(c);
      assert c[i] in Iota(|c|);
    }
    forall i | 0 <= i < |r.done|
      ensures r.done[i].ticket < |c|
    {
      assert c[|r.handed| + i] == r.done[i].ticket;
    }
    forall i | 0 <= i < |r.handed|
      ensures r.handed[i].item.ticket < |c|
    {
      assert c[i] == r.handed[i].item.ticket;
    }
  }

  lemma IotaAppend(a: nat, ts: seq<nat>)
    requires forall i | 0 <= i < |ts| :: ts[i] == a + i
    ensures Iota(a) + ts == Iota(a + |ts|)
  {
  }

  lemma CancelOrder(r: Ring)
    requires Shaped(r) && PendingOk(r) && OrderOk(r) && !r.running && r.done == []
    ensures OrderOk(Collect(r))
  {
    var t := Collect(r);
    var c := Claimed(r);
    assert Claimed(t) == c + Tickets(Pending(r));
    IotaAppend(|c|, Tickets(Pending(r)));
    assert multiset(Claimed(t)) == multiset(c) + multiset(Tickets(Pending(r)));
    if r.overlapped {
      InvertedPrefix(c, Tickets(Pending(r)));
    }
  }

  lemma CancelInv(r: Ring)
    requires Inv(r) && !r.running && r.done == []
    ensures Inv(Collect(r))
  {
    CancelOrder(r);
  }

  lemma CollectInv(r: Ring)
    requires Inv(r)
    ensures Inv(Collect(r))
  {
    if r.done == [] {
      if r.running {
        var t := r.(canceling := false);
        assert Pending(t) == Pending(r) && Claimed(t) == Claimed(r);
        WindowSame(r, t);
        CollectAllInv(t);
        PostAllInv(CollectAll(t));
      } else {
        CancelInv(r);
      }
    }
  }

  lemma DeliverInv(r: Ring)
    requires Inv(r)
    ensures Inv(Deliver(r))
  {
    if r.done != [] {
      var t := Deliver(r);
      assert Claimed(t) == Claimed(r);
      assert Pending(t) == Pending(r);
      WindowSame(r, t);
    }
  }

  /** The next ticket put before the tickets `d` that are still waiting. */
  lemma ClaimBefore(h: seq<nat>, d: seq<nat>, c: seq<nat>, t: seq<nat>)
    requires c == h + d && t == h + [|c|] + d && multiset(c) == multiset(Iota(|c|))
    ensures multiset(t) == multiset(Iota(|t|))
    ensures d != [] ==> Inverted(t)
    ensures Inverted(c) ==> Inverted(t)
  {
    ClaimNext(c, c + [|c|]);
    assert multiset(t) == multiset(c + [|c|]);
    if d != [] {
      assert c[|h|] == d[0] && c[|h|] in multiset(c);
      assert d[0] in Iota(|c|);
      assert t[|h|] > t[|h| + 1];
    }
    if Inverted(c) {
      InvertedInsert(h, |c|, d);
    }
  }

  lemma PollOrder(r: Ring)
    requires Shaped(r) && PendingOk(r) && OrderOk(r) && r.running && !r.goingAway && TailCompleted(r) && SlotOk(r, 0)
    ensures OrderOk(Poll(r))
  {
    var t := Poll(r);
    TakeTailItem(r);
    var h, d, c := HandedTickets(r.handed), Tickets(r.done), Claimed(r);
    assert Claimed(t) == h + [|c|] + d;
    ClaimBefore(h, d, c, Claimed(t));
    if d == [] {
      assert Claimed(t) == c + [|c|];
      ClaimNext(c, Claimed(t));
    }
  }

  lemma PollInv(r: Ring)
    requires Inv(r)
    ensures Inv(Poll(r))
  {
    if r.running && !r.goingAway && TailCompleted(r) {
      TakeTailWindow(r);
      WindowSame(TakeTail(r).0, Poll(r));
      assert SlotOk(r, 0);
      TakeTailItem(r);
      PollOrder(r);
    }
  }

  lemma StepInv(r: Ring, op: Op)
    requires Inv(r)
    ensures Inv(Step(r, op))
  {
    match op {
      case OpStart(index, readback) => if !r.stopping {
        var anchor := Anchor(r.isTx, index);
        StartInv(r, anchor, IndicesMatch(anchor, readback));
      }
      case OpEnqueue(f) => EnqueueInv(r, f);
      case OpDevice(slot, word) => DeviceInv(r, slot, word);
      case OpCollect => CollectInv(r);
      case OpDeliver => DeliverInv(r);
      case OpPoll => PollInv(r);
      case OpStop => StopInv(r);
      case OpStopReturns => StopReturnsInv(r);
      case OpQuarantine => QuarantineInv(r);
      case OpGoAway => GoAwayInv(r);
    }
  }

  lemma StopInv(r: Ring)
    requires Inv(r)
    ensures Inv(Stop(r))
  {
    var t := Stop(r);
    WindowSame(r, t);
    ContentsInv(r, t);
  }

  lemma StopReturnsInv(r: Ring)
    requires Inv(r)
    ensures Inv(StopReturns(r))
  {
    var t := StopReturns(r);
    WindowSame(r, t);
    ContentsInv(r, t);
  }

  lemma QuarantineInv(r: Ring)
    requires Inv(r)
    ensures Inv(Quarantine(r))
  {
    WindowSame(r, Quarantine(r));
    ContentsInv(r, Quarantine(r));
  }

  lemma GoAwayInv(r: Ring)
    requires Inv(r)
    ensures Inv(GoAway(r))
  {
    WindowSame(r, GoAway(r));
    ContentsInv(r, GoAway(r));
  }

  /** Every reachable state of every ring satisfies the invariant. */
  lemma {:induction false} RunInv(size: nat, isTx: bool, ops: seq<Op>)
    requires size > 0
    ensures Inv(Run(Fresh(size, isTx), ops))
    decreases ops
  {
    if ops == [] {
      FreshInv(size, isTx);
    } else {
      RunInv(size, isTx, ops[..|ops| - 1]);
      StepInv(Run(Fresh(size, isTx), ops[..|ops| - 1]), ops[|ops| - 1]);
    }
  }

  // ----- what holds of every run

  /** All tickets: handed back, waiting for their callback, in flight, queued. */
  function Everything(r: Ring): (ts: seq<nat>) {
    HandedTickets(r.handed) + Tickets(r.done) + Tickets(r.inFlight) + Tickets(r.queue)
  }

  lemma EverythingSplit(r: Ring)
    ensures Everything(r) == Claimed(r) + Tickets(Pending(r))
  {
  }

  lemma EverythingOrder(r: Ring)
    requires PendingOk(r) && OrderOk(r)
    ensures multiset(Everything(r)) == multiset(Iota(|r.accepted|))
    ensures !r.overlapped ==> Everything(r) == Iota(|r.accepted|)
    ensures r.overlapped ==> Inverted(Everything(r))
  {
    EverythingSplit(r);
    var c, p := Claimed(r), Tickets(Pending(r));
    IotaAppend(|c|, p);
    assert multiset(c + p) == multiset(c) + multiset(p) == multiset(Iota(|c|) + p);
    if r.overlapped {
      InvertedPrefix(c, p);
    }
  }

  lemma InvertedPrefix(c: seq<nat>, p: seq<nat>)
    requires Inverted(c)
    ensures Inverted(c + p)
  {
    var i, j :| 0 <= i < j < |c| && c[i] > c[j];
    assert (c + p)[i] > (c + p)[j];
  }

  /**
   The ring is a FIFO. Each accepted frame is in exactly one place; and the
   frames handed back, the callbacks outstanding, `inFlight` and `queue` spell
   out the accepted sequence in order if and only if no poll ever took a frame
   while callbacks of an earlier batch were outstanding.
   */
  lemma FifoRefinement(size: nat, isTx: bool, ops: seq<Op>, r: Ring)
    requires size > 0 && r == Run(Fresh(size, isTx), ops)
    ensures multiset(Everything(r)) == multiset(Iota(|r.accepted|))
    ensures Everything(r) == Iota(|r.accepted|) <==> !AnyOverlap(Fresh(size, isTx), ops)
    ensures forall i | 0 <= i < |r.handed| :: Settled(r, r.handed[i].item, r.handed[i].canceled)
  {
    RunInv(size, isTx, ops);
    EverythingOrder(r);
    OverlapExact(Fresh(size, isTx), ops);
  }

  /** A step is an overlapping poll: it takes a frame past the callbacks still outstanding. */
  predicate Overlaps(r: Ring, op: Op)
    requires Shaped(r)
  {
    op.OpPoll? && r.running && !r.goingAway && TailCompleted(r) && r.done != []
  }

  lemma {:induction false} PostAllLogs(r: Ring)
    requires Shaped(r)
    ensures SameFlags(r, PostAll(r))
    decreases |r.queue|
  {
    if r.queue != [] && !Full(r) {
      PostAllLogs(PostOne(r));
    }
  }

  lemma CollectOneLogs(r: Ring)
    requires Shaped(r) && TailCompleted(r)
    ensures SameFlags(r, CollectOne(r))
  {
  }

  lemma {:induction false} CollectAllLogs(r: Ring)
    requires Shaped(r)
    ensures SameFlags(r, CollectAll(r))
    decreases |r.inFlight|
  {
    if TailCompleted(r) {
      CollectOneLogs(r);
      CollectAllLogs(CollectOne(r));
    }
  }

  predicate SameFlags(r: Ring, t: Ring) {
    t.overlapped == r.overlapped && t.accepted == r.accepted && t.quarantined == r.quarantined && t.running == r.running
  }

  lemma CollectLogs(r: Ring)
    requires Shaped(r)
    ensures SameFlags(r, Collect(r))
  {
    if r.done == [] && r.running {
      var t := r.(canceling := false);
      CollectAllLogs(t);
      PostAllLogs(CollectAll(t));
    }
  }

  /** What one step does to the logs and flags, whatever the state. */
  predicate LogsOk(r: Ring, op: Op, t: Ring)
    requires Shaped(r)
  {
    && t.overlapped == (r.overlapped || Overlaps(r, op))
    && (r.quarantined ==> t.quarantined && t.accepted == r.accepted)
    && (r.quarantined && !r.running ==> !t.running)
  }

  lemma EnqueueLogs(r: Ring, f: Frame)
    requires Shaped(r)
    ensures LogsOk(r, OpEnqueue(f), Enqueue(r, f))
  {
    if r.running && !r.quarantined {
      PostAllLogs(r.(queue := r.queue + [Item(|r.accepted|, f)], accepted := r.accepted + [f]));
    }
  }

  lemma PollLogs(r: Ring)
    requires Shaped(r)
    ensures LogsOk(r, OpPoll, Poll(r))
  {
  }

  lemma StartLogs(r: Ring, index: nat, readback: nat)
    requires Shaped(r)
    ensures LogsOk(r, OpStart(index, readback), Start(r, index, readback))
  {
  }

  lemma DeviceLogs(r: Ring, slot: nat, word: nat)
    requires Shaped(r)
    ensures LogsOk(r, OpDevice(slot, word), DeviceComplete(r, slot, word))
  {
  }

  lemma FlagLogs(r: Ring, op: Op)
    requires Shaped(r) && (op.OpDeliver? || op.OpStop? || op.OpStopReturns? || op.OpQuarantine? || op.OpGoAway?)
    ensures LogsOk(r, op, Step(r, op))
  {
  }

  lemma StepLogs(r: Ring, op: Op)
    requires Shaped(r)
    ensures LogsOk(r, op, Step(r, op))
  {
    match op {
      case OpEnqueue(f) => EnqueueLogs(r, f);
      case OpCollect => CollectLogs(r);
      case OpPoll => PollLogs(r);
      case OpStart(index, readback) => StartLogs(r, index, readback);
      case OpDevice(slot, word) => DeviceLogs(r, slot, word);
      case _ => FlagLogs(r, op);
    }
  }

  /** Some step of the run is an overlapping poll. */
  predicate AnyOverlap(r: Ring, ops: seq<Op>)
    requires Shaped(r)
    decreases ops
  {
    ops != [] && var front := ops[..|ops| - 1];
                 AnyOverlap(r, front) || Overlaps(Run(r, front), ops[|ops| - 1])
  }

  /** The order is lost exactly by an overlapping poll somewhere in the run. */
  lemma {:induction false} OverlapExact(r: Ring, ops: seq<Op>)
    requires Shaped(r) && !r.overlapped
    ensures Run(r, ops).overlapped <==> AnyOverlap(r, ops)
    decreases ops
  {
    if ops != [] {
      var front := ops[..|ops| - 1];
      OverlapExact(r, front);
      StepLogs(Run(r, front), ops[|ops| - 1]);
    }
  }

  /** Quarantine is permanent: no later run accepts a frame or starts the stopped ring. */
  lemma {:induction false} QuarantinePermanent(r: Ring, ops: seq<Op>)
    requires Shaped(r) && r.quarantined
    ensures var t := Run(r, ops); t.quarantined && t.accepted == r.accepted && (!r.running ==> !t.running)
    decreases ops
  {
    if ops != [] {
      QuarantinePermanent(r, ops[..|ops| - 1]);
      StepLogs(Run(r, ops[..|ops| - 1]), ops[|ops| - 1]);
    }
  }

  /** Once a stop has returned and the ring was not started again, every accepted frame was handed back. */
  lemma StoppedMeansReturned(size: nat, isTx: bool, ops: seq<Op>, r: Ring)
    requires size > 0 && r == Run(Fresh(size, isTx), ops) && !r.running && !r.stopping
    ensures |r.handed| == |r.accepted| && multiset(HandedTickets(r.handed)) == multiset(Iota(|r.accepted|))
  {
    RunInv(size, isTx, ops);
    assert Claimed(r) == HandedTickets(r.handed);
  }

  lemma {:induction false} DeliverAllInv(r: Ring)
    requires Inv(r)
    ensures Inv(DeliverAll(r))
    decreases |r.done|
  {
    if r.done != [] {
      DeliverInv(r);
      DeliverAllInv(Deliver(r));
    }
  }

  /** The state a stop leaves once its cancel work has run and every callback returned. */
  lemma FlushedInv(r: Ring)
    requires Inv(r) && r.stopping && r.done == []
    ensures var t := DeliverAll(Collect(r));
            Inv(t) && t.stopping && t.canceled && t.done == [] && t.accepted == r.accepted && t.quarantined == r.quarantined
  {
    CollectInv(r);
    var c := Collect(r);
    DeliverAllShaped(c);
    DeliverAllInv(c);
    DeliverAllCanceled(c);
  }

  lemma StopFlags(r: Ring)
    ensures var t := Stop(r); t.stopping && !t.running && t.accepted == r.accepted && t.quarantined == r.quarantined
  {
  }

  lemma ReturnFlags(r: Ring)
    requires r.stopping && r.canceled && r.done == []
    ensures var t := StopReturns(r);
            && !t.stopping && t.running == r.running && t.done == []
            && t.accepted == r.accepted && t.quarantined == r.quarantined
  {
  }

  /** A stop that returns has canceled or delivered every frame the ring ever accepted. */
  lemma StopHandsBackAll(r: Ring)
    requires Inv(r)
    ensures var t := StopAndFlush(r);
            && Inv(t) && !t.running && !t.stopping && Pending(t) == [] && t.done == []
            && t.accepted == r.accepted && t.quarantined == r.quarantined
            && |t.handed| == |t.accepted|
  {
    StopInv(r);
    StopFlags(r);
    DeliverAllShaped(Stop(r));
    DeliverAllInv(Stop(r));
    var b := DeliverAll(Stop(r));
    FlushedInv(b);
    var c := DeliverAll(Collect(b));
    StopReturnsInv(c);
    ReturnFlags(c);
  }

  lemma {:induction false} DeliverAllCanceled(r: Ring)
    ensures DeliverAll(r).canceled == r.canceled
    decreases |r.done|
  {
    if r.done != [] {
      DeliverAllCanceled(Deliver(r));
    }
  }

  // ----- the ring as a queue of tickets

  /** Tickets accepted and not handed back, oldest first; slots, indices and stages are forgotten. */
  function Outstanding(r: Ring): (ts: seq<nat>) {
    Tickets(r.done) + Tickets(Pending(r))
  }

  lemma TicketsJoined(a: seq<Item>, b: seq<Item>)
    ensures Tickets(a + b) == Tickets(a) + Tickets(b)
  {
  }

  lemma {:induction false} PostAllKeeps(r: Ring)
    requires Shaped(r)
    ensures Outstanding(PostAll(r)) == Outstanding(r) && PostAll(r).handed == r.handed
    decreases |r.queue|
  {
    if r.queue != [] && !Full(r) {
      assert Pending(PostOne(r)) == Pending(r);
      PostAllKeeps(PostOne(r));
    }
  }

  lemma EnqueueAppends(r: Ring, f: Frame)
    requires Shaped(r) && r.running && !r.quarantined
    ensures Outstanding(Enqueue(r, f)) == Outstanding(r) + [|r.accepted|]
  {
    var t := r.(queue := r.queue + [Item(|r.accepted|, f)], accepted := r.accepted + [f]);
    assert Pending(t) == Pending(r) + [Item(|r.accepted|, f)];
    PostAllKeeps(t);
  }

  lemma CollectOneKeeps(r: Ring)
    requires Shaped(r) && TailCompleted(r)
    ensures Outstanding(CollectOne(r)) == Outstanding(r)
  {
    var t := CollectOne(r);
    assert Pending(r) == [r.inFlight[0]] + Pending(t);
    TicketsJoined([r.inFlight[0]], Pending(t));
  }

  lemma {:induction false} CollectAllKeeps(r: Ring)
    requires Shaped(r)
    ensures Outstanding(CollectAll(r)) == Outstanding(r) && CollectAll(r).handed == r.handed
    decreases |r.inFlight|
  {
    if TailCompleted(r) {
      CollectOneKeeps(r);
      CollectAllKeeps(CollectOne(r));
    }
  }

  lemma CollectKeeps(r: Ring)
    requires Shaped(r)
    ensures Outstanding(Collect(r)) == Outstanding(r) && Collect(r).handed == r.handed
  {
    if r.done == [] && r.running {
      var t := r.(canceling := false);
      assert Outstanding(t) == Outstanding(r);
      CollectAllKeeps(t);
      PostAllKeeps(CollectAll(t));
    }
  }

  lemma DeliverTakesOldest(r: Ring)
    requires r.done != []
    ensures Outstanding(Deliver(r)) == Outstanding(r)[1..]
    ensures HandedTickets(Deliver(r).handed) == HandedTickets(r.handed) + [Outstanding(r)[0]]
  {
  }

  lemma {:induction false} DeliverAllTakesDone(r: Ring)
    ensures var t := DeliverAll(r);
            && HandedTickets(t.handed) == HandedTickets(r.handed) + Tickets(r.done)
            && Pending(t) == Pending(r) && t.done == []
    decreases |r.done|
  {
    if r.done != [] {
      DeliverAllTakesDone(Deliver(r));
      assert Tickets(r.done) == [r.done[0].ticket] + Tickets(Deliver(r).done);
    }
  }

  /** A poll takes the ticket behind the collected ones: the oldest exactly when none wait for a callback. */
  lemma PollTakes(r: Ring)
    requires Shaped(r) && r.running && !r.goingAway && TailCompleted(r)
    ensures var k := |r.done|;
            && k < |Outstanding(r)| && Outstanding(Poll(r)) == Outstanding(r)[..k] + Outstanding(r)[k + 1..]
            && HandedTickets(Poll(r).handed) == HandedTickets(r.handed) + [Outstanding(r)[k]]
  {
    var t := Poll(r);
    assert Pending(r) == [r.inFlight[0]] + Pending(t);
    TicketsJoined([r.inFlight[0]], Pending(t));
  }

  lemma StopKeeps(r: Ring)
    ensures var s := Stop(r); !s.running && s.done == r.done && Pending(s) == Pending(r) && s.handed == r.handed
  {
  }

  lemma CancelTakesAll(r: Ring)
    requires Shaped(r) && !r.running && r.done == []
    ensures var c := Collect(r); c.done == Pending(r) && Pending(c) == [] && c.handed == r.handed
  {
  }

  lemma ReturnKeeps(r: Ring)
    ensures Outstanding(StopReturns(r)) == Outstanding(r) && StopReturns(r).handed == r.handed
  {
  }

  /** A stop hands back everything outstanding, in order, behind what was handed back before. */
  lemma StopEmpties(r: Ring)
    requires Shaped(r)
    ensures Outstanding(StopAndFlush(r)) == []
    ensures HandedTickets(StopAndFlush(r).handed) == HandedTickets(r.handed) + Outstanding(r)
  {
    StopKeeps(r);
    var s := Stop(r);
    DeliverAllShaped(s);
    DeliverAllTakesDone(s);
    var b := DeliverAll(s);
    CancelTakesAll(b);
    DeliverAllTakesDone(Collect(b));
    ReturnKeeps(DeliverAll(Collect(b)));
  }

  // ----- completion evidence

  /** Owner and address checks of tb_ring_completion_record_complete(). */
  predicate OwnerMismatch(record: Record, item: Item) {
    record.ticket != item.ticket
  }

  predicate DmaMismatch(record: Record, completedPhys: nat, item: Item) {
    record.postedPhys != completedPhys || completedPhys != item.frame.bufferPhy
  }

  /**
   Whenever the driver sees COMPLETED at the tail of a running ring, the
   completion belongs to the current posting of that slot and to the frame at
   the front of `inFlight`; neither mismatch is ever reported.
   */
  lemma TailEvidence(size: nat, isTx: bool, ops: seq<Op>, r: Ring)
    requires size > 0 && r == Run(Fresh(size, isTx), ops)
    requires r.running && r.head != r.tail && Completed(r.desc[r.tail].attributes)
    ensures r.inFlight != []
    ensures !OwnerMismatch(r.records[r.tail], r.inFlight[0])
    ensures !DmaMismatch(r.records[r.tail], r.desc[r.tail].phys, r.inFlight[0])
    ensures r.records[r.tail].generation == Occurrences(r.postLog, r.tail)
    ensures var ticket := r.inFlight[0].ticket;
            ticket in r.completions && r.completions[ticket] == r.desc[r.tail].attributes
  {
    RunInv(size, isTx, ops);
    assert |r.inFlight| > 0;
    assert SlotOk(r, 0);
  }

  lemma ModOnce(x: nat, size: nat)
    requires size > 0 && x < 2 * size
    ensures x % size == if x < size then x else x - size
  {
    if x >= size {
      assert x == size * 1 + (x - size);
    }
  }

  lemma WindowByIndex(r: Ring, k: nat)
    requires Shaped(r) && r.running && WindowOk(r) && k < |r.inFlight|
    ensures |r.inFlight| == (r.head + r.size - r.tail) % r.size
    ensures r.desc[(r.tail + k) % r.size].phys == r.inFlight[k].frame.bufferPhy
  {
    assert SlotOk(r, k);
    ModOnce(r.head + r.size - r.tail, r.size);
    ModOnce(r.tail + k, r.size);
  }

  /** While the ring runs, `inFlight` is the window from tail to head. */
  lemma WindowMatches(size: nat, isTx: bool, ops: seq<Op>, r: Ring, k: nat)
    requires size > 0 && r == Run(Fresh(size, isTx), ops) && r.running && k < |r.inFlight|
    ensures |r.inFlight| == (r.head + r.size - r.tail) % r.size
    ensures r.desc[(r.tail + k) % r.size].phys == r.inFlight[k].frame.bufferPhy
  {
    RunInv(size, isTx, ops);
    WindowByIndex(r, k);
  }

  // ----- where postings go after a start

  lemma {:induction false} ProductFar(p: int, q: int, n: nat)
    ensures p < q ==> p * n + n <= q * n
    decreases q - p
  {
    if p + 1 < q {
      ProductFar(p, q - 1, n);
      assert q * n == (q - 1) * n + n;
    }
  }

  lemma ModUnique(x: nat, n: nat, q: int, r: nat)
    requires r < n && x == q * n + r
    ensures x % n == r
  {
    var p := x / n;
    assert x == p * n + x % n;
    ProductFar(p, q, n);
    ProductFar(q, p, n);
  }

  lemma ModNext(x: nat, n: nat)
    requires n > 0
    ensures (x % n + 1) % n == (x + 1) % n
  {
    var q, r := x / n, x % n;
    assert x == q * n + r;
    if r + 1 < n {
      ModUnique(x + 1, n, q, r + 1);
      ModUnique(r + 1, n, 0, r + 1);
    } else {
      assert (q + 1) * n == q * n + n;
      ModUnique(x + 1, n, q + 1, 0);
      ModUnique(n, n, 1, 0);
    }
  }

  /** Since `before` was logged, postings have gone to slot `i` and on around the ring, and the head is next. */
  predicate InTurn(r: Ring, i: nat, before: seq<nat>)
    requires r.size > 0
  {
    && before <= r.postLog
    && (forall k :: |before| <= k < |r.postLog| ==> r.postLog[k] == (i + k - |before|) % r.size)
    && r.head == (i + |r.postLog| - |before|) % r.size
  }

  lemma PostInTurn(r: Ring, i: nat, before: seq<nat>)
    requires Shaped(r) && r.queue != [] && InTurn(r, i, before)
    ensures InTurn(PostOne(r), i, before)
  {
    PostOneIs(r);
    ModNext(i + |r.postLog| - |before|, r.size);
  }

  lemma {:induction false} PostAllInTurn(r: Ring, i: nat, before: seq<nat>)
    requires Shaped(r) && InTurn(r, i, before)
    ensures PostAll(r).size == r.size && InTurn(PostAll(r), i, before)
    decreases |r.queue|
  {
    if r.queue != [] && !Full(r) {
      PostInTurn(r, i, before);
      PostAllInTurn(PostOne(r), i, before);
    }
  }

  lemma {:induction false} CollectAllPlaces(r: Ring)
    requires Shaped(r)
    ensures var t := CollectAll(r); t.size == r.size && t.head == r.head && t.postLog == r.postLog
    decreases |r.inFlight|
  {
    if TailCompleted(r) {
      CollectAllPlaces(CollectOne(r));
    }
  }

  lemma CollectInTurn(r: Ring, i: nat, before: seq<nat>)
    requires Shaped(r) && r.running && InTurn(r, i, before)
    ensures var t := Collect(r); t.size == r.size && t.running && InTurn(t, i, before)
  {
    if r.done == [] {
      var s := r.(canceling := false);
      CollectAllPlaces(s);
      CollectAllLogs(s);
      PostAllLogs(CollectAll(s));
      PostAllInTurn(CollectAll(s), i, before);
    }
  }

  lemma EnqueueInTurn(r: Ring, f: Frame, i: nat, before: seq<nat>)
    requires Shaped(r) && r.running && InTurn(r, i, before)
    ensures var t := Enqueue(r, f); t.size == r.size && t.running && InTurn(t, i, before)
  {
    if !r.quarantined {
      var s := r.(queue := r.queue + [Item(|r.accepted|, f)], accepted := r.accepted + [f]);
      PostAllLogs(s);
      PostAllInTurn(s, i, before);
    }
  }

  predicate SamePlaces(r: Ring, t: Ring) {
    t.size == r.size && t.running == r.running && t.head == r.head && t.postLog == r.postLog
  }

  lemma DevicePlaces(r: Ring, slot: nat, word: nat)
    requires Shaped(r)
    ensures SamePlaces(r, DeviceComplete(r, slot, word))
  {
  }

  lemma PollPlaces(r: Ring)
    requires Shaped(r)
    ensures SamePlaces(r, Poll(r))
  {
  }

  lemma StepInTurn(r: Ring, op: Op, i: nat, before: seq<nat>)
    requires Shaped(r) && r.running && InTurn(r, i, before) && !op.OpStop?
    ensures var t := Step(r, op); t.size == r.size && t.running && InTurn(t, i, before)
  {
    match op {
      case OpEnqueue(f) => EnqueueInTurn(r, f, i, before);
      case OpCollect => CollectInTurn(r, i, before);
      case OpDevice(slot, word) => DevicePlaces(r, slot, word);
      case OpPoll => PollPlaces(r);
      case _ =>
    }
  }

  lemma {:induction false} RunInTurn(r: Ring, ops: seq<Op>, i: nat, before: seq<nat>)
    requires Shaped(r) && r.running && InTurn(r, i, before) && (forall k :: 0 <= k < |ops| ==> !ops[k].OpStop?)
    ensures var t := Run(r, ops); t.size == r.size && t.running && InTurn(t, i, before)
    decreases ops
  {
    if ops != [] {
      RunInTurn(r, ops[..|ops| - 1], i, before);
      StepInTurn(Run(r, ops[..|ops| - 1]), ops[|ops| - 1], i, before);
    }
  }

  lemma StartedAt(r: Ring, index: nat, readback: nat, s: Ring)
    requires Shaped(r) && !r.running && s == Step(r, OpStart(index, readback)) && s.running
    ensures s.head == if r.isTx then index % 0x1_0000 else index / 0x1_0000 % 0x1_0000
    ensures s.size == r.size && InTurn(s, s.head, r.postLog)
  {
    ModUnique(s.head, s.size, 0, s.head);
  }

  /**
   A ring that starts runs from the index the device retained: until it is
   stopped, the k-th frame posted since goes to the slot k places after it.
   */
  lemma PostingsInTurn(r: Ring, index: nat, readback: nat, s: Ring, ops: seq<Op>, t: Ring)
    requires Shaped(r) && !r.running && s == Step(r, OpStart(index, readback)) && s.running
    requires t == Run(s, ops) && (forall k :: 0 <= k < |ops| ==> !ops[k].OpStop?)
    ensures t.running && t.size == r.size
    ensures InTurn(t, if r.isTx then index % 0x1_0000 else index / 0x1_0000 % 0x1_0000, r.postLog)
  {
    StartedAt(r, index, readback, s);
    RunInTurn(s, ops, s.head, r.postLog);
  }

  // ----- a poll that overtakes

  /** A receive completion with an empty payload: only the COMPLETED flag is set. */
  const DONE_WORD := 0x20_0000

  function TwoInFlight(a: Frame, b: Frame): (r: Ring) {
    Enqueue(Enqueue(StartAt(Fresh(4, false), 0, true), a), b)
  }

  lemma TwoPosted(a: Frame, b: Frame)
    ensures var r := TwoInFlight(a, b);
            && Shaped(r) && r.running && !r.goingAway && r.done == [] && !r.isTx
            && r.size == 4 && r.head == 2 && r.tail == 0 && r.queue == []
            && r.inFlight == [Item(0, a), Item(1, b)] && r.handed == []
            && !Completed(r.desc[0].attributes) && !Completed(r.desc[1].attributes)
  {
    PostedNotCompleted(false, a);
    PostedNotCompleted(false, b);
    var r1 := StartAt(Fresh(4, false), 0, true);
    var q1 := r1.(queue := [Item(0, a)], accepted := [a]);
    assert r1.queue + [Item(|r1.accepted|, a)] == [Item(0, a)] && r1.accepted + [a] == [a];
    assert PostAll(q1) == PostOne(q1);
    var r2 := PostOne(q1);
    var q2 := r2.(queue := [Item(1, b)], accepted := [a, b]);
    assert r2.queue + [Item(|r2.accepted|, b)] == [Item(1, b)] && r2.accepted + [b] == [a, b];
    assert PostAll(q2) == PostOne(q2);
  }

  /** The device completed the first frame and ring_work() collected it. */
  function FirstCollected(a: Frame, b: Frame): (r: Ring)
    ensures Shaped(r) && r.running && !r.goingAway && !r.isTx && r.size == 4
    ensures r.head == 2 && r.tail == 1 && r.inFlight == [Item(1, b)] && r.queue == []
    ensures Tickets(r.done) == [0] && r.handed == []
    ensures !Completed(r.desc[1].attributes)
  {
    TwoPosted(a, b);
    var r := TwoInFlight(a, b);
    assert Slot(0, 0, 4) == 0;
    var c := DeviceComplete(r, 0, DONE_WORD).(canceling := false);
    assert c.desc[0].attributes == DONE_WORD;
    assert CollectAll(CollectOne(c)) == CollectOne(c);
    assert Collect(DeviceComplete(r, 0, DONE_WORD)) == PostAll(CollectOne(c)) == CollectOne(c);
    Collect(DeviceComplete(r, 0, DONE_WORD))
  }

  /** The device completes the second frame while the first one waits for its callback. */
  lemma SecondCompleted(a: Frame, b: Frame, s: Ring)
    requires s == DeviceComplete(FirstCollected(a, b), 1, DONE_WORD)
    ensures Shaped(s) && s.running && !s.goingAway && TailCompleted(s)
    ensures |s.done| == 1 && Outstanding(s) == [0, 1] && s.handed == []
  {
    var r := FirstCollected(a, b);
    assert Slot(1, 0, 4) == 1;
    assert DeviceOwns(r, 1) && s.desc[1].attributes == DONE_WORD;
    assert Pending(s) == [Item(1, b)];
    assert Tickets(Pending(s)) == [1];
  }

  /** Before its callback runs, a poll hands back the second frame: order [1, 0]. */
  lemma PollThenDeliver(s: Ring)
    requires Shaped(s) && s.running && !s.goingAway && TailCompleted(s)
    requires |s.done| == 1 && Outstanding(s) == [0, 1] && s.handed == []
    ensures HandedTickets(Deliver(Poll(s)).handed) == [1, 0]
  {
    PollTakes(s);
    DeliverTakesOldest(Poll(s));
  }

  lemma RunThen(r: Ring, ops: seq<Op>, op: Op)
    requires Shaped(r)
    ensures Run(r, ops + [op]) == Step(Run(r, ops), op)
  {
    assert (ops + [op])[..|ops|] == ops;
  }

  /** Two frames are posted, and the first is completed and collected. */
  lemma CollectedRun(r: Ring, a: Frame, b: Frame) returns (ops: seq<Op>)
    requires r == Fresh(4, false)
    ensures Run(r, ops) == FirstCollected(a, b)
  {
    ops := [];
    RunThen(r, ops, OpStart(0, 0));
    ops := ops + [OpStart(0, 0)];
    assert Run(r, ops) == StartAt(r, 0, true);
    RunThen(r, ops, OpEnqueue(a));
    ops := ops + [OpEnqueue(a)];
    RunThen(r, ops, OpEnqueue(b));
    ops := ops + [OpEnqueue(b)];
    assert Run(r, ops) == TwoInFlight(a, b);
    RunThen(r, ops, OpDevice(0, DONE_WORD));
    ops := ops + [OpDevice(0, DONE_WORD)];
    RunThen(r, ops, OpCollect);
    ops := ops + [OpCollect];
  }

  /** A run of a receive ring in which a poll overtakes the callback of an older frame. */
  lemma PollOvertakes(r: Ring, a: Frame, b: Frame) returns (ops: seq<Op>)
    requires r == Fresh(4, false)
    ensures HandedTickets(Run(r, ops).handed) == [1, 0]
  {
    ops := CollectedRun(r, a, b);
    RunThen(r, ops, OpDevice(1, DONE_WORD));
    ops := ops + [OpDevice(1, DONE_WORD)];
    RunThen(r, ops, OpPoll);
    ops := ops + [OpPoll];
    RunThen(r, ops, OpDeliver);
    ops := ops + [OpDeliver];
    var s := DeviceComplete(FirstCollected(a, b), 1, DONE_WORD);
    SecondCompleted(a, b, s);
    PollThenDeliver(s);
  }
}
