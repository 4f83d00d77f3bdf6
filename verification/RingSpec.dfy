/**
 The NHI DMA ring as atomic steps over a value (nhi.c). Each step is one
 critical section of `ring->lock`, one callback of ring_work(), or one write of
 the device. The logs (`accepted`, `handed`, `completions`, `postLog`) record
 the run; the driver does not read them.
 */
module RingSpec {

  // ----- descriptor attribute words

  const DESC_COMPLETED := 0x2
  const DESC_POSTED := 0x4
  const DESC_INTERRUPT := 0x8

  /** length (12 bits), eof (4), sof (4) and flags (12), from the low end up. */
  function DescriptorWord(length: nat, eof: nat, sof: nat, flags: nat): (w: nat) {
    ((flags % 0x1000 * 0x10 + sof % 0x10) * 0x10 + eof % 0x10) * 0x1000 + length % 0x1000
  }

  function DescriptorLength(w: nat): (n: nat) { w % 0x1000 }
  function DescriptorEof(w: nat): (n: nat) { w / 0x1000 % 0x10 }
  function DescriptorSof(w: nat): (n: nat) { w / 0x1000 / 0x10 % 0x10 }
  function DescriptorFlags(w: nat): (n: nat) { w / 0x1000 / 0x10 / 0x10 % 0x1000 }

  lemma DescriptorRoundTrip(length: nat, eof: nat, sof: nat, flags: nat)
    ensures var w := DescriptorWord(length, eof, sof, flags);
            && w < 0x1_0000_0000
            && DescriptorLength(w) == length % 0x1000 && DescriptorEof(w) == eof % 0x10
            && DescriptorSof(w) == sof % 0x10 && DescriptorFlags(w) == flags % 0x1000
  {
    var f, s, e, l := flags % 0x1000, sof % 0x10, eof % 0x10, length % 0x1000;
    var w := DescriptorWord(length, eof, sof, flags);
    assert w / 0x1000 == (f * 0x10 + s) * 0x10 + e;
    assert w / 0x1000 / 0x10 == f * 0x10 + s;
    assert w / 0x1000 / 0x10 / 0x10 == f;
  }

  predicate Completed(w: nat) { DescriptorFlags(w) / DESC_COMPLETED % 2 == 1 }

  /** Where the fields of a descriptor's second word lie, in numbers. */
  lemma FieldPlaces(w: nat)
    ensures DescriptorLength(w) == w % 0x1000 && DescriptorEof(w) == w / 0x1000 % 0x10
    ensures DescriptorSof(w) == w / 0x1_0000 % 0x10 && DescriptorFlags(w) == w / 0x10_0000 % 0x1000
  {
    assert w / 0x1_0000 == w / 0x1000 / 0x10;
    assert w / 0x10_0000 == w / 0x1_0000 / 0x10;
  }

  lemma Bit(q: nat)
    ensures q % 0x1000 / 2 % 2 == q / 2 % 2
  {
    var a, r := q / 0x1000, q % 0x1000;
    assert q == 0x1000 * a + r;
    assert q / 2 == 0x800 * a + r / 2;
  }

  lemma CompletedBit(w: nat)
    ensures Completed(w) <==> w / 0x20_0000 % 2 == 1
  {
    FieldPlaces(w);
    Bit(w / 0x10_0000);
    assert w / 0x10_0000 / 2 == w / 0x20_0000;
  }

  lemma WordFields(w: nat, l: nat, e: nat, s: nat, f: nat)
    requires w < 0x1_0000_0000 && DescriptorLength(w) == l % 0x1000 && DescriptorEof(w) == e % 0x10
    requires DescriptorSof(w) == s % 0x10 && DescriptorFlags(w) == f % 0x1000
    ensures w % 0x1000 == l % 0x1000 && w / 0x1000 % 0x10 == e % 0x10
    ensures w / 0x1_0000 % 0x10 == s % 0x10 && w / 0x10_0000 == f % 0x1000
  {
    FieldPlaces(w);
  }

  // ----- state

  datatype Frame = Frame(bufferPhy: nat, size: nat, eof: nat, sof: nat, flags: nat)

  /** A frame the ring accepted; tickets number the acceptances. */
  datatype Item = Item(ticket: nat, frame: Frame)

  datatype Handed = Handed(item: Item, canceled: bool)

  datatype Desc = Desc(phys: nat, attributes: nat)

  /** tb_ring_completion_record: what was posted in a slot, and how often. */
  datatype Record = Record(generation: nat, ticket: nat, postedPhys: nat)

  datatype Ring = Ring(
    size: nat, isTx: bool,
    head: nat, tail: nat,
    running: bool, quarantined: bool, goingAway: bool,
    queue: seq<Item>, inFlight: seq<Item>,
    done: seq<Item>, canceling: bool,
    stopping: bool, canceled: bool,
    desc: seq<Desc>, records: seq<Record>,
    accepted: seq<Frame>, handed: seq<Handed>,
    completions: map<nat, nat>, postLog: seq<nat>, overlapped: bool)

  function Next(i: nat, size: nat): (j: nat)
    requires i < size
    ensures j == if i + 1 == size then 0 else i + 1
  {
    (i + 1) % size
  }

  /** The slot `k` places after `tail`. */
  function Slot(tail: nat, k: nat, size: nat): (s: nat)
    requires tail < size && k < size
    ensures s < size
  {
    if tail + k < size then tail + k else tail + k - size
  }

  function Distance(tail: nat, head: nat, size: nat): (n: nat)
    requires tail < size && head < size
    ensures n < size && Slot(tail, n, size) == head
  {
    if tail <= head then head - tail else head + size - tail
  }

  /** tb_ring_alloc() */
  function Fresh(size: nat, isTx: bool): (r: Ring) {
    Ring(size, isTx, 0, 0, false, false, false, [], [], [], false, false, false,
         seq(size, _ => Desc(0, 0)), seq(size, _ => Record(0, 0, 0)), [], [], map[], [], false)
  }

  // ----- posting

  predicate Full(r: Ring)
    requires r.head < r.size
  {
    Next(r.head, r.size) == r.tail
  }

  function PostedWord(isTx: bool, f: Frame): (w: nat) {
    DescriptorWord(if isTx then f.size else 0, if isTx then f.eof else 0, if isTx then f.sof else 0,
                   DESC_POSTED + DESC_INTERRUPT)
  }

  /** What the device reads in a posted slot: the frame's buffer, its metadata if it is sent, flags 0xC. */
  predicate Published(isTx: bool, d: Desc, f: Frame) {
    && d.phys == f.bufferPhy && d.attributes / 0x10_0000 == 0xC
    && d.attributes % 0x1000 == (if isTx then f.size % 0x1000 else 0)
    && d.attributes / 0x1000 % 0x10 == (if isTx then f.eof % 0x10 else 0)
    && d.attributes / 0x1_0000 % 0x10 == (if isTx then f.sof % 0x10 else 0)
  }

  lemma PostedFields(isTx: bool, f: Frame)
    ensures Published(isTx, Desc(f.bufferPhy, PostedWord(isTx, f)), f)
  {
    var l, e, s := if isTx then f.size else 0, if isTx then f.eof else 0, if isTx then f.sof else 0;
    DescriptorRoundTrip(l, e, s, DESC_POSTED + DESC_INTERRUPT);
    WordFields(PostedWord(isTx, f), l, e, s, 0xC);
  }

  predicate Shaped(r: Ring) {
    && r.head < r.size && r.tail < r.size
    && |r.desc| == r.size && |r.records| == r.size
  }

  /** One turn of the loop of ring_write_descriptors(). */
  function PostOne(r: Ring): (t: Ring)
    requires Shaped(r) && r.queue != []
  {
    var item := r.queue[0];
    r.(queue := r.queue[1..],
       inFlight := r.inFlight + [item],
       desc := r.desc[r.head := Desc(item.frame.bufferPhy, PostedWord(r.isTx, item.frame))],
       records := r.records[r.head := Record(r.records[r.head].generation + 1, item.ticket, item.frame.bufferPhy)],
       postLog := r.postLog + [r.head],
       head := Next(r.head, r.size))
  }

  /** The oldest waiting frame is published at the head, which moves on by one; no other slot changes. */
  lemma PostOneIs(r: Ring)
    requires Shaped(r) && r.queue != []
    ensures var t := PostOne(r);
            && Published(r.isTx, t.desc[r.head], r.queue[0].frame)
            && t.desc[..r.head] == r.desc[..r.head] && t.desc[r.head + 1..] == r.desc[r.head + 1..]
            && t.records[r.head].ticket == r.queue[0].ticket
            && t.records[..r.head] == r.records[..r.head] && t.records[r.head + 1..] == r.records[r.head + 1..]
            && r.queue == [r.queue[0]] + t.queue && t.inFlight == r.inFlight + [r.queue[0]]
            && t.postLog == r.postLog + [r.head] && t.head == (r.head + 1) % r.size && t.tail == r.tail
  {
    PostedFields(r.isTx, r.queue[0].frame);
  }

  /** No frame is in flight, or the device has not set the completed bit of the slot at the tail. */
  predicate Drained(r: Ring)
    requires Shaped(r)
  {
    r.head == r.tail || r.desc[r.tail].attributes / 0x20_0000 % 2 == 0
  }

  lemma PostDrained(r: Ring)
    requires Shaped(r) && r.queue != [] && Drained(r)
    ensures Drained(PostOne(r))
  {
    PostOneIs(r);
    assert 0xC / 2 % 2 == 0;
    var w := PostOne(r).desc[r.head].attributes;
    assert w / 0x20_0000 == w / 0x10_0000 / 2;
  }

  function PostAll(r: Ring): (t: Ring)
    requires Shaped(r)
    ensures Shaped(t)
    decreases |r.queue|
  {
    if r.queue == [] || Full(r) then r else PostAll(PostOne(r))
  }

  // ----- completion

  /** Receive frames take their metadata from the completed descriptor. */
  function Stamp(isTx: bool, f: Frame, w: nat): (g: Frame) {
    if isTx then f
    else f.(size := DescriptorLength(w), eof := DescriptorEof(w), sof := DescriptorSof(w), flags := DescriptorFlags(w))
  }

  /** The frame handed back for `f`: a received one carries what the device wrote in its descriptor word. */
  predicate Received(isTx: bool, f: Frame, w: nat, g: Frame) {
    && g.bufferPhy == f.bufferPhy
    && (isTx ==> g == f)
    && (!isTx ==> g.size == w % 0x1000 && g.eof == w / 0x1000 % 0x10 && g.sof == w / 0x1_0000 % 0x10
                  && g.flags == w / 0x10_0000 % 0x1000)
  }

  lemma StampFields(isTx: bool, f: Frame, w: nat)
    ensures Received(isTx, f, w, Stamp(isTx, f, w))
  {
    FieldPlaces(w);
  }

  predicate TailCompleted(r: Ring)
    requires Shaped(r)
  {
    r.head != r.tail && r.inFlight != [] && Completed(r.desc[r.tail].attributes)
  }

  /** The completed frame at the tail leaves `inFlight` and the tail advances. */
  function TakeTail(r: Ring): (t: (Ring, Item))
    requires Shaped(r) && TailCompleted(r)
  {
    var item := r.inFlight[0];
    var stamped := Item(item.ticket, Stamp(r.isTx, item.frame, r.desc[r.tail].attributes));
    (r.(inFlight := r.inFlight[1..], tail := Next(r.tail, r.size)), stamped)
  }

  function CollectOne(r: Ring): (t: Ring)
    requires Shaped(r) && TailCompleted(r)
  {
    var (t, item) := TakeTail(r);
    t.(done := t.done + [item])
  }

  function CollectAll(r: Ring): (t: Ring)
    requires Shaped(r)
    ensures Shaped(t)
    decreases |r.inFlight|
  {
    if TailCompleted(r) then CollectAll(CollectOne(r)) else r
  }

  // ----- steps

  /** Index register: producer in the high half, consumer in the low half. */
  function Anchor(isTx: bool, index: nat): (a: nat) {
    if isTx then index % 0x1_0000 else index / 0x1_0000 % 0x1_0000
  }

  predicate IndicesMatch(anchor: nat, index: nat) {
    index / 0x1_0000 % 0x1_0000 == anchor && index % 0x1_0000 == anchor
  }

  /** The ring starts at `anchor` if the device agreed to it. */
  function StartAt(r: Ring, anchor: nat, synchronized: bool): (t: Ring) {
    if r.quarantined || r.goingAway || r.running || anchor >= r.size then r
    else r.(head := anchor, tail := anchor, running := synchronized)
  }

  /** tb_ring_start(): rebase to the retained index, read it back, run. */
  function Start(r: Ring, index: nat, readback: nat): (t: Ring) {
    var anchor := Anchor(r.isTx, index);
    StartAt(r, anchor, IndicesMatch(anchor, readback))
  }

  /** __tb_ring_enqueue(); refused with -ESHUTDOWN unless running and not quarantined. */
  function Enqueue(r: Ring, f: Frame): (t: Ring)
    requires Shaped(r)
  {
    if r.running && !r.quarantined then
      PostAll(r.(queue := r.queue + [Item(|r.accepted|, f)], accepted := r.accepted + [f]))
    else r
  }

  /** The device may complete a slot it currently owns, once, and never changes its address. */
  predicate DeviceOwns(r: Ring, slot: nat)
    requires Shaped(r)
  {
    && r.running && slot < r.size
    && (exists k | 0 <= k < |r.inFlight| && k < r.size :: Slot(r.tail, k, r.size) == slot)
    && !Completed(r.desc[slot].attributes)
  }

  function DeviceComplete(r: Ring, slot: nat, word: nat): (t: Ring)
    requires Shaped(r)
  {
    if DeviceOwns(r, slot) && Completed(word) then
      r.(desc := r.desc[slot := r.desc[slot].(attributes := word)],
         completions := r.completions[r.records[slot].ticket := word])
    else r
  }

  /** The locked part of ring_work(). Work is not re-entrant: it waits for its own callbacks. */
  function Collect(r: Ring): (t: Ring)
    requires Shaped(r)
  {
    if r.done != [] then r
    else if !r.running then
      r.(done := r.inFlight + r.queue, inFlight := [], queue := [], canceling := true, canceled := true)
    else PostAll(CollectAll(r.(canceling := false)))
  }

  /** A shaped ring whose window, while it runs, has as many slots as frames in flight. */
  predicate Ready(r: Ring) {
    Shaped(r) && (r.running ==> |r.inFlight| == Distance(r.tail, r.head, r.size))
  }

  lemma PostReady(r: Ring)
    requires Ready(r) && r.running && r.queue != [] && !Full(r)
    ensures Ready(PostOne(r))
  {
  }

  /** One callback of ring_work(), run without the lock. */
  function Deliver(r: Ring): (t: Ring) {
    if r.done == [] then r
    else r.(done := r.done[1..], handed := r.handed + [Handed(r.done[0], r.canceling)])
  }

  function DeliverAll(r: Ring): (t: Ring)
    decreases |r.done|
  {
    if r.done == [] then r else DeliverAll(Deliver(r))
  }

  /** tb_ring_poll() */
  function Poll(r: Ring): (t: Ring)
    requires Shaped(r)
  {
    if !r.running || r.goingAway || !TailCompleted(r) then r
    else
      var (t, item) := TakeTail(r);
      t.(handed := t.handed + [Handed(item, false)], overlapped := r.overlapped || r.done != [])
  }

  /** tb_ring_stop() up to the flush of the cancel work. */
  function Stop(r: Ring): (t: Ring) {
    if r.running then r.(head := 0, tail := 0, running := false, stopping := true, canceled := false)
    else r.(stopping := true, canceled := false)
  }

  /** tb_ring_stop() returns once the work it scheduled has finished. */
  function StopReturns(r: Ring): (t: Ring) {
    if r.stopping && r.canceled && r.done == [] then r.(stopping := false) else r
  }

  /**
   All of tb_ring_stop(): work that was running finishes its callbacks, then the
   cancel work runs and its callbacks are waited for.
   */
  function StopAndFlush(r: Ring): (t: Ring)
    requires Shaped(r)
  {
    var s := DeliverAll(Stop(r));
    DeliverAllShaped(Stop(r));
    StopReturns(DeliverAll(Collect(s)))
  }

  lemma {:induction false} DeliverAllShaped(r: Ring)
    requires Shaped(r)
    ensures Shaped(DeliverAll(r)) && DeliverAll(r).done == []
    ensures var t := DeliverAll(r);
            t.running == r.running && t.stopping == r.stopping && t.accepted == r.accepted && t.quarantined == r.quarantined
    decreases |r.done|
  {
    if r.done != [] {
      DeliverAllShaped(Deliver(r));
    }
  }

  /** tb_ring_quarantine() closes admission; Stop follows. */
  function Quarantine(r: Ring): (t: Ring) {
    r.(quarantined := true)
  }

  function GoAway(r: Ring): (t: Ring) {
    r.(goingAway := true)
  }

  datatype Op =
    | OpStart(index: nat, readback: nat)
    | OpEnqueue(frame: Frame)
    | OpDevice(slot: nat, word: nat)
    | OpCollect
    | OpDeliver
    | OpPoll
    | OpStop
    | OpStopReturns
    | OpQuarantine
    | OpGoAway

  /** Start must not run in parallel with stop (nhi.c); a start inside a stop is not a step. */
  function Step(r: Ring, op: Op): (t: Ring)
    requires Shaped(r)
    ensures Shaped(t)
  {
    match op
    case OpStart(index, readback) => if r.stopping then r else Start(r, index, readback)
    case OpEnqueue(f) => Enqueue(r, f)
    case OpDevice(slot, word) => DeviceComplete(r, slot, word)
    case OpCollect => Collect(r)
    case OpDeliver => Deliver(r)
    case OpPoll => Poll(r)
    case OpStop => Stop(r)
    case OpStopReturns => StopReturns(r)
    case OpQuarantine => Quarantine(r)
    case OpGoAway => GoAway(r)
  }

  function Run(r: Ring, ops: seq<Op>): (t: Ring)
    requires Shaped(r)
    ensures Shaped(t)
    decreases ops
  {
    if ops == [] then r else Step(Run(r, ops[..|ops| - 1]), ops[|ops| - 1])
  }
}
