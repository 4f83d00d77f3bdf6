/**
 The NHI DMA ring as the driver implements it (nhi.c): head and tail over a
 descriptor array, two lists, and loops that post and collect. Every method is
 proved to perform the step of `RingSpec` it stands for.
 */
module RingDriver {
  import opened RingSpec
  import opened RingProofs

  const ESHUTDOWN := 108

  class TbRing {
    const size: nat
    const isTx: bool
    const descriptors: array<Desc>
    const posted: array<Record>
    var head: nat
    var tail: nat
    var running: bool
    var quarantined: bool
    var goingAway: bool
    var queue: seq<Item>
    var inFlight: seq<Item>
    var done: seq<Item>
    var canceling: bool
    var stopping: bool
    var canceled: bool
    // the record of the run, which the driver never consults
    var accepted: seq<Frame>
    var handed: seq<Handed>
    var completions: map<nat, nat>
    var postLog: seq<nat>
    var overlapped: bool

    function State(): (r: Ring)
      reads this, descriptors, posted
    {
      Ring(size, isTx, head, tail, running, quarantined, goingAway, queue, inFlight, done, canceling, stopping,
           canceled, descriptors[..], posted[..], accepted, handed, completions, postLog, overlapped)
    }

    ghost predicate Valid()
      reads this, descriptors, posted
    {
      Ready(State())
    }

    /** The queue a client sees: tickets accepted and not handed back, oldest first. */
    function Waiting(): (ts: seq<nat>)
      reads this, descriptors, posted
    {
      Outstanding(State())
    }

    /** The tickets handed back, in the order of their callbacks and polls. */
    function Returned(): (ts: seq<nat>)
      reads this
    {
      HandedTickets(handed)
    }

    /** tb_ring_alloc() */
    constructor (size: nat, isTx: bool)
      requires size > 0
      ensures State() == Fresh(size, isTx) && Valid()
      ensures fresh(descriptors) && fresh(posted)
    {
      this.size, this.isTx := size, isTx;
      descriptors := new Desc[size](_ => Desc(0, 0));
      posted := new Record[size](_ => Record(0, 0, 0));
      head, tail := 0, 0;
      running, quarantined, goingAway := false, false, false;
      queue, inFlight, done := [], [], [];
      canceling, stopping, canceled := false, false, false;
      accepted, handed, completions, postLog, overlapped := [], [], map[], [], false;
      new;
      assert descriptors[..] == Fresh(size, isTx).desc;
      assert posted[..] == Fresh(size, isTx).records;
    }

    /** Unpublish the slot, set the address, publish all metadata, and record the posting. */
    method Publish(slot: nat, item: Item)
      requires slot < descriptors.Length && slot < posted.Length
      modifies descriptors, posted
      ensures descriptors[..] == old(descriptors[..])[slot := Desc(item.frame.bufferPhy, PostedWord(isTx, item.frame))]
      ensures posted[..] == old(posted[..])[slot := Record(old(posted[slot].generation) + 1, item.ticket, item.frame.bufferPhy)]
    {
      descriptors[slot] := descriptors[slot].(attributes := 0);
      descriptors[slot] := descriptors[slot].(phys := item.frame.bufferPhy);
      descriptors[slot] := descriptors[slot].(attributes := PostedWord(isTx, item.frame));
      posted[slot] := Record(posted[slot].generation + 1, item.ticket, item.frame.bufferPhy);
    }

    /** The body of the loop of ring_write_descriptors(). */
    method Post()
      requires Valid() && running && queue != [] && !Full(State())
      modifies this, descriptors, posted
      ensures State() == PostOne(old(State())) && Valid()
    {
      PostReady(State());
      var item := queue[0];
      var slot := head;
      queue := queue[1..];
      inFlight := inFlight + [item];
      Publish(slot, item);
      postLog := postLog + [slot];
      head := Next(head, size);
    }

    /** ring_write_descriptors() */
    method WriteDescriptors()
      requires Valid() && running
      modifies this, descriptors, posted
      ensures State() == PostAll(old(State())) && Valid()
      ensures Waiting() == old(Waiting()) && Returned() == old(Returned())
      ensures queue == [] || (head + 1) % size == tail
      ensures old(Drained(State())) ==> Drained(State())
    {
      PostAllKeeps(State());
      while queue != [] && Next(head, size) != tail
        invariant Valid() && running
        invariant old(Drained(State())) ==> Drained(State())
        invariant PostAll(State()) == PostAll(old(State()))
        decreases |queue|
      {
        if Drained(State()) {
          PostDrained(State());
        }
        Post();
      }
    }

    /** __tb_ring_enqueue() */
    method EnqueueFrame(frame: Frame) returns (err: int)
      requires Valid()
      modifies this, descriptors, posted
      ensures State() == Enqueue(old(State()), frame) && Valid()
      ensures err == if old(running) && !old(quarantined) then 0 else -ESHUTDOWN
      ensures accepted == old(accepted) + if err == 0 then [frame] else []
      ensures Waiting() == old(Waiting()) + if err == 0 then [|old(accepted)|] else []
      ensures Returned() == old(Returned())
    {
      if running && !quarantined {
        EnqueueAppends(State(), frame);
        queue := queue + [Item(|accepted|, frame)];
        accepted := accepted + [frame];
        PostAllLogs(State());
        WriteDescriptors();
        err := 0;
      } else {
        err := -ESHUTDOWN;
      }
    }

    /** The completed frame at the tail leaves the ring. */
    method PopTail() returns (item: Item)
      requires Valid() && running && TailCompleted(State())
      modifies this
      ensures (State(), item) == TakeTail(old(State())) && Valid()
      ensures item.ticket == old(inFlight[0]).ticket && inFlight == old(inFlight[1..]) && tail == (old(tail) + 1) % size
      ensures Received(isTx, old(inFlight[0]).frame, old(descriptors[tail]).attributes, item.frame)
    {
      StampFields(isTx, inFlight[0].frame, descriptors[tail].attributes);
      var first := inFlight[0];
      item := Item(first.ticket, Stamp(isTx, first.frame, descriptors[tail].attributes));
      inFlight := inFlight[1..];
      tail := Next(tail, size);
    }

    /** The stopped branch of ring_work(): everything left is canceled. */
    method CancelAll()
      requires Valid() && done == [] && !running
      modifies this
      ensures State() == Collect(old(State())) && Valid()
    {
      done := inFlight + queue;
      inFlight, queue := [], [];
      canceling, canceled := true, true;
    }

    /** One turn of the completion loop of ring_work(). */
    method CollectHead()
      requires Valid() && running && TailCompleted(State())
      modifies this
      ensures State() == CollectOne(old(State())) && Valid() && running
      ensures |done| == |old(done)| + 1 && done[..|old(done)|] == old(done)
      ensures Received(isTx, old(inFlight[0]).frame, old(descriptors[tail]).attributes, done[|done| - 1].frame)
    {
      var item := PopTail();
      done := done + [item];
    }

    /** The completion loop of ring_work(). */
    method CollectCompleted()
      requires Valid() && running
      modifies this
      ensures State() == CollectAll(old(State())) && Valid()
      ensures Waiting() == old(Waiting()) && Returned() == old(Returned())
      ensures Drained(State())
    {
      CollectAllKeeps(State());
      while head != tail && Completed(descriptors[tail].attributes)
        invariant Valid() && running
        invariant CollectAll(State()) == CollectAll(old(State()))
        decreases |inFlight|
      {
        CollectHead();
      }
      CompletedBit(descriptors[tail].attributes);
    }

    /** The running branch of ring_work(): take what completed, then post what waited. */
    method Harvest()
      requires Valid() && running && done == []
      modifies this, descriptors, posted
      ensures State() == Collect(old(State())) && Valid()
      ensures Drained(State()) && (queue == [] || (head + 1) % size == tail)
    {
      canceling := false;
      ghost var begun := State();
      CollectCompleted();
      CollectAllLogs(begun);
      WriteDescriptors();
    }

    /** ring_work() under the lock; it is not re-entrant. */
    method Work()
      requires Valid() && done == []
      modifies this, descriptors, posted
      ensures State() == Collect(old(State())) && Valid()
      ensures Waiting() == old(Waiting()) && Returned() == old(Returned())
      ensures old(running) ==> Drained(State()) && (queue == [] || (head + 1) % size == tail)
    {
      CollectKeeps(State());
      if running {
        Harvest();
      } else {
        CancelAll();
      }
    }

    /** One callback of ring_work(). */
    method Callback() returns (frame: Frame, isCanceled: bool)
      requires Valid() && done != []
      modifies this
      ensures State() == Deliver(old(State())) && Valid()
      ensures frame == old(done[0].frame) && isCanceled == old(canceling)
      ensures old(Waiting()) != [] && Waiting() == old(Waiting())[1..]
      ensures Returned() == old(Returned()) + [old(Waiting())[0]]
    {
      DeliverTakesOldest(State());
      frame, isCanceled := done[0].frame, canceling;
      handed := handed + [Handed(done[0], canceling)];
      done := done[1..];
    }

    /** tb_ring_poll() */
    method PollFrame() returns (found: bool, frame: Frame)
      requires Valid()
      modifies this
      ensures State() == Poll(old(State())) && Valid()
      ensures found ==> handed != [] && handed[|handed| - 1].item.frame == frame
      ensures !found ==> State() == old(State())
      ensures found <==> old(running && !goingAway && !Drained(State()))
      ensures found ==> old(inFlight) != [] && inFlight == old(inFlight[1..])
      ensures found ==> old(tail) < size && Received(isTx, old(inFlight[0]).frame, old(descriptors[tail]).attributes, frame)
      ensures found ==> |old(done)| < |old(Waiting())| && Returned() == old(Returned()) + [old(Waiting())[|old(done)|]]
      ensures found ==> Waiting() == old(Waiting())[..|old(done)|] + old(Waiting())[|old(done)| + 1..]
    {
      found, frame := false, Frame(0, 0, 0, 0, 0);
      CompletedBit(descriptors[tail].attributes);
      if running && head != tail && !goingAway && Completed(descriptors[tail].attributes) {
        PollTakes(State());
        var item := PopTail();
        found, frame := true, item.frame;
        handed := handed + [Handed(item, false)];
        overlapped := overlapped || done != [];
      }
    }

    /** tb_ring_start() with the two index register reads of ring_program_start(). */
    method StartRing(index: nat, readback: nat)
      requires Valid() && !stopping && (running || inFlight == [])
      modifies this
      ensures State() == Start(old(State()), index, readback) && Valid()
      ensures old(running || quarantined || goingAway) ==> State() == old(State())
      ensures State() == old(State()).(head := head, tail := tail, running := running)
      ensures var i := if isTx then index % 0x1_0000 else index / 0x1_0000 % 0x1_0000;
              !old(running || quarantined || goingAway) ==>
                && (running <==> i < size && readback % 0x1_0000 == i && readback / 0x1_0000 % 0x1_0000 == i)
                && (running ==> head == i && tail == i)
    {
      var anchor := Anchor(isTx, index);
      if quarantined || goingAway || running || anchor >= size {
        return;
      }
      head, tail := anchor, anchor;
      running := IndicesMatch(anchor, readback);
    }

    method FinishCallbacks()
      requires Valid()
      modifies this
      ensures State() == DeliverAll(old(State())) && Valid() && done == []
    {
      while done != []
        invariant Valid()
        invariant DeliverAll(State()) == DeliverAll(old(State()))
        decreases |done|
      {
        var _, _ := Callback();
      }
    }

    method Disable()
      requires Valid()
      modifies this
      ensures State() == Stop(old(State())) && Valid()
    {
      if running {
        head, tail, running := 0, 0, false;
      }
      stopping, canceled := true, false;
    }

    method Return()
      requires Valid()
      modifies this
      ensures State() == StopReturns(old(State())) && Valid()
    {
      if stopping && canceled && done == [] {
        stopping := false;
      }
    }

    /** tb_ring_stop(): disable, cancel everything, and return after the last callback. */
    method StopRing()
      requires Valid()
      modifies this, descriptors, posted
      ensures State() == StopAndFlush(old(State())) && Valid()
      ensures Waiting() == [] && Returned() == old(Returned()) + old(Waiting())
    {
      StopEmpties(State());
      Disable();
      FinishCallbacks();
      Work();
      FinishCallbacks();
      Return();
    }

    /** tb_ring_quarantine(): close admission, then cancel everything. */
    method QuarantineRing()
      requires Valid()
      modifies this, descriptors, posted
      ensures Valid()
      ensures State() == if old(quarantined) then DeliverAll(old(State())) else StopAndFlush(Quarantine(old(State())))
      ensures !old(quarantined) ==> Waiting() == [] && Returned() == old(Returned()) + old(Waiting())
    {
      if quarantined {
        FinishCallbacks();
        return;
      }
      quarantined := true;
      StopRing();
    }

    /** The device completes a slot it owns. */
    method DeviceWrites(slot: nat, word: nat)
      requires Valid() && DeviceOwns(State(), slot) && Completed(word)
      modifies this, descriptors
      ensures State() == DeviceComplete(old(State()), slot, word) && Valid()
    {
      completions := completions[posted[slot].ticket := word];
      descriptors[slot] := descriptors[slot].(attributes := word);
      assert descriptors[..] == old(descriptors[..])[slot := descriptors[slot]];
    }

    /** What clients and the work do. */
    method PerformTransfer(op: Op)
      requires Valid() && (op.OpEnqueue? || op.OpCollect? || op.OpDeliver? || op.OpPoll?)
      modifies this, descriptors, posted
      ensures State() == Step(old(State()), op) && Valid()
    {
      match op {
        case OpEnqueue(f) => var _ := EnqueueFrame(f);
        case OpCollect => if done == [] { Work(); }
        case OpDeliver => if done != [] { var _, _ := Callback(); }
        case OpPoll => var _, _ := PollFrame();
      }
    }

    method PerformStart(index: nat, readback: nat)
      requires Valid() && StopOk(State())
      modifies this
      ensures State() == Step(old(State()), OpStart(index, readback)) && Valid()
    {
      if !stopping {
        StartRing(index, readback);
      }
    }

    method PerformDevice(slot: nat, word: nat)
      requires Valid()
      modifies this, descriptors
      ensures State() == Step(old(State()), OpDevice(slot, word)) && Valid()
    {
      if DeviceOwns(State(), slot) && Completed(word) {
        DeviceWrites(slot, word);
      }
    }

    /** Any step of the model, performed by the driver's methods and the device. */
    method Perform(op: Op)
      requires Valid() && StopOk(State())
      modifies this, descriptors, posted
      ensures State() == Step(old(State()), op) && Valid()
    {
      match op {
        case OpStart(index, readback) => PerformStart(index, readback);
        case OpDevice(slot, word) => PerformDevice(slot, word);
        case OpStop => Disable();
        case OpStopReturns => Return();
        case OpQuarantine => quarantined := true;
        case OpGoAway => goingAway := true;
        case _ => PerformTransfer(op);
      }
    }

    /** Every run of the implementation is a run of the model, so `RingProofs` applies to it. */
    method Drive(ops: seq<Op>)
      requires Valid() && Inv(State())
      modifies this, descriptors, posted
      ensures State() == Run(old(State()), ops) && Inv(State())
    {
      var i := 0;
      while i < |ops|
        invariant i <= |ops| && Valid() && Inv(State())
        invariant State() == Run(old(State()), ops[..i])
      {
        StepInv(State(), ops[i]);
        Perform(ops[i]);
        assert ops[..i + 1][..i] == ops[..i];
        i := i + 1;
      }
      assert ops[..i] == ops;
    }
  }
}
