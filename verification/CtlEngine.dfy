/**
 The control channel request engine (ctl.c) as atomic steps of concurrent
 threads: submitters, the receive callback, completion works, stop and free.
 A step whose guard does not hold leaves the channel as it is.
 */
module CtlEngine {
  import opened CtlRequest

  /**
   How a request is submitted. `slot` marks a synchronous request that takes the
   command semaphore; `hold` one that also tracks its local submission.
   */
  datatype Kind = Async | Receive | Sync

  /** Where the submitting thread is. */
  datatype Phase =
    | Idle
    | WaitSem     // counted, blocked on the command semaphore
    | Ready       // about to enqueue
    | Queued      // enqueued, not yet transmitted
    | Waiting     // waiting for completion
    | Canceling   // canceled, waiting until the request is inactive
    | Flushing    // waiting for the completion work
    | LocalWait   // waiting for the local completion
    | Releasing   // about to release the command slot
    | Failing     // not admitted or not transmitted
    | Finished

  datatype Req = Req(
    kind: Kind, slot: bool, hold: bool,
    phase: Phase, st: State,
    active: bool, canceled: bool, stopped: bool, done: bool,
    pending: bool, running: bool, called: bool)

  datatype StopPhase = Running | Stopping | RingsStopped | Swept

  datatype Ctl = Ctl(
    reqs: seq<Req>,
    queue: seq<nat>,
    sem: int,              // index of the holder of the command semaphore, -1 if free
    reqWorks: int,
    asyncHolders: nat,
    rx: int,               // request a receive callback refers to, -1 if none
    stop: StopPhase,
    teardown: bool,
    timeouts: nat,
    freed: bool)

  predicate Counted(p: Phase) { p != Idle && p != Finished }
  predicate Holding(p: Phase) { Counted(p) && p != WaitSem }

  /** The HOLD_LOCAL flag: the work must leave the dequeue to the submitter. */
  predicate HoldFlag(r: Req) { r.hold && r.phase != Releasing && r.phase != Finished }

  /** tb_ctl_request_may_start() */
  predicate MayStart(running: bool, teardown: bool, timeouts: nat) {
    running && (!teardown || timeouts == 0)
  }

  // ----- the shared operations

  function Remove(q: seq<nat>, id: nat): (r: seq<nat>) {
    if q == [] then [] else (if q[0] == id then [] else [q[0]]) + Remove(q[1..], id)
  }

  /** tb_ctl_schedule_req_work(): count, unless the work is already pending. */
  function Schedule(c: Ctl, id: nat): (d: Ctl)
    requires id < |c.reqs|
  {
    if c.reqs[id].pending then c
    else c.(reqs := c.reqs[id := c.reqs[id].(pending := true)], reqWorks := c.reqWorks + 1)
  }

  function Put(c: Ctl, id: nat, r: Req): (d: Ctl)
    requires id < |c.reqs|
  {
    c.(reqs := c.reqs[id := r])
  }

  /** tb_cfg_request_dequeue() */
  function Dequeue(c: Ctl, id: nat): (d: Ctl)
    requires id < |c.reqs|
  {
    if !c.reqs[id].active then c
    else c.(reqs := c.reqs[id := c.reqs[id].(active := false)], queue := Remove(c.queue, id))
  }

  // ----- the submitter

  /** Count a command-slot request before it sleeps on the semaphore. */
  function Begin(c: Ctl, id: nat): (d: Ctl)
    requires id < |c.reqs|
  {
    var r := c.reqs[id];
    if r.phase != Idle then c
    else if r.slot then Put(c, id, r.(phase := WaitSem)).(reqWorks := c.reqWorks + 1)
    else Put(c, id, r.(phase := Ready))
  }

  function Down(c: Ctl, id: nat): (d: Ctl)
    requires id < |c.reqs|
  {
    var r := c.reqs[id];
    if r.phase == WaitSem && c.sem == -1 then Put(c, id, r.(phase := Ready)).(sem := id) else c
  }

  /** tb_cfg_request_enqueue() */
  function Enqueue(c: Ctl, id: nat): (d: Ctl)
    requires id < |c.reqs|
  {
    var r := c.reqs[id];
    if r.phase != Ready then c
    else if MayStart(c.stop == Running, c.teardown, c.timeouts) then
      Put(c, id, r.(phase := Queued, active := true)).(queue := c.queue + [id])
    else Put(c, id, r.(phase := Failing))
  }

  /** tb_ctl_tx(), or the submit callback of a receive-only request. */
  function Transmitted(c: Ctl, id: nat, ok: bool, expectsReply: bool): (d: Ctl)
    requires id < |c.reqs|
  {
    var r := c.reqs[id];
    if r.phase != Queued then c
    else if ok then
      var d := Put(c, id, r.(phase := Waiting, st := TxStep(r.st, EvQueued)));
      if expectsReply || r.kind == Receive then d else Schedule(d, id)
    else if r.kind == Receive then Cancel(c, id)
    else Put(Dequeue(c, id), id, Dequeue(c, id).reqs[id].(phase := Failing))
  }

  /** tb_cfg_request_cancel() up to its wait. */
  function Cancel(c: Ctl, id: nat): (d: Ctl)
    requires id < |c.reqs|
  {
    var r := c.reqs[id];
    Schedule(Put(c, id, r.(st := StateStep(r.st, EvRequestCanceled).0, canceled := true, phase := Canceling)), id)
  }

  function Woken(c: Ctl, id: nat): (d: Ctl)
    requires id < |c.reqs|
  {
    var r := c.reqs[id];
    if r.phase == Waiting && r.kind != Async && r.done then Put(c, id, r.(phase := Flushing)) else c
  }

  /** The wait ran out: count it, then cancel, or leave a held request to its local wait. */
  function TimedOut(c: Ctl, id: nat): (d: Ctl)
    requires id < |c.reqs|
  {
    var r := c.reqs[id];
    if r.phase != Waiting || r.kind == Async || r.done then c
    else
      var st := StateStep(r.st, EvPeerTimedOut).0;
      var d := c.(timeouts := c.timeouts + 1);
      if r.hold then Put(d, id, r.(st := st, canceled := true, phase := Flushing))
      else Cancel(Put(d, id, r.(st := st)), id)
  }

  function CancelSeen(c: Ctl, id: nat): (d: Ctl)
    requires id < |c.reqs|
  {
    var r := c.reqs[id];
    if r.phase == Canceling && !r.active then Put(c, id, r.(phase := Flushing)) else c
  }

  function Flushed(c: Ctl, id: nat): (d: Ctl)
    requires id < |c.reqs|
  {
    var r := c.reqs[id];
    if r.phase != Flushing || r.pending || r.running then c
    else Put(c, id, r.(phase := if r.hold then LocalWait else Releasing))
  }

  /** The end of the local wait: settle the local state, clear HOLD_LOCAL, dequeue. */
  function LocalSettled(c: Ctl, id: nat): (d: Ctl)
    requires id < |c.reqs|
  {
    var r := c.reqs[id];
    if r.phase != LocalWait then c
    else
      var d := Dequeue(c, id);
      Put(d, id, d.reqs[id].(st := StateStep(r.st, EvLocalTimedOut).0, phase := Releasing))
  }

  /** up() and the last put of the command slot; the request is over. */
  function Release(c: Ctl, id: nat): (d: Ctl)
    requires id < |c.reqs|
  {
    var r := c.reqs[id];
    if r.phase != Releasing && r.phase != Failing then c
    else
      var d := Put(c, id, r.(phase := Finished));
      if r.slot then d.(sem := -1, reqWorks := c.reqWorks - 1) else d
  }

  // ----- the receive callback

  /** tb_cfg_request_find(): the callback keeps a reference to a queued request. */
  function RxFind(c: Ctl, id: nat): (d: Ctl)
    requires id < |c.reqs|
  {
    if c.rx == -1 && c.reqs[id].active && (c.stop == Running || c.stop == Stopping) then c.(rx := id) else c
  }

  /** The reply is matched to the request found; `last` says whether it completes it. */
  function RxReply(c: Ctl, last: bool): (d: Ctl)
    requires -1 <= c.rx < |c.reqs|
  {
    if c.rx == -1 then c
    else
      var id, r, e := c.rx, c.reqs[c.rx], c.(rx := -1);
      if r.st.peer != PeerDisabled then
        var (st, action) := StateStep(r.st, EvPeerMatched);
        if action != Complete then e
        else
          var d := Put(e, id, r.(st := st)).(timeouts := 0);
          if last then Schedule(d, id) else d
      else if r.st.local != LocalDisabled then e
      else
        var d := e.(timeouts := 0);
        if last then Schedule(d, id) else d
  }

  /** An unsequenced local completion reaches a queued request that still waits for one. */
  function RxLocal(c: Ctl, id: nat, ev: Event): (d: Ctl)
    requires id < |c.reqs|
  {
    var r := c.reqs[id];
    if r.active && r.st.local == LocalWaiting && (ev == EvLocalAccepted || ev == EvLocalFailed)
       && (c.stop == Running || c.stop == Stopping)
    then Put(c, id, r.(st := StateStep(r.st, ev).0)) else c
  }

  // ----- the completion work

  function WorkStarts(c: Ctl, id: nat): (d: Ctl)
    requires id < |c.reqs|
  {
    var r := c.reqs[id];
    if r.pending && !r.running then Put(c, id, r.(pending := false, running := true, called := false)) else c
  }

  /** tb_cfg_request_work() calls back unless the request was canceled without a stop. */
  function WorkCalls(c: Ctl, id: nat): (d: Ctl)
    requires id < |c.reqs|
  {
    var r := c.reqs[id];
    if r.running && !r.called then Put(c, id, r.(called := true, done := r.done || !r.canceled || r.stopped)) else c
  }

  function WorkEnds(c: Ctl, id: nat): (d: Ctl)
    requires id < |c.reqs|
  {
    var r := c.reqs[id];
    if !r.running || !r.called then c
    else
      var d := if HoldFlag(r) then c else Dequeue(c, id);
      Put(d, id, d.reqs[id].(running := false, called := false)).(reqWorks := c.reqWorks - 1)
  }

  // ----- stop, start, free

  function StopBegins(c: Ctl): (d: Ctl) {
    if c.stop == Running then c.(stop := Stopping) else c
  }

  /** tb_ring_stop() of the receive ring waits for its callback. */
  function RingsStop(c: Ctl): (d: Ctl) {
    if c.stop == Stopping && c.rx == -1 then c.(stop := RingsStopped) else c
  }

  function SweepOne(c: Ctl, id: nat): (d: Ctl)
    requires id < |c.reqs|
  {
    var r := c.reqs[id];
    Schedule(Put(c, id, r.(st := StopState(r.st), canceled := true, stopped := true)), id)
  }

  /** The loop over the request queue at the end of tb_ctl_stop(), on its first `n` entries. */
  function SweepFirst(c: Ctl, n: nat): (d: Ctl)
    requires n <= |c.queue| && forall i | 0 <= i < |c.queue| :: c.queue[i] < |c.reqs|
    ensures |d.reqs| == |c.reqs| && d.queue == c.queue
  {
    if n == 0 then c else SweepOne(SweepFirst(c, n - 1), c.queue[n - 1])
  }

  function Sweep(c: Ctl): (d: Ctl)
    requires forall i | 0 <= i < |c.queue| :: c.queue[i] < |c.reqs|
  {
    if c.stop == RingsStopped then SweepFirst(c, |c.queue|).(stop := Swept) else c
  }

  function StartAgain(c: Ctl): (d: Ctl) {
    if c.stop == Swept then c.(stop := Running, teardown := false) else c
  }

  function EnterTeardown(c: Ctl): (d: Ctl) {
    c.(teardown := true)
  }

  function AsyncGet(c: Ctl): (d: Ctl) {
    if c.stop == Running then c.(asyncHolders := c.asyncHolders + 1, reqWorks := c.reqWorks + 1) else c
  }

  function AsyncPut(c: Ctl): (d: Ctl) {
    if c.asyncHolders > 0 then c.(asyncHolders := c.asyncHolders - 1, reqWorks := c.reqWorks - 1) else c
  }

  /** tb_ctl_free() passes its wait only when the counter is zero. */
  function Free(c: Ctl): (d: Ctl) {
    if c.stop == Swept && c.reqWorks == 0 then c.(freed := true) else c
  }

  /** What a thread does with one request. */
  datatype Act =
    | DoBegin | DoDown | DoEnqueue | DoTransmitted(ok: bool, expectsReply: bool)
    | DoWoken | DoTimedOut | DoCancelSeen | DoFlushed | DoLocalSettled | DoRelease
    | DoRxFind | DoRxLocal(ev: Event)
    | DoWorkStarts | DoWorkCalls | DoWorkEnds

  /** The rest is done by the receive callback and the completion work. */
  predicate BySubmitter(act: Act) {
    !(act == DoRxFind || act.DoRxLocal? || act == DoWorkStarts || act == DoWorkCalls || act == DoWorkEnds)
  }

  /** What happens to the channel as a whole. */
  datatype Op =
    | OnRequest(id: nat, act: Act)
    | RxReplies(last: bool)
    | StopStarts | StopsRings | StopSweeps | Starts | EntersTeardown | GetsAsync | PutsAsync | Frees

  function Perform(c: Ctl, id: nat, act: Act): (d: Ctl)
    requires id < |c.reqs|
  {
    match act
    case DoBegin => Begin(c, id)
    case DoDown => Down(c, id)
    case DoEnqueue => Enqueue(c, id)
    case DoTransmitted(ok, reply) => Transmitted(c, id, ok, reply)
    case DoWoken => Woken(c, id)
    case DoTimedOut => TimedOut(c, id)
    case DoCancelSeen => CancelSeen(c, id)
    case DoFlushed => Flushed(c, id)
    case DoLocalSettled => LocalSettled(c, id)
    case DoRelease => Release(c, id)
    case DoRxFind => RxFind(c, id)
    case DoRxLocal(ev) => RxLocal(c, id, ev)
    case DoWorkStarts => WorkStarts(c, id)
    case DoWorkCalls => WorkCalls(c, id)
    case DoWorkEnds => WorkEnds(c, id)
  }

  predicate Shaped(c: Ctl) {
    -1 <= c.rx < |c.reqs| && forall i | 0 <= i < |c.queue| :: c.queue[i] < |c.reqs|
  }

  /** Nobody uses a channel after it is freed; steps on unknown requests do nothing. */
  function Step(c: Ctl, op: Op): (d: Ctl)
    requires Shaped(c)
  {
    if c.freed then c
    else match op
      case OnRequest(id, act) => if id < |c.reqs| then Perform(c, id, act) else c
      case RxReplies(last) => RxReply(c, last)
      case StopStarts => StopBegins(c)
      case StopsRings => RingsStop(c)
      case StopSweeps => Sweep(c)
      case Starts => StartAgain(c)
      case EntersTeardown => EnterTeardown(c)
      case GetsAsync => AsyncGet(c)
      case PutsAsync => AsyncPut(c)
      case Frees => Free(c)
  }
}
