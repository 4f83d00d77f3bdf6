/**
 The control channel in the driver's own form (ctl.c): the request list walked,
 extended, unlinked from and swept in place, each function proved to perform the
 engine step it stands for.
 */
module CtlDriver {
  import opened CtlRequest
  import opened CtlEngine
  import opened CtlProofs

  const ENOTCONN := 107
  const ESHUTDOWN := 108

  datatype Owner = Generic | PeerOwner | NoOwner

  /** tb_cfg_request_match_owner() */
  function MatchOwner(s: State): (o: Owner) {
    if s.peer != PeerDisabled then PeerOwner
    else if s.local != LocalDisabled then NoOwner
    else Generic
  }

  lemma {:induction false} RemoveAt(q: seq<nat>, k: nat)
    requires NoDup(q) && k < |q|
    ensures Remove(q, q[k]) == q[..k] + q[k + 1..]
  {
    if k == 0 {
      RemoveAbsent(q[1..], q[0]);
    } else {
      assert q[0] != q[k];
      RemoveAt(q[1..], k - 1);
      assert [q[0]] + q[1..][..k - 1] == q[..k];
    }
  }

  lemma {:induction false} RemoveAbsent(q: seq<nat>, id: nat)
    requires id !in q
    ensures Remove(q, id) == q
  {
    if q != [] {
      RemoveAbsent(q[1..], id);
    }
  }

  /** If the request at `k` waits for a local completion, no other queued request does. */
  lemma OnlyWaiter(c: Ctl, k: nat)
    requires Inv(c) && k < |c.queue| && c.reqs[c.queue[k]].st.local == LocalWaiting
    ensures forall id: nat | id in c.queue && c.reqs[id].st.local == LocalWaiting :: id == c.queue[k]
  {
    forall i | 0 <= i < |c.queue| && i != k ensures c.reqs[c.queue[i]].st.local != LocalWaiting {
      if i < k {
        OneLocalWaiter(c, [], i, k);
      } else {
        OneLocalWaiter(c, [], k, i);
      }
    }
  }

  class TbCtl {
    var reqs: seq<Req>
    var queue: seq<nat>
    var sem: int
    var reqWorks: int
    var asyncHolders: nat
    var rx: int
    var stop: StopPhase
    var teardown: bool
    var timeouts: nat
    var freed: bool

    function Now(): (c: Ctl)
      reads this
    {
      Ctl(reqs, queue, sem, reqWorks, asyncHolders, rx, stop, teardown, timeouts, freed)
    }

    constructor (rs: seq<Req>)
      requires AllFresh(rs)
      ensures Now() == Started(rs) && Inv(Now())
    {
      reqs, queue, sem, reqWorks, asyncHolders := rs, [], -1, 0, 0;
      rx, stop, teardown, timeouts, freed := -1, Running, false, 0, false;
      new;
      assert Now() == Started(rs);
      StartedInv(rs);
    }

    /** tb_ctl_schedule_req_work(): counted before it is known whether the queue takes it. */
    method ScheduleWork(id: nat)
      requires id < |reqs|
      modifies this
      ensures Now() == Schedule(old(Now()), id)
    {
      reqWorks := reqWorks + 1;
      if reqs[id].pending {
        reqWorks := reqWorks - 1;
      } else {
        reqs := reqs[id := reqs[id].(pending := true)];
      }
    }

    /** tb_cfg_request_enqueue() */
    method EnqueueRequest(id: nat) returns (err: int)
      requires id < |reqs| && reqs[id].phase == Ready
      modifies this
      ensures Now() == Enqueue(old(Now()), id)
      ensures err == if MayStart(stop == Running, teardown, timeouts) then 0 else if stop == Running then -ESHUTDOWN else -ENOTCONN
    {
      if !MayStart(stop == Running, teardown, timeouts) {
        reqs := reqs[id := reqs[id].(phase := Failing)];
        return if stop == Running then -ESHUTDOWN else -ENOTCONN;
      }
      queue := queue + [id];
      reqs := reqs[id := reqs[id].(phase := Queued, active := true)];
      return 0;
    }

    /** tb_cfg_request_dequeue() */
    method DequeueRequest(id: nat)
      requires id < |reqs| && NoDup(queue) && (reqs[id].active ==> id in queue)
      modifies this
      ensures Now() == Dequeue(old(Now()), id)
    {
      if !reqs[id].active {
        return;
      }
      var k := 0;
      while queue[k] != id
        invariant 0 <= k < |queue| && id in queue[k..]
        decreases |queue| - k
      {
        assert queue[k..] == [queue[k]] + queue[k + 1..];
        k := k + 1;
      }
      RemoveAt(queue, k);
      queue := queue[..k] + queue[k + 1..];
      reqs := reqs[id := reqs[id].(active := false)];
    }

    /** tb_cfg_request_find(): the first queued request that accepts a match and whose matcher says yes. */
    method FindRequest(matches: set<nat>) returns (found: int)
      requires Shaped(Now())
      ensures found == -1 || found in queue
      ensures found >= 0 ==> MatchOwner(reqs[found].st) != NoOwner && found in matches
      ensures found == -1 ==> forall id | id in queue :: MatchOwner(reqs[id].st) == NoOwner || id !in matches
      ensures found >= 0 ==> exists k | 0 <= k < |queue| ::
                queue[k] == found && forall i | 0 <= i < k :: MatchOwner(reqs[queue[i]].st) == NoOwner || queue[i] !in matches
    {
      for k := 0 to |queue|
        invariant forall i | 0 <= i < k :: MatchOwner(reqs[queue[i]].st) == NoOwner || queue[i] !in matches
      {
        var id := queue[k];
        if MatchOwner(reqs[id].st) != NoOwner && id in matches {
          return id;
        }
      }
      return -1;
    }

    /**
     tb_cfg_request_find_intermediate(): the completion carries no sequence number, yet the
     request found is the only one it can belong to.
     */
    method FindIntermediate() returns (found: int)
      requires Inv(Now())
      ensures found == -1 || found in queue
      ensures forall id: nat | id in queue && reqs[id].st.local == LocalWaiting :: id == found
      ensures found >= 0 ==> reqs[found].st.local == LocalWaiting
    {
      for k := 0 to |queue|
        invariant forall i | 0 <= i < k :: reqs[queue[i]].st.local != LocalWaiting
      {
        var id := queue[k];
        if reqs[id].st.local == LocalWaiting {
          OnlyWaiter(Now(), k);
          return id;
        }
      }
      return -1;
    }

    /** tb_cfg_request_cancel() up to its wait. */
    method CancelRequest(id: nat)
      requires id < |reqs|
      modifies this
      ensures Now() == Cancel(old(Now()), id)
    {
      var r := reqs[id];
      reqs := reqs[id := r.(st := StateStep(r.st, EvRequestCanceled).0, canceled := true, phase := Canceling)];
      ScheduleWork(id);
    }

    /** The part of tb_cfg_request() after the enqueue, or the submit callback of a receive-only request. */
    method Transmit(id: nat, ok: bool, expectsReply: bool)
      requires Inv(Now()) && id < |reqs| && reqs[id].phase == Queued
      modifies this
      ensures Now() == Transmitted(old(Now()), id, ok, expectsReply)
    {
      Known(Now(), id);
      var r := reqs[id];
      if ok {
        reqs := reqs[id := r.(phase := Waiting, st := TxStep(r.st, EvQueued))];
        if !expectsReply && r.kind != Receive {
          ScheduleWork(id);
        }
      } else if r.kind == Receive {
        CancelRequest(id);
      } else {
        DequeueRequest(id);
        reqs := reqs[id := reqs[id].(phase := Failing)];
      }
    }

    /** The timeout branch of tb_cfg_request_sync() and tb_cfg_request_sync_receive(). */
    method WaitRanOut(id: nat)
      requires id < |reqs| && reqs[id].phase == Waiting && reqs[id].kind != Async && !reqs[id].done
      modifies this
      ensures Now() == TimedOut(old(Now()), id)
    {
      var r := reqs[id];
      reqs := reqs[id := r.(st := StateStep(r.st, EvPeerTimedOut).0)];
      timeouts := timeouts + 1;
      if r.hold {
        reqs := reqs[id := reqs[id].(canceled := true, phase := Flushing)];
      } else {
        CancelRequest(id);
      }
    }

    /** tb_cfg_request_work() from the callback's return on. */
    method FinishWork(id: nat)
      requires Inv(Now()) && id < |reqs| && reqs[id].running && reqs[id].called
      modifies this
      ensures Now() == WorkEnds(old(Now()), id)
    {
      Known(Now(), id);
      if !HoldFlag(reqs[id]) {
        DequeueRequest(id);
      }
      reqs := reqs[id := reqs[id].(running := false, called := false)];
      reqWorks := reqWorks - 1;
    }

    /** The end of a held request in tb_cfg_request_sync(). */
    method SettleLocal(id: nat)
      requires Inv(Now()) && id < |reqs| && reqs[id].phase == LocalWait
      modifies this
      ensures Now() == LocalSettled(old(Now()), id)
    {
      Known(Now(), id);
      var st := reqs[id].st;
      DequeueRequest(id);
      reqs := reqs[id := reqs[id].(st := StateStep(st, EvLocalTimedOut).0, phase := Releasing)];
    }

    /** The matched-reply part of tb_ctl_rx_callback(). */
    method Reply(last: bool)
      requires 0 <= rx < |reqs|
      modifies this
      ensures Now() == RxReply(old(Now()), last)
    {
      var id := rx;
      var r := reqs[id];
      rx := -1;
      var owner := MatchOwner(r.st);
      if owner == PeerOwner {
        var (st, action) := StateStep(r.st, EvPeerMatched);
        if action != Complete {
          return;
        }
        reqs := reqs[id := r.(st := st)];
      } else if owner == NoOwner {
        return;
      }
      timeouts := 0;
      if last {
        ScheduleWork(id);
      }
    }

    /** One turn of the sweep at the end of tb_ctl_stop(). */
    method SweepRequest(id: nat)
      requires id < |reqs|
      modifies this
      ensures Now() == SweepOne(old(Now()), id)
    {
      var r := reqs[id];
      reqs := reqs[id := r.(st := StopState(r.st), canceled := true, stopped := true)];
      ScheduleWork(id);
    }

    /** The sweep at the end of tb_ctl_stop(). */
    method SweepQueue()
      requires Shaped(Now()) && stop == RingsStopped
      modifies this
      ensures Now() == Sweep(old(Now()))
    {
      ghost var was := Now();
      for k := 0 to |queue|
        invariant Now() == SweepFirst(was, k)
      {
        SweepRequest(queue[k]);
      }
      stop := Swept;
    }

    /** The submitting thread. */
    method SubmitterActs(id: nat, act: Act)
      requires Inv(Now()) && !freed && id < |reqs| && BySubmitter(act)
      modifies this
      ensures Now() == Perform(old(Now()), id, act)
    {
      var r := reqs[id];
      match act
      case DoBegin =>
        if r.phase == Idle {
          reqs := reqs[id := r.(phase := if r.slot then WaitSem else Ready)];
          if r.slot {
            reqWorks := reqWorks + 1;
          }
        }
      case DoDown =>
        if r.phase == WaitSem && sem == -1 {
          sem, reqs := id, reqs[id := r.(phase := Ready)];
        }
      case DoEnqueue => if r.phase == Ready { var _ := EnqueueRequest(id); }
      case DoTransmitted(ok, reply) => if r.phase == Queued { Transmit(id, ok, reply); }
      case DoWoken =>
        if r.phase == Waiting && r.kind != Async && r.done {
          reqs := reqs[id := r.(phase := Flushing)];
        }
      case DoTimedOut =>
        if r.phase == Waiting && r.kind != Async && !r.done { WaitRanOut(id); }
      case DoCancelSeen =>
        if r.phase == Canceling && !r.active {
          reqs := reqs[id := r.(phase := Flushing)];
        }
      case DoFlushed =>
        if r.phase == Flushing && !r.pending && !r.running {
          reqs := reqs[id := r.(phase := if r.hold then LocalWait else Releasing)];
        }
      case DoLocalSettled => if r.phase == LocalWait { SettleLocal(id); }
      case DoRelease =>
        if r.phase == Releasing || r.phase == Failing {
          reqs := reqs[id := r.(phase := Finished)];
          if r.slot {
            sem, reqWorks := -1, reqWorks - 1;
          }
        }
    }

    /** The receive callback and the completion work. */
    method OthersAct(id: nat, act: Act)
      requires Inv(Now()) && !freed && id < |reqs| && !BySubmitter(act)
      modifies this
      ensures Now() == Perform(old(Now()), id, act)
    {
      var r := reqs[id];
      match act
      case DoRxFind =>
        if rx == -1 && r.active && (stop == Running || stop == Stopping) {
          rx := id;
        }
      case DoRxLocal(ev) =>
        if r.active && r.st.local == LocalWaiting && (ev == EvLocalAccepted || ev == EvLocalFailed)
           && (stop == Running || stop == Stopping) {
          reqs := reqs[id := r.(st := StateStep(r.st, ev).0)];
        }
      case DoWorkStarts =>
        if r.pending && !r.running {
          reqs := reqs[id := r.(pending := false, running := true, called := false)];
        }
      case DoWorkCalls =>
        if r.running && !r.called {
          reqs := reqs[id := r.(called := true, done := r.done || !r.canceled || r.stopped)];
        }
      case DoWorkEnds => if r.running && r.called { FinishWork(id); }
    }

    method Act(op: Op)
      requires Inv(Now())
      modifies this
      ensures Now() == Step(old(Now()), op)
    {
      if freed {
        return;
      }
      match op
      case OnRequest(id, act) =>
        if id < |reqs| {
          if BySubmitter(act) {
            SubmitterActs(id, act);
          } else {
            OthersAct(id, act);
          }
        }
      case RxReplies(last) => if rx != -1 { Reply(last); }
      case StopStarts => if stop == Running { stop := Stopping; }
      case StopsRings => if stop == Stopping && rx == -1 { stop := RingsStopped; }
      case StopSweeps => if stop == RingsStopped { SweepQueue(); }
      case Starts => if stop == Swept { stop, teardown := Running, false; }
      case EntersTeardown => teardown := true;
      case GetsAsync => if stop == Running { asyncHolders, reqWorks := asyncHolders + 1, reqWorks + 1; }
      case PutsAsync => if asyncHolders > 0 { asyncHolders, reqWorks := asyncHolders - 1, reqWorks - 1; }
      case Frees => if stop == Swept && reqWorks == 0 { freed := true; }
    }

    /** Any interleaving of the channel's threads. */
    method Drive(ops: seq<Op>)
      requires Inv(Now())
      modifies this
      ensures Inv(Now()) && Now() == Run(old(Now()), ops)
    {
      ghost var start := Now();
      for i := 0 to |ops|
        invariant Inv(Now()) && Now() == Run(start, ops[..i])
      {
        assert ops[..i + 1][..i] == ops[..i];
        StepInv(Now(), ops[i]);
        Act(ops[i]);
      }
      assert ops[..|ops|] == ops;
    }
  }
}
