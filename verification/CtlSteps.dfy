/**
 What single steps of the control channel do to a request (ctl.c), each stated for
 every reachable state and without the step's own definition.
 */
module CtlSteps {
  import opened CtlRequest
  import opened CtlEngine
  import opened CtlProofs

  /**
   A transmitted request waits; one that expects no reply is completed by its work at once. A request
   that could not be sent leaves the queue and fails.
   */
  lemma TransmitExact(c: Ctl, id: nat, reply: bool)
    requires Inv(c) && !c.freed && id < |c.reqs| && c.reqs[id].phase == Queued && c.reqs[id].kind != Receive
    ensures var d := Step(c, OnRequest(id, DoTransmitted(true, reply)));
            && |d.reqs| == |c.reqs| && d.reqs[id].phase == Waiting && d.queue == c.queue
            && d.reqs[id].pending == (c.reqs[id].pending || !reply)
            && (c.reqs[id].st.tx == TxIdle ==> d.reqs[id].st.tx == TxQueued)
    ensures var d := Step(c, OnRequest(id, DoTransmitted(false, reply)));
            |d.reqs| == |c.reqs| && d.reqs[id].phase == Failing && !d.reqs[id].active && Inv(d) && id !in d.queue
  {
    SentIs(c, id, reply);
    NotSent(c, id, reply);
  }

  lemma NotSent(c: Ctl, id: nat, reply: bool)
    requires Inv(c) && !c.freed && id < |c.reqs| && c.reqs[id].phase == Queued && c.reqs[id].kind != Receive
    ensures var d := Step(c, OnRequest(id, DoTransmitted(false, reply)));
            |d.reqs| == |c.reqs| && d.reqs[id].phase == Failing && !d.reqs[id].active && Inv(d) && id !in d.queue
  {
    var op := OnRequest(id, DoTransmitted(false, reply));
    StepInv(c, op);
    var d := Step(c, op);
    assert ReqOk(d.reqs[id], id in d.queue, d.sem == id, d.stop == Swept);
  }

  /** A wait that runs out is counted, and the request is canceled; only a held one goes on to its local wait. */
  lemma TimedOutExact(c: Ctl, id: nat)
    requires Inv(c) && !c.freed && id < |c.reqs| && c.reqs[id].phase == Waiting && c.reqs[id].kind != Async && !c.reqs[id].done
    ensures var d := Step(c, OnRequest(id, DoTimedOut));
            && |d.reqs| == |c.reqs| && d.timeouts == c.timeouts + 1 && d.reqs[id].canceled
            && d.reqs[id].phase == (if c.reqs[id].hold then Flushing else Canceling)
            && (!c.reqs[id].hold ==> d.reqs[id].pending)
            && (c.reqs[id].st.peer == PeerWaiting ==> d.reqs[id].st.peer == PeerTimedOut)
  {
    TimedOutIs(c, id);
    var r := c.reqs[id];
    if !r.hold {
      CancelIs(c, id, StateStep(r.st, EvPeerTimedOut).0, c.timeouts + 1);
    }
  }

  /** A reply is only looked for among queued requests, one at a time, while the rings run. */
  lemma FoundExact(c: Ctl, id: nat)
    requires Inv(c) && !c.freed && id < |c.reqs| && c.rx == -1
    ensures Step(c, OnRequest(id, DoRxFind)).rx == id <==> id in c.queue && (c.stop == Running || c.stop == Stopping)
  {
    assert ReqOk(c.reqs[id], id in c.queue, c.sem == id, c.stop == Swept);
  }

  /** A local completion settles the request that waits for one, as accepted or failed. */
  lemma LocalExact(c: Ctl, id: nat, ok: bool)
    requires Inv(c) && !c.freed && id in c.queue && c.reqs[id].st.local == LocalWaiting && (c.stop == Running || c.stop == Stopping)
    ensures var d := Step(c, OnRequest(id, DoRxLocal(if ok then EvLocalAccepted else EvLocalFailed)));
            |d.reqs| == |c.reqs| && d.reqs[id].st.local == if ok then LocalAccepted else LocalFailed
  {
    assert ReqOk(c.reqs[id], id in c.queue, c.sem == id, c.stop == Swept);
  }

  lemma WorkEndsFields(c: Ctl, id: nat)
    requires id < |c.reqs| && c.reqs[id].running && c.reqs[id].called
    ensures var d := WorkEnds(c, id);
            && |d.reqs| == |c.reqs| && !d.reqs[id].running && d.reqWorks == c.reqWorks - 1
            && d.reqs[id].active == (c.reqs[id].active && HoldFlag(c.reqs[id]))
  {
  }

  /** The completion work takes its request off the queue, unless the submitter still holds it for its local wait. */
  lemma WorkEndsExact(c: Ctl, id: nat, d: Ctl)
    requires Inv(c) && !c.freed && id < |c.reqs| && c.reqs[id].running && c.reqs[id].called
    requires d == Step(c, OnRequest(id, DoWorkEnds))
    ensures |d.reqs| == |c.reqs| && !d.reqs[id].running && d.reqWorks == c.reqWorks - 1
    ensures id in d.queue <==> id in c.queue && HoldFlag(c.reqs[id])
  {
    StepInv(c, OnRequest(id, DoWorkEnds));
    WorkEndsFields(c, id);
    assert ReqOk(c.reqs[id], id in c.queue, c.sem == id, c.stop == Swept);
    assert ReqOk(d.reqs[id], id in d.queue, d.sem == id, d.stop == Swept);
  }
}
