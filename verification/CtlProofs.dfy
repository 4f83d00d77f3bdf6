/**
 What every interleaving of the control channel keeps (ctl.c): queue
 membership, exclusive use of the command slot, the exact work count, and the
 guarantees of stop, free and teardown.
 */
module CtlProofs {
  import opened CtlRequest
  import opened CtlEngine

  // ----- the work count

  function Load(r: Req): (n: nat) {
    (if r.pending then 1 else 0) + (if r.running then 1 else 0) + (if r.slot && Counted(r.phase) then 1 else 0)
  }

  /** Pending and running works, and command-slot holders and waiters. */
  function TotalLoad(rs: seq<Req>): (n: nat) {
    if rs == [] then 0 else TotalLoad(rs[..|rs| - 1]) + Load(rs[|rs| - 1])
  }

  lemma {:induction false} LoadUpdate(rs: seq<Req>, id: nat, r: Req)
    requires id < |rs|
    ensures TotalLoad(rs[id := r]) == TotalLoad(rs) - Load(rs[id]) + Load(r)
  {
    var n := |rs| - 1;
    if id == n {
      assert rs[id := r][..n] == rs[..n];
    } else {
      assert rs[id := r][..n] == rs[..n][id := r];
      LoadUpdate(rs[..n], id, r);
    }
  }

  lemma {:induction false} LoadCovers(rs: seq<Req>, id: nat)
    requires id < |rs|
    ensures Load(rs[id]) <= TotalLoad(rs)
  {
    if id < |rs| - 1 {
      LoadCovers(rs[..|rs| - 1], id);
    }
  }

  // ----- the invariant

  predicate NoDup(q: seq<nat>) {
    forall i, j | 0 <= i < j < |q| :: q[i] != q[j]
  }

  predicate OnQueuePhase(p: Phase) {
    p == Queued || p == Waiting || p == Canceling || p == Flushing || p == LocalWait
  }

  /** Before it is enqueued nothing refers to a request. */
  predicate Early(p: Phase) {
    p == Idle || p == WaitSem || p == Ready
  }

  /** What holds of one request, given whether it is queued, holds the slot, and the stop phase. */
  predicate ReqOk(r: Req, queued: bool, holdsSem: bool, swept: bool) {
    && (r.active <==> queued)
    && ((r.slot && Holding(r.phase)) <==> holdsSem)
    && (r.active ==> OnQueuePhase(r.phase))
    && (Early(r.phase) ==> !r.done && !r.pending && !r.running && !r.stopped)
    && (r.phase == WaitSem ==> r.slot)
    && (r.called ==> r.running)
    && (r.slot ==> r.kind == Sync) && (r.hold ==> r.slot)
    && (r.st.local == LocalWaiting ==> r.hold)
    && (!r.hold && r.done && r.active ==> r.running && r.called)
    && (r.phase == Flushing && r.active && !r.hold ==> r.done)
    && (swept && r.active ==> SweptOk(r))
  }

  /** A request that outlived a stop waits for nothing, and its completion cannot be lost. */
  predicate SweptOk(r: Req) {
    && r.stopped && r.st.local != LocalWaiting && r.st.peer != PeerWaiting
    && (if r.hold then r.done || r.pending || (r.running && !r.called) else r.pending || r.running)
  }

  predicate AllReqsOk(c: Ctl) {
    forall id | 0 <= id < |c.reqs| :: ReqOk(c.reqs[id], id in c.queue, c.sem == id, c.stop == Swept)
  }

  predicate Inv(c: Ctl) {
    && Shaped(c)
    && NoDup(c.queue)
    && AllReqsOk(c)
    && c.reqWorks == TotalLoad(c.reqs) + c.asyncHolders
    && (c.stop == RingsStopped || c.stop == Swept ==> c.rx == -1)
    && (c.rx >= 0 ==> !Early(c.reqs[c.rx].phase))
    && (c.freed ==> c.reqWorks == 0)
  }

  /** A request as its submitter hands it in: allocated zeroed, with none of its flags set. */
  predicate Fresh(r: Req) {
    && r.phase == Idle && !r.active && !r.pending && !r.running && !r.called && !r.done && !r.canceled && !r.stopped
    && (r.slot ==> r.kind == Sync) && (r.hold ==> r.slot) && (r.st.local == LocalWaiting ==> r.hold)
  }

  function Started(rs: seq<Req>): (c: Ctl) {
    Ctl(rs, [], -1, 0, 0, -1, Running, false, 0, false)
  }

  lemma {:induction false} FreshLoad(rs: seq<Req>)
    requires forall i | 0 <= i < |rs| :: Fresh(rs[i])
    ensures TotalLoad(rs) == 0
  {
    if rs != [] {
      FreshLoad(rs[..|rs| - 1]);
    }
  }

  predicate AllFresh(rs: seq<Req>) {
    forall i | 0 <= i < |rs| :: Fresh(rs[i])
  }

  lemma StartedInv(rs: seq<Req>)
    requires AllFresh(rs)
    ensures Inv(Started(rs))
  {
    FreshLoad(rs);
  }

  // ----- steps that change one request

  /** The other requests do not notice. */
  lemma OthersOk(c: Ctl, d: Ctl, id: nat)
    requires AllReqsOk(c) && id < |c.reqs| == |d.reqs| && d.reqs == c.reqs[id := d.reqs[id]] && d.stop == c.stop
    requires d.sem == c.sem || ((c.sem == -1 || c.sem == id) && (d.sem == -1 || d.sem == id))
    requires forall j | 0 <= j < |c.reqs| && j != id :: (j in d.queue <==> j in c.queue)
    requires ReqOk(d.reqs[id], id in d.queue, d.sem == id, d.stop == Swept)
    ensures AllReqsOk(d)
  {
    forall j | 0 <= j < |d.reqs|
      ensures ReqOk(d.reqs[j], j in d.queue, d.sem == j, d.stop == Swept)
    {
      assert ReqOk(c.reqs[j], j in c.queue, c.sem == j, c.stop == Swept);
    }
  }

  /** What a step may change besides request `id` and the queue. */
  function Changed(c: Ctl, id: nat, r: Req, sem: int, works: int, timeouts: nat, rx: int): (d: Ctl)
    requires id < |c.reqs|
  {
    c.(reqs := c.reqs[id := r], sem := sem, reqWorks := works, timeouts := timeouts, rx := rx)
  }

  predicate Fits(c: Ctl, id: nat, r: Req, sem: int, works: int, rx: int)
    requires id < |c.reqs|
  {
    && !c.freed
    && (sem == c.sem || ((c.sem == -1 || c.sem == id) && (sem == -1 || sem == id)))
    && works - c.reqWorks == Load(r) - Load(c.reqs[id])
    && -1 <= rx < |c.reqs| && (c.stop == RingsStopped || c.stop == Swept ==> rx == -1)
    && (rx >= 0 ==> !Early((if rx == id then r else c.reqs[rx]).phase))
  }

  /** The step leaves the queue alone. */
  lemma KeepQueue(c: Ctl, id: nat, r: Req, sem: int, works: int, timeouts: nat, rx: int)
    requires Inv(c) && id < |c.reqs| && Fits(c, id, r, sem, works, rx)
    requires ReqOk(r, id in c.queue, sem == id, c.stop == Swept)
    ensures Inv(Changed(c, id, r, sem, works, timeouts, rx))
  {
    LoadUpdate(c.reqs, id, r);
    OthersOk(c, Changed(c, id, r, sem, works, timeouts, rx), id);
  }

  function Dropped(c: Ctl, id: nat, r: Req, works: int): (d: Ctl)
    requires id < |c.reqs|
  {
    c.(reqs := c.reqs[id := r], queue := Remove(c.queue, id), reqWorks := works)
  }

  /** The step takes `id` off the queue. */
  lemma DropQueue(c: Ctl, id: nat, r: Req, works: int)
    requires Inv(c) && id < |c.reqs| && Fits(c, id, r, c.sem, works, c.rx)
    requires ReqOk(r, false, c.sem == id, c.stop == Swept)
    ensures Inv(Dropped(c, id, r, works))
  {
    LoadUpdate(c.reqs, id, r);
    RemoveShaped(c, id);
    OthersOk(c, Dropped(c, id, r, works), id);
  }

  lemma PutTwice(rs: seq<Req>, id: nat, a: Req, b: Req)
    requires id < |rs|
    ensures rs[id := a][id := b] == rs[id := b]
  {
  }

  lemma Known(c: Ctl, id: nat)
    requires Inv(c) && id < |c.reqs|
    ensures ReqOk(c.reqs[id], id in c.queue, c.sem == id, c.stop == Swept)
    ensures c.reqs[id := c.reqs[id]] == c.reqs
  {
  }

  lemma {:induction false} RemoveMembers(q: seq<nat>, id: nat, j: nat)
    ensures j in Remove(q, id) <==> j in q && j != id
  {
    if q != [] {
      RemoveMembers(q[1..], id, j);
      assert j in q <==> j == q[0] || j in q[1..];
    }
  }

  lemma {:induction false} RemoveNoDup(q: seq<nat>, id: nat)
    requires NoDup(q)
    ensures NoDup(Remove(q, id))
  {
    if q != [] {
      RemoveNoDup(q[1..], id);
      RemoveMembers(q[1..], id, q[0]);
      assert q[0] !in q[1..];
    }
  }

  lemma RemoveShaped(c: Ctl, id: nat)
    requires Inv(c) && id < |c.reqs|
    ensures forall i | 0 <= i < |Remove(c.queue, id)| :: Remove(c.queue, id)[i] < |c.reqs|
    ensures NoDup(Remove(c.queue, id))
    ensures forall j: nat :: j in Remove(c.queue, id) <==> j in c.queue && j != id
  {
    RemoveNoDup(c.queue, id);
    forall j: nat
      ensures j in Remove(c.queue, id) <==> j in c.queue && j != id
    {
      RemoveMembers(c.queue, id, j);
    }
    var q := Remove(c.queue, id);
    forall i | 0 <= i < |q|
      ensures q[i] < |c.reqs|
    {
      assert q[i] in q;
      assert q[i] in c.queue;
    }
  }

  lemma BeginInv(c: Ctl, id: nat)
    requires Inv(c) && !c.freed && id < |c.reqs|
    ensures Inv(Begin(c, id))
  {
    Known(c, id);
    var r := c.reqs[id];
    if r.phase == Idle {
      if r.slot {
        KeepQueue(c, id, r.(phase := WaitSem), c.sem, c.reqWorks + 1, c.timeouts, c.rx);
      } else {
        KeepQueue(c, id, r.(phase := Ready), c.sem, c.reqWorks, c.timeouts, c.rx);
      }
    }
  }

  lemma DownInv(c: Ctl, id: nat)
    requires Inv(c) && !c.freed && id < |c.reqs|
    ensures Inv(Down(c, id))
  {
    Known(c, id);
    var r := c.reqs[id];
    if r.phase == WaitSem && c.sem == -1 {
      KeepQueue(c, id, r.(phase := Ready), id, c.reqWorks, c.timeouts, c.rx);
    }
  }

  lemma AppendShaped(q: seq<nat>, id: nat)
    requires NoDup(q) && id !in q
    ensures NoDup(q + [id]) && forall j: nat :: j in q + [id] <==> j in q || j == id
  {
  }

  /** Admission appends the request to the queue. */
  lemma AdmitInv(c: Ctl, id: nat, r: Req)
    requires Inv(c) && id < |c.reqs| && id !in c.queue && Fits(c, id, r, c.sem, c.reqWorks, c.rx)
    requires ReqOk(r, true, c.sem == id, c.stop == Swept)
    ensures Inv(c.(reqs := c.reqs[id := r], queue := c.queue + [id]))
  {
    AppendShaped(c.queue, id);
    LoadUpdate(c.reqs, id, r);
    OthersOk(c, c.(reqs := c.reqs[id := r], queue := c.queue + [id]), id);
  }

  lemma EnqueueInv(c: Ctl, id: nat)
    requires Inv(c) && !c.freed && id < |c.reqs| && c.reqs[id].phase == Ready
    ensures Inv(Enqueue(c, id))
  {
    Known(c, id);
    var r := c.reqs[id];
    if MayStart(c.stop == Running, c.teardown, c.timeouts) {
      AdmitInv(c, id, r.(phase := Queued, active := true));
    } else {
      KeepQueue(c, id, r.(phase := Failing), c.sem, c.reqWorks, c.timeouts, c.rx);
    }
  }

  lemma WokenInv(c: Ctl, id: nat)
    requires Inv(c) && !c.freed && id < |c.reqs|
    ensures Inv(Woken(c, id)) && Inv(CancelSeen(c, id))
  {
    Known(c, id);
    var r := c.reqs[id];
    if (r.phase == Waiting && r.done) || (r.phase == Canceling && !r.active) {
      KeepQueue(c, id, r.(phase := Flushing), c.sem, c.reqWorks, c.timeouts, c.rx);
    }
  }

  lemma FlushedInv(c: Ctl, id: nat)
    requires Inv(c) && !c.freed && id < |c.reqs|
    ensures Inv(Flushed(c, id))
  {
    Known(c, id);
    var r := c.reqs[id];
    if r.phase == Flushing && !r.pending && !r.running {
      KeepQueue(c, id, r.(phase := if r.hold then LocalWait else Releasing), c.sem, c.reqWorks, c.timeouts, c.rx);
    }
  }

  function CanceledReq(r: Req, st: State): (s: Req) {
    r.(st := StateStep(st, EvRequestCanceled).0, canceled := true, phase := Canceling, pending := true)
  }

  lemma CancelIs(c: Ctl, id: nat, st: State, timeouts: nat)
    requires id < |c.reqs|
    ensures var r := c.reqs[id];
            Cancel(Put(c, id, r.(st := st)).(timeouts := timeouts), id)
            == Changed(c, id, CanceledReq(r, st), c.sem, c.reqWorks + if r.pending then 0 else 1, timeouts, c.rx)
  {
    var r := c.reqs[id];
    var r' := CanceledReq(r, st);
    PutTwice(c.reqs, id, r.(st := st), r'.(pending := r.pending));
    PutTwice(c.reqs, id, r'.(pending := r.pending), r');
  }

  lemma CanceledOk(r: Req, st: State, holdsSem: bool, swept: bool)
    requires ReqOk(r, r.active, holdsSem, swept) && !r.hold && (r.phase == Queued || r.phase == Waiting)
    requires st.local == r.st.local && (r.st.peer != PeerWaiting ==> st.peer != PeerWaiting)
    ensures ReqOk(CanceledReq(r, st), r.active, holdsSem, swept)
    ensures Load(CanceledReq(r, st)) == Load(r) + if r.pending then 0 else 1
  {
  }

  /** Canceling a queued request without a local hold, whose peer state moved to `st`. */
  lemma CancelInv(c: Ctl, id: nat, st: State, timeouts: nat)
    requires Inv(c) && !c.freed && id < |c.reqs|
    requires !c.reqs[id].hold && (c.reqs[id].phase == Queued || c.reqs[id].phase == Waiting)
    requires st.local == c.reqs[id].st.local && (c.reqs[id].st.peer != PeerWaiting ==> st.peer != PeerWaiting)
    ensures Inv(Cancel(Put(c, id, c.reqs[id].(st := st)).(timeouts := timeouts), id))
  {
    Known(c, id);
    var r := c.reqs[id];
    CancelIs(c, id, st, timeouts);
    CanceledOk(r, st, c.sem == id, c.stop == Swept);
    KeepQueue(c, id, CanceledReq(r, st), c.sem, c.reqWorks + if r.pending then 0 else 1, timeouts, c.rx);
  }

  function SentReq(r: Req): (s: Req) {
    r.(phase := Waiting, st := TxStep(r.st, EvQueued))
  }

  lemma SentIs(c: Ctl, id: nat, reply: bool)
    requires id < |c.reqs| && c.reqs[id].phase == Queued
    ensures var r := c.reqs[id];
            Transmitted(c, id, true, reply) ==
            if reply || r.kind == Receive || r.pending then Changed(c, id, SentReq(r), c.sem, c.reqWorks, c.timeouts, c.rx)
            else Changed(c, id, SentReq(r).(pending := true), c.sem, c.reqWorks + 1, c.timeouts, c.rx)
  {
    var r := c.reqs[id];
    PutTwice(c.reqs, id, SentReq(r), SentReq(r).(pending := true));
  }

  /** A transmitted request waits. */
  lemma SentInv(c: Ctl, id: nat)
    requires Inv(c) && !c.freed && id < |c.reqs| && c.reqs[id].phase == Queued
    ensures Inv(Changed(c, id, SentReq(c.reqs[id]), c.sem, c.reqWorks, c.timeouts, c.rx))
  {
    Known(c, id);
    KeepQueue(c, id, SentReq(c.reqs[id]), c.sem, c.reqWorks, c.timeouts, c.rx);
  }

  /** One that expects no reply completes through its work. */
  lemma SentAndScheduledInv(c: Ctl, id: nat)
    requires Inv(c) && !c.freed && id < |c.reqs| && c.reqs[id].phase == Queued && !c.reqs[id].pending
    ensures Inv(Changed(c, id, SentReq(c.reqs[id]).(pending := true), c.sem, c.reqWorks + 1, c.timeouts, c.rx))
  {
    Known(c, id);
    KeepQueue(c, id, SentReq(c.reqs[id]).(pending := true), c.sem, c.reqWorks + 1, c.timeouts, c.rx);
  }

  lemma NotSentIs(c: Ctl, id: nat, reply: bool)
    requires id < |c.reqs| && c.reqs[id].phase == Queued && c.reqs[id].kind != Receive
    ensures var r := c.reqs[id];
            Transmitted(c, id, false, reply) ==
            if r.active then Dropped(c, id, r.(active := false, phase := Failing), c.reqWorks)
            else Changed(c, id, r.(phase := Failing), c.sem, c.reqWorks, c.timeouts, c.rx)
  {
    var r := c.reqs[id];
    PutTwice(c.reqs, id, r.(active := false), r.(active := false, phase := Failing));
  }

  /** A request that could not be transmitted leaves the queue, if a stop did not take it off first. */
  lemma NotSentInv(c: Ctl, id: nat)
    requires Inv(c) && !c.freed && id < |c.reqs| && c.reqs[id].phase == Queued
    ensures c.reqs[id].active ==>
              Inv(Dropped(c, id, c.reqs[id].(active := false, phase := Failing), c.reqWorks))
    ensures !c.reqs[id].active ==>
              Inv(Changed(c, id, c.reqs[id].(phase := Failing), c.sem, c.reqWorks, c.timeouts, c.rx))
  {
    Known(c, id);
    var r := c.reqs[id];
    if r.active {
      DropQueue(c, id, r.(active := false, phase := Failing), c.reqWorks);
    } else {
      KeepQueue(c, id, r.(phase := Failing), c.sem, c.reqWorks, c.timeouts, c.rx);
    }
  }

  /** A receive-only request whose submission failed is canceled. */
  lemma NotSubmittedInv(c: Ctl, id: nat, reply: bool)
    requires Inv(c) && !c.freed && id < |c.reqs| && c.reqs[id].phase == Queued && c.reqs[id].kind == Receive
    ensures Inv(Transmitted(c, id, false, reply))
  {
    Known(c, id);
    var r := c.reqs[id];
    assert Put(c, id, r.(st := r.st)).(timeouts := c.timeouts) == c;
    CancelInv(c, id, r.st, c.timeouts);
  }

  function TimedOutReq(r: Req): (s: Req) {
    r.(st := StateStep(r.st, EvPeerTimedOut).0, canceled := true, phase := Flushing)
  }

  lemma TimedOutIs(c: Ctl, id: nat)
    requires id < |c.reqs| && c.reqs[id].phase == Waiting && c.reqs[id].kind != Async && !c.reqs[id].done
    ensures var r := c.reqs[id];
            TimedOut(c, id) ==
            if r.hold then Changed(c, id, TimedOutReq(r), c.sem, c.reqWorks, c.timeouts + 1, c.rx)
            else Cancel(Put(c, id, r.(st := StateStep(r.st, EvPeerTimedOut).0)).(timeouts := c.timeouts + 1), id)
  {
  }

  lemma TimedOutOk(r: Req, queued: bool, holdsSem: bool, swept: bool)
    requires ReqOk(r, queued, holdsSem, swept) && r.phase == Waiting && r.hold
    ensures ReqOk(TimedOutReq(r), queued, holdsSem, swept) && Load(TimedOutReq(r)) == Load(r)
  {
  }

  lemma TimedOutInv(c: Ctl, id: nat)
    requires Inv(c) && !c.freed && id < |c.reqs|
    requires c.reqs[id].phase == Waiting && c.reqs[id].kind != Async && !c.reqs[id].done
    ensures Inv(TimedOut(c, id))
  {
    Known(c, id);
    TimedOutIs(c, id);
    var r := c.reqs[id];
    if r.hold {
      TimedOutOk(r, id in c.queue, c.sem == id, c.stop == Swept);
      KeepQueue(c, id, TimedOutReq(r), c.sem, c.reqWorks, c.timeouts + 1, c.rx);
    } else {
      CancelInv(c, id, StateStep(r.st, EvPeerTimedOut).0, c.timeouts + 1);
    }
  }

  function SettledReq(r: Req): (s: Req) {
    r.(active := false, st := StateStep(r.st, EvLocalTimedOut).0, phase := Releasing)
  }

  lemma LocalSettledIs(c: Ctl, id: nat)
    requires id < |c.reqs| && c.reqs[id].phase == LocalWait
    ensures LocalSettled(c, id) ==
            if c.reqs[id].active then Dropped(c, id, SettledReq(c.reqs[id]), c.reqWorks)
            else Changed(c, id, SettledReq(c.reqs[id]), c.sem, c.reqWorks, c.timeouts, c.rx)
  {
    PutTwice(c.reqs, id, c.reqs[id].(active := false), SettledReq(c.reqs[id]));
  }

  lemma LocalSettledInv(c: Ctl, id: nat)
    requires Inv(c) && !c.freed && id < |c.reqs|
    ensures Inv(LocalSettled(c, id))
  {
    Known(c, id);
    var r := c.reqs[id];
    if r.phase == LocalWait {
      LocalSettledIs(c, id);
      if r.active {
        DropQueue(c, id, SettledReq(r), c.reqWorks);
      } else {
        KeepQueue(c, id, SettledReq(r), c.sem, c.reqWorks, c.timeouts, c.rx);
      }
    }
  }

  lemma ReleaseInv(c: Ctl, id: nat)
    requires Inv(c) && !c.freed && id < |c.reqs|
    ensures Inv(Release(c, id))
  {
    Known(c, id);
    var r := c.reqs[id];
    if r.phase == Releasing || r.phase == Failing {
      if r.slot {
        KeepQueue(c, id, r.(phase := Finished), -1, c.reqWorks - 1, c.timeouts, c.rx);
      } else {
        KeepQueue(c, id, r.(phase := Finished), c.sem, c.reqWorks, c.timeouts, c.rx);
      }
    }
  }

  lemma RxInv(c: Ctl, id: nat, ev: Event)
    requires Inv(c) && !c.freed && id < |c.reqs|
    ensures Inv(RxFind(c, id)) && Inv(RxLocal(c, id, ev))
  {
    Known(c, id);
    var r := c.reqs[id];
    if c.rx == -1 && r.active && (c.stop == Running || c.stop == Stopping) {
      KeepQueue(c, id, r, c.sem, c.reqWorks, c.timeouts, id);
    }
    if RxLocal(c, id, ev) != c {
      KeepQueue(c, id, r.(st := StateStep(r.st, ev).0), c.sem, c.reqWorks, c.timeouts, c.rx);
    }
  }

  /** The request after its reply was matched, before its work is scheduled. */
  function Replied(r: Req): (s: Req) {
    if r.st.peer != PeerDisabled then r.(st := StateStep(r.st, EvPeerMatched).0) else r
  }

  predicate Accepts(r: Req) {
    if r.st.peer != PeerDisabled then r.st.peer == PeerWaiting else r.st.local == LocalDisabled
  }

  lemma RxReplyIs(c: Ctl, last: bool)
    requires 0 <= c.rx < |c.reqs|
    ensures var id, r := c.rx, c.reqs[c.rx];
            RxReply(c, last) ==
            if !Accepts(r) then Changed(c, id, r, c.sem, c.reqWorks, c.timeouts, -1)
            else if last && !r.pending then Changed(c, id, Replied(r).(pending := true), c.sem, c.reqWorks + 1, 0, -1)
            else Changed(c, id, Replied(r), c.sem, c.reqWorks, 0, -1)
  {
    var id, r := c.rx, c.reqs[c.rx];
    assert c.reqs[id := r] == c.reqs;
    PutTwice(c.reqs, id, Replied(r), Replied(r).(pending := true));
  }

  lemma RepliedOk(r: Req, queued: bool, holdsSem: bool, swept: bool)
    requires ReqOk(r, queued, holdsSem, swept) && !Early(r.phase)
    ensures ReqOk(Replied(r), queued, holdsSem, swept) && Replied(r).phase == r.phase && Load(Replied(r)) == Load(r)
    ensures ReqOk(Replied(r).(pending := true), queued, holdsSem, swept)
    ensures !r.pending ==> Load(Replied(r).(pending := true)) == Load(r) + 1
  {
  }

  lemma RxReplyInv(c: Ctl, last: bool)
    requires Inv(c) && !c.freed && c.rx >= 0
    ensures Inv(RxReply(c, last))
  {
    var id, r := c.rx, c.reqs[c.rx];
    Known(c, id);
    RxReplyIs(c, last);
    RepliedOk(r, id in c.queue, c.sem == id, c.stop == Swept);
    if !Accepts(r) {
      KeepQueue(c, id, r, c.sem, c.reqWorks, c.timeouts, -1);
    } else if last && !r.pending {
      KeepQueue(c, id, Replied(r).(pending := true), c.sem, c.reqWorks + 1, 0, -1);
    } else {
      KeepQueue(c, id, Replied(r), c.sem, c.reqWorks, 0, -1);
    }
  }

  function StartedWork(r: Req): (s: Req) {
    r.(pending := false, running := true, called := false)
  }

  function CalledBack(r: Req): (s: Req) {
    r.(called := true, done := r.done || !r.canceled || r.stopped)
  }

  lemma WorkOk(r: Req, queued: bool, holdsSem: bool, swept: bool)
    requires ReqOk(r, queued, holdsSem, swept)
    ensures r.pending && !r.running ==> ReqOk(StartedWork(r), queued, holdsSem, swept) && Load(StartedWork(r)) == Load(r)
    ensures r.running && !r.called ==> ReqOk(CalledBack(r), queued, holdsSem, swept) && Load(CalledBack(r)) == Load(r)
  {
  }

  lemma WorkInv(c: Ctl, id: nat)
    requires Inv(c) && !c.freed && id < |c.reqs|
    ensures Inv(WorkStarts(c, id)) && Inv(WorkCalls(c, id))
  {
    Known(c, id);
    var r := c.reqs[id];
    WorkOk(r, id in c.queue, c.sem == id, c.stop == Swept);
    if r.pending && !r.running {
      KeepQueue(c, id, StartedWork(r), c.sem, c.reqWorks, c.timeouts, c.rx);
    }
    if r.running && !r.called {
      KeepQueue(c, id, CalledBack(r), c.sem, c.reqWorks, c.timeouts, c.rx);
    }
  }

  lemma WorkEndsIs(c: Ctl, id: nat)
    requires id < |c.reqs| && c.reqs[id].running && c.reqs[id].called
    ensures var r := c.reqs[id].(running := false, called := false);
            WorkEnds(c, id) ==
            if HoldFlag(r) || !r.active then Changed(c, id, r, c.sem, c.reqWorks - 1, c.timeouts, c.rx)
            else Dropped(c, id, r.(active := false), c.reqWorks - 1)
  {
    var r := c.reqs[id];
    PutTwice(c.reqs, id, r.(active := false), r.(active := false, running := false, called := false));
  }

  lemma WorkEndsOk(r: Req, holdsSem: bool, swept: bool)
    requires ReqOk(r, r.active, holdsSem, swept) && r.running && r.called
    ensures var s := r.(running := false, called := false);
            && Load(s) == Load(r) - 1 == Load(s.(active := false))
            && (if HoldFlag(s) || !s.active then ReqOk(s, s.active, holdsSem, swept)
                else ReqOk(s.(active := false), false, holdsSem, swept))
  {
  }

  lemma WorkKeepsInv(c: Ctl, id: nat, r: Req)
    requires Inv(c) && !c.freed && id < |c.reqs|
    requires ReqOk(r, c.reqs[id].active, c.sem == id, c.stop == Swept)
    requires r.phase == c.reqs[id].phase && Load(r) == Load(c.reqs[id]) - 1
    ensures Inv(Changed(c, id, r, c.sem, c.reqWorks - 1, c.timeouts, c.rx))
  {
    Known(c, id);
    KeepQueue(c, id, r, c.sem, c.reqWorks - 1, c.timeouts, c.rx);
  }

  lemma WorkDropsInv(c: Ctl, id: nat, r: Req)
    requires Inv(c) && !c.freed && id < |c.reqs|
    requires ReqOk(r, false, c.sem == id, c.stop == Swept)
    requires r.phase == c.reqs[id].phase && Load(r) == Load(c.reqs[id]) - 1
    ensures Inv(Dropped(c, id, r, c.reqWorks - 1))
  {
    DropQueue(c, id, r, c.reqWorks - 1);
  }

  lemma WorkEndsInv(c: Ctl, id: nat)
    requires Inv(c) && !c.freed && id < |c.reqs| && c.reqs[id].running && c.reqs[id].called
    ensures Inv(WorkEnds(c, id))
  {
    Known(c, id);
    WorkEndsIs(c, id);
    WorkEndsOk(c.reqs[id], c.sem == id, c.stop == Swept);
    var r := c.reqs[id].(running := false, called := false);
    if HoldFlag(r) || !r.active {
      WorkKeepsInv(c, id, r);
    } else {
      WorkDropsInv(c, id, r.(active := false));
    }
  }

  // ----- stop

  lemma {:induction false} SweepFirstInv(c: Ctl, n: nat)
    requires Inv(c) && !c.freed && c.stop == RingsStopped && n <= |c.queue|
    ensures var d := SweepFirst(c, n); Inv(d) && d.stop == RingsStopped && !d.freed && d.rx == -1
  {
    if n > 0 {
      SweepFirstInv(c, n - 1);
      SweepOneInv(SweepFirst(c, n - 1), c.queue[n - 1]);
    }
  }

  /** The first `n` queued requests were swept. */
  lemma {:induction false} SweepFirstOk(c: Ctl, n: nat, i: nat)
    requires Shaped(c) && NoDup(c.queue) && i < n <= |c.queue|
    ensures SweptOk(SweepFirst(c, n).reqs[c.queue[i]])
  {
    if i < n - 1 {
      SweepFirstOk(c, n - 1, i);
    }
  }

  function SweptReq(r: Req): (s: Req) {
    r.(st := StopState(r.st), canceled := true, stopped := true, pending := true)
  }

  lemma SweepOneInv(c: Ctl, id: nat)
    requires Inv(c) && !c.freed && c.stop == RingsStopped && id < |c.reqs| && id in c.queue
    ensures Inv(SweepOne(c, id)) && SweepOne(c, id).reqs == c.reqs[id := SweptReq(c.reqs[id])]
    ensures SweptOk(SweptReq(c.reqs[id]))
    ensures SweepOne(c, id).rx == -1 && SweepOne(c, id).stop == RingsStopped && !SweepOne(c, id).freed
  {
    Known(c, id);
    var r := c.reqs[id];
    var works := c.reqWorks + if r.pending then 0 else 1;
    PutTwice(c.reqs, id, SweptReq(r).(pending := r.pending), SweptReq(r));
    assert SweepOne(c, id) == Changed(c, id, SweptReq(r), c.sem, works, c.timeouts, c.rx);
    KeepQueue(c, id, SweptReq(r), c.sem, works, c.timeouts, c.rx);
  }

  lemma SweepInv(c: Ctl)
    requires Inv(c) && !c.freed && c.stop == RingsStopped
    ensures Inv(Sweep(c))
  {
    SweepFirstInv(c, |c.queue|);
    var d := SweepFirst(c, |c.queue|);
    var e := Sweep(c);
    forall id | 0 <= id < |e.reqs|
      ensures ReqOk(e.reqs[id], id in e.queue, e.sem == id, true)
    {
      assert ReqOk(d.reqs[id], id in d.queue, d.sem == id, false);
      if id in d.queue {
        var i :| 0 <= i < |d.queue| && d.queue[i] == id;
        SweepFirstOk(c, |c.queue|, i);
      }
    }
  }

  /** Steps that touch no request. */
  lemma ChannelInv(c: Ctl, d: Ctl)
    requires Inv(c) && !c.freed && d.reqs == c.reqs && d.queue == c.queue && d.sem == c.sem && d.rx == c.rx
    requires d.stop == Swept ==> c.stop == Swept
    requires d.stop == RingsStopped ==> c.rx == -1
    requires d.reqWorks - c.reqWorks == d.asyncHolders - c.asyncHolders
    requires d.freed ==> d.reqWorks == 0
    ensures Inv(d)
  {
    forall id | 0 <= id < |d.reqs|
      ensures ReqOk(d.reqs[id], id in d.queue, d.sem == id, d.stop == Swept)
    {
      assert ReqOk(c.reqs[id], id in c.queue, c.sem == id, c.stop == Swept);
    }
  }

  lemma RequestInv(c: Ctl, id: nat, act: Act)
    requires Inv(c) && !c.freed && id < |c.reqs|
    ensures Inv(Perform(c, id, act))
  {
    var r := c.reqs[id];
    match act {
      case DoBegin => BeginInv(c, id);
      case DoDown => DownInv(c, id);
      case DoEnqueue => if r.phase == Ready { EnqueueInv(c, id); }
      case DoTransmitted(ok, reply) => if r.phase == Queued { TransmittedInv(c, id, ok, reply); }
      case DoWoken => WokenInv(c, id);
      case DoTimedOut => if r.phase == Waiting && r.kind != Async && !r.done { TimedOutInv(c, id); }
      case DoCancelSeen => WokenInv(c, id);
      case DoFlushed => FlushedInv(c, id);
      case DoLocalSettled => LocalSettledInv(c, id);
      case DoRelease => ReleaseInv(c, id);
      case DoRxFind => RxInv(c, id, EvNone);
      case DoRxLocal(ev) => RxInv(c, id, ev);
      case DoWorkStarts => WorkInv(c, id);
      case DoWorkCalls => WorkInv(c, id);
      case DoWorkEnds => if r.running && r.called { WorkEndsInv(c, id); }
    }
  }

  lemma TransmittedInv(c: Ctl, id: nat, ok: bool, reply: bool)
    requires Inv(c) && !c.freed && id < |c.reqs| && c.reqs[id].phase == Queued
    ensures Inv(Transmitted(c, id, ok, reply))
  {
    var r := c.reqs[id];
    if ok {
      SentIs(c, id, reply);
      SentInv(c, id);
      if !r.pending {
        SentAndScheduledInv(c, id);
      }
    } else if r.kind == Receive {
      NotSubmittedInv(c, id, reply);
    } else {
      NotSentIs(c, id, reply);
      NotSentInv(c, id);
    }
  }

  /** Every step of every thread keeps the invariant. */
  lemma OtherStepInv(c: Ctl, op: Op)
    requires Inv(c) && !c.freed && !op.OnRequest? && !op.RxReplies? && op != StopSweeps
    ensures Inv(Step(c, op))
  {
    ChannelInv(c, Step(c, op));
  }

  lemma StepInv(c: Ctl, op: Op)
    requires Inv(c)
    ensures Inv(Step(c, op))
  {
    if !c.freed {
      match op {
        case OnRequest(id, act) => if id < |c.reqs| { RequestInv(c, id, act); }
        case RxReplies(last) => if c.rx >= 0 { RxReplyInv(c, last); }
        case StopSweeps => if c.stop == RingsStopped { SweepInv(c); }
        case _ => OtherStepInv(c, op);
      }
    }
  }

  // ----- every run

  /** The state after a run, every step of which is well defined. */
  function Run(c: Ctl, ops: seq<Op>): (d: Ctl)
    requires Inv(c)
    ensures Inv(d)
    decreases ops
  {
    if ops == [] then c
    else
      var d := Run(c, ops[..|ops| - 1]);
      StepInv(d, ops[|ops| - 1]);
      Step(d, ops[|ops| - 1])
  }

  /** In every interleaving at most one queued request owns the command slot. */
  lemma OneSlotOwner(c: Ctl, ops: seq<Op>, i: nat, j: nat)
    requires Inv(c)
    ensures var d := Run(c, ops); i < j < |d.queue| ==> !(d.reqs[d.queue[i]].slot && d.reqs[d.queue[j]].slot)
  {
    var d := Run(c, ops);
    if i < j < |d.queue| {
      var a, b := d.queue[i], d.queue[j];
      assert ReqOk(d.reqs[a], a in d.queue, d.sem == a, d.stop == Swept);
      assert ReqOk(d.reqs[b], b in d.queue, d.sem == b, d.stop == Swept);
    }
  }

  /** Hence an unsequenced local completion has at most one possible owner. */
  lemma OneLocalWaiter(c: Ctl, ops: seq<Op>, i: nat, j: nat)
    requires Inv(c)
    ensures var d := Run(c, ops);
            i < j < |d.queue| ==>
              !(d.reqs[d.queue[i]].st.local == LocalWaiting && d.reqs[d.queue[j]].st.local == LocalWaiting)
  {
    OneSlotOwner(c, ops, i, j);
    var d := Run(c, ops);
    if i < j < |d.queue| {
      var a, b := d.queue[i], d.queue[j];
      assert ReqOk(d.reqs[a], a in d.queue, d.sem == a, d.stop == Swept);
      assert ReqOk(d.reqs[b], b in d.queue, d.sem == b, d.stop == Swept);
    }
  }

  /** A request is on the queue, once, exactly while its ACTIVE flag is set. */
  lemma QueueIsActive(c: Ctl, ops: seq<Op>, id: nat)
    requires Inv(c)
    ensures var d := Run(c, ops); NoDup(d.queue) && (id < |d.reqs| ==> (id in d.queue <==> d.reqs[id].active))
  {
    var d := Run(c, ops);
    if id < |d.reqs| {
      assert ReqOk(d.reqs[id], id in d.queue, d.sem == id, d.stop == Swept);
    }
  }

  /** The work count is exact: pending and running works, command-slot holders and waiters, async holders. */
  lemma WorkCountExact(c: Ctl, ops: seq<Op>)
    requires Inv(c)
    ensures Run(c, ops).reqWorks == TotalLoad(Run(c, ops).reqs) + Run(c, ops).asyncHolders
  {
  }

  /** tb_ctl_free() frees the channel only when nothing counted can touch it any more. */
  lemma FreeIsSafe(c: Ctl, ops: seq<Op>, id: nat)
    requires Inv(c)
    ensures var d := Run(c, ops);
            d.freed && id < |d.reqs| ==>
              && d.asyncHolders == 0 && !d.reqs[id].pending && !d.reqs[id].running
              && !(d.reqs[id].slot && Counted(d.reqs[id].phase))
  {
    var d := Run(c, ops);
    if id < |d.reqs| {
      LoadCovers(d.reqs, id);
    }
  }

  // ----- after a stop

  /** What a thread can do to the queue and to the channel flags. */
  predicate FlagsKept(c: Ctl, d: Ctl, id: nat) {
    && d.stop == c.stop && d.teardown == c.teardown && d.timeouts >= c.timeouts && d.freed == c.freed
    && (|| d.queue == c.queue
        || d.queue == Remove(c.queue, id)
        || (d.queue == c.queue + [id] && MayStart(c.stop == Running, c.teardown, c.timeouts)))
  }

  lemma TransmittedFlags(c: Ctl, id: nat, ok: bool, reply: bool)
    requires id < |c.reqs|
    ensures FlagsKept(c, Transmitted(c, id, ok, reply), id)
  {
  }

  lemma TimedOutFlags(c: Ctl, id: nat)
    requires id < |c.reqs|
    ensures FlagsKept(c, TimedOut(c, id), id)
  {
  }

  lemma PerformFlags(c: Ctl, id: nat, act: Act)
    requires id < |c.reqs|
    ensures FlagsKept(c, Perform(c, id, act), id)
  {
    match act
    case DoTransmitted(ok, reply) => TransmittedFlags(c, id, ok, reply);
    case DoTimedOut => TimedOutFlags(c, id);
    case _ =>
  }

  /** Without admission a step can only take requests off the queue. */
  lemma QueueShrinks(c: Ctl, op: Op, j: nat)
    requires Inv(c) && !MayStart(c.stop == Running, c.teardown, c.timeouts) && j in Step(c, op).queue
    ensures j in c.queue
  {
    if op.OnRequest? && !c.freed && op.id < |c.reqs| {
      PerformFlags(c, op.id, op.act);
      RemoveMembers(c.queue, op.id, j);
    }
  }

  predicate NoStart(ops: seq<Op>) {
    forall i | 0 <= i < |ops| :: ops[i] != Starts
  }

  /** Once a stop has swept the queue, only a restart lets it grow. */
  lemma {:induction false} StopShrinksQueue(c: Ctl, ops: seq<Op>, j: nat)
    requires Inv(c) && c.stop == Swept && NoStart(ops)
    ensures j in Run(c, ops).queue ==> j in c.queue
    decreases ops
  {
    if ops != [] {
      var front, op := ops[..|ops| - 1], ops[|ops| - 1];
      var d := Run(c, front);
      StaysSwept(c, front);
      StopShrinksQueue(c, front, j);
      if j in Step(d, op).queue {
        QueueShrinks(d, op, j);
      }
    }
  }

  lemma StepSwept(c: Ctl, op: Op)
    requires Inv(c) && c.stop == Swept && op != Starts
    ensures Step(c, op).stop == Swept
  {
    if op.OnRequest? && op.id < |c.reqs| {
      PerformFlags(c, op.id, op.act);
    }
  }

  lemma {:induction false} StaysSwept(c: Ctl, ops: seq<Op>)
    requires Inv(c) && c.stop == Swept && NoStart(ops)
    ensures Run(c, ops).stop == Swept
    decreases ops
  {
    if ops != [] {
      StaysSwept(c, ops[..|ops| - 1]);
      StepSwept(Run(c, ops[..|ops| - 1]), ops[|ops| - 1]);
    }
  }

  // ----- teardown

  /** A ready request is queued if the channel runs and no timeout was counted in teardown, else it fails. */
  lemma AdmissionExact(c: Ctl, id: nat)
    requires Inv(c) && !c.freed && id < |c.reqs| && c.reqs[id].phase == Ready
    ensures var d := Step(c, OnRequest(id, DoEnqueue));
            if c.stop == Running && (!c.teardown || c.timeouts == 0)
            then d.queue == c.queue + [id] && d.reqs[id].phase == Queued
            else d.queue == c.queue && d.reqs[id].phase == Failing
  {
  }

  /** Entering teardown of a live channel changes nothing but admission. */
  lemma TeardownEntered(c: Ctl)
    requires Inv(c) && !c.freed
    ensures var d := Step(c, EntersTeardown);
            Inv(d) && d.teardown && d.timeouts == c.timeouts && d.queue == c.queue && d.reqs == c.reqs && d.stop == c.stop
  {
    StepInv(c, EntersTeardown);
  }

  /** A matched last reply schedules the completion work and ends the run of timeouts. */
  lemma ReplySchedules(c: Ctl, id: nat)
    requires Inv(c) && !c.freed && c.rx == id && Accepts(c.reqs[id])
    ensures var d := Step(c, RxReplies(true));
            && |d.reqs| == |c.reqs| && d.timeouts == 0 && d.rx == -1 && d.reqs[id].pending
            && d.reqs[id].canceled == c.reqs[id].canceled && d.reqs[id].running == c.reqs[id].running
  {
    RxReplyIs(c, true);
  }

  /** The work of a request that was not canceled, or that a stop swept, wakes its waiter. */
  lemma WorkWakes(c: Ctl, id: nat, d: Ctl)
    requires id < |c.reqs| && c.reqs[id].pending && !c.reqs[id].running && d == WorkStarts(c, id)
    ensures id < |d.reqs| && WorkCalls(d, id).reqs[id].done == (c.reqs[id].done || !c.reqs[id].canceled || c.reqs[id].stopped)
  {
  }

  /** The step matches a reply to the request found for it; other replies arrive and are dropped. */
  predicate MatchesReply(c: Ctl, op: Op)
    requires Shaped(c)
  {
    op.RxReplies? && !c.freed && c.rx >= 0 && Accepts(c.reqs[c.rx])
  }

  /** No reply is matched anywhere in the run, whatever else arrives. */
  predicate NoMatch(c: Ctl, ops: seq<Op>)
    requires Inv(c)
    decreases ops
  {
    ops == [] ||
    var front := ops[..|ops| - 1]; NoMatch(c, front) && !MatchesReply(Run(c, front), ops[|ops| - 1])
  }

  lemma ReplyCounts(c: Ctl, last: bool)
    requires Shaped(c) && !c.freed
    ensures var d := RxReply(c, last);
            && d.teardown == c.teardown && d.queue == c.queue
            && d.timeouts == if MatchesReply(c, RxReplies(last)) then 0 else c.timeouts
  {
    if c.rx >= 0 {
      RxReplyIs(c, last);
    }
  }

  /** tb_ctl_start() on a stopped channel. */
  predicate Restarts(c: Ctl, op: Op) {
    op == Starts && c.stop == Swept && !c.freed
  }

  /** The open circuit closes by a matched reply or a restart, and by nothing else. */
  lemma CircuitStep(c: Ctl, op: Op)
    requires Inv(c) && c.teardown && c.timeouts > 0
    ensures Step(c, op).teardown && Step(c, op).timeouts > 0 <==> !MatchesReply(c, op) && !Restarts(c, op)
  {
    if op.OnRequest? && op.id < |c.reqs| {
      PerformFlags(c, op.id, op.act);
    } else if op == StopSweeps && c.stop == RingsStopped {
      SweepFlags(c, |c.queue|);
    } else if op.RxReplies? && !c.freed {
      ReplyCounts(c, op.last);
    }
  }

  lemma {:induction false} CircuitStaysOpen(c: Ctl, ops: seq<Op>)
    requires Inv(c) && c.teardown && c.timeouts > 0 && NoStart(ops) && NoMatch(c, ops)
    ensures Run(c, ops).teardown && Run(c, ops).timeouts > 0
    decreases ops
  {
    if ops != [] {
      CircuitStaysOpen(c, ops[..|ops| - 1]);
      CircuitStep(Run(c, ops[..|ops| - 1]), ops[|ops| - 1]);
    }
  }

  lemma {:induction false} SweepFlags(c: Ctl, n: nat)
    requires Shaped(c) && n <= |c.queue|
    ensures SweepFirst(c, n).teardown == c.teardown && SweepFirst(c, n).timeouts == c.timeouts
  {
    if n > 0 {
      SweepFlags(c, n - 1);
    }
  }

  /**
   Teardown fails fast: after a counted timeout no request is admitted, by any
   thread, until a reply is matched or the channel is started again.
   */
  lemma {:induction false} TeardownAdmitsNothing(c: Ctl, ops: seq<Op>, j: nat)
    requires Inv(c) && c.teardown && c.timeouts > 0 && NoStart(ops) && NoMatch(c, ops)
    ensures j in Run(c, ops).queue ==> j in c.queue
    decreases ops
  {
    if ops != [] {
      var front, op := ops[..|ops| - 1], ops[|ops| - 1];
      CircuitStaysOpen(c, front);
      TeardownAdmitsNothing(c, front, j);
      if j in Step(Run(c, front), op).queue {
        QueueShrinks(Run(c, front), op, j);
      }
    }
  }

  /** So from the moment a channel with a counted timeout enters teardown, its queue only shrinks. */
  lemma TeardownCloses(c: Ctl, ops: seq<Op>, j: nat, d: Ctl)
    requires Inv(c) && !c.freed && c.timeouts > 0 && d == Step(c, EntersTeardown) && Inv(d)
    requires NoStart(ops) && NoMatch(d, ops)
    ensures j in Run(d, ops).queue ==> j in c.queue
  {
    TeardownEntered(c);
    TeardownAdmitsNothing(d, ops, j);
  }

  /**
   After tb_ctl_stop(), whatever is still queued waits neither for a local nor
   for a peer completion, and its completion work is on its way or has already
   signalled the submitter.
   */
  lemma StopLeavesNoWaiter(c: Ctl, ops: seq<Op>, id: nat)
    requires Inv(c)
    ensures var d := Run(c, ops); d.stop == Swept && id in d.queue ==> id < |d.reqs| && SweptOk(d.reqs[id])
  {
    var d := Run(c, ops);
    if d.stop == Swept && id in d.queue {
      var i :| 0 <= i < |d.queue| && d.queue[i] == id;
      assert ReqOk(d.reqs[id], id in d.queue, d.sem == id, d.stop == Swept);
    }
  }
}
