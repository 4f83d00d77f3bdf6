/**
 One retried config-space access (ctl.c) on a live channel: up to as many attempts as
 there are requests for it, each of which has to be admitted first, while every other
 thread of the channel goes on, and teardown may begin at any point.
 */
module CtlAccess {
  import opened CtlRequest
  import opened CtlEngine
  import opened CtlProofs
  import opened CtlDriver

  const ETIMEDOUT := 110

  /** What other threads do before an attempt, while it waits, and before its request is released. */
  datatype Around = Around(before: seq<Op>, during: seq<Op>, after: seq<Op>)

  /** Other threads leave the requests of the access to their submitter and do not free the channel under it. */
  predicate Foreign(op: Op, ids: seq<nat>) {
    op != Frees && (op.OnRequest? && op.id in ids ==> !BySubmitter(op.act))
  }

  predicate AllForeign(ops: seq<Op>, ids: seq<nat>) {
    forall i | 0 <= i < |ops| :: Foreign(ops[i], ids)
  }

  predicate AroundOk(a: Around, ids: seq<nat>) {
    AllForeign(a.before, ids) && AllForeign(a.during, ids) && AllForeign(a.after, ids)
  }

  // ----- what other threads leave alone

  /** Where its submitter is, and what kind of request it is. */
  predicate SamePlace(r: Req, s: Req) {
    s.phase == r.phase && s.kind == r.kind && s.slot == r.slot && s.hold == r.hold
  }

  lemma {:induction false} SweepKeepsPlace(c: Ctl, n: nat, id: nat)
    requires Shaped(c) && n <= |c.queue| && id < |c.reqs|
    ensures SamePlace(c.reqs[id], SweepFirst(c, n).reqs[id]) && SweepFirst(c, n).freed == c.freed
  {
    if n > 0 {
      SweepKeepsPlace(c, n - 1, id);
    }
  }

  lemma ReplyKeepsPlace(c: Ctl, last: bool, id: nat)
    requires Shaped(c) && id < |c.reqs|
    ensures var d := RxReply(c, last); |d.reqs| == |c.reqs| && SamePlace(c.reqs[id], d.reqs[id]) && d.freed == c.freed
  {
    if c.rx >= 0 {
      RxReplyIs(c, last);
    }
  }

  /** The step leaves every request but `id` alone. */
  predicate OnlyOf(c: Ctl, d: Ctl, id: nat, j: nat)
    requires j < |c.reqs|
  {
    |d.reqs| == |c.reqs| && d.freed == c.freed && (j != id ==> d.reqs[j] == c.reqs[j])
  }

  lemma TransmittedOnly(c: Ctl, id: nat, ok: bool, reply: bool, j: nat)
    requires id < |c.reqs| && j < |c.reqs|
    ensures OnlyOf(c, Transmitted(c, id, ok, reply), id, j)
  {
  }

  lemma TimedOutOnly(c: Ctl, id: nat, j: nat)
    requires id < |c.reqs| && j < |c.reqs|
    ensures OnlyOf(c, TimedOut(c, id), id, j)
  {
  }

  lemma SettleOnly(c: Ctl, id: nat, j: nat)
    requires id < |c.reqs| && j < |c.reqs|
    ensures OnlyOf(c, LocalSettled(c, id), id, j) && OnlyOf(c, WorkEnds(c, id), id, j)
  {
  }

  lemma ActOnly(c: Ctl, id: nat, act: Act, j: nat)
    requires id < |c.reqs| && j < |c.reqs|
    ensures OnlyOf(c, Perform(c, id, act), id, j)
  {
    match act
    case DoTransmitted(ok, reply) => TransmittedOnly(c, id, ok, reply, j);
    case DoTimedOut => TimedOutOnly(c, id, j);
    case DoLocalSettled => SettleOnly(c, id, j);
    case DoWorkEnds => SettleOnly(c, id, j);
    case _ =>
  }

  lemma WorkEndsPlace(c: Ctl, id: nat)
    requires id < |c.reqs|
    ensures var d := WorkEnds(c, id); |d.reqs| == |c.reqs| && SamePlace(c.reqs[id], d.reqs[id])
  {
  }

  lemma OwnPlace(c: Ctl, id: nat, act: Act)
    requires id < |c.reqs| && !BySubmitter(act)
    ensures var d := Perform(c, id, act); |d.reqs| == |c.reqs| && SamePlace(c.reqs[id], d.reqs[id])
  {
    if act == DoWorkEnds {
      WorkEndsPlace(c, id);
    }
  }

  lemma ActKeepsPlace(c: Ctl, id: nat, act: Act, j: nat)
    requires id < |c.reqs| && j < |c.reqs| && (j != id || !BySubmitter(act))
    ensures var d := Perform(c, id, act); |d.reqs| == |c.reqs| && SamePlace(c.reqs[j], d.reqs[j]) && d.freed == c.freed
  {
    ActOnly(c, id, act, j);
    if j == id {
      OwnPlace(c, id, act);
    }
  }

  lemma StepKeepsPlace(c: Ctl, op: Op, ids: seq<nat>, id: nat)
    requires Inv(c) && !c.freed && Foreign(op, ids) && id in ids && id < |c.reqs|
    ensures var d := Step(c, op); |d.reqs| == |c.reqs| && SamePlace(c.reqs[id], d.reqs[id]) && !d.freed
  {
    if op.OnRequest? && op.id < |c.reqs| {
      ActKeepsPlace(c, op.id, op.act, id);
    } else if op.RxReplies? {
      ReplyKeepsPlace(c, op.last, id);
    } else if op == StopSweeps && c.stop == RingsStopped {
      SweepKeepsPlace(c, |c.queue|, id);
    }
  }

  lemma {:induction false} RunKeepsPlace(c: Ctl, ops: seq<Op>, ids: seq<nat>, id: nat)
    requires Inv(c) && !c.freed && AllForeign(ops, ids) && id in ids && id < |c.reqs|
    ensures var d := Run(c, ops); |d.reqs| == |c.reqs| && SamePlace(c.reqs[id], d.reqs[id]) && !d.freed
    decreases ops
  {
    if ops != [] {
      RunKeepsPlace(c, ops[..|ops| - 1], ids, id);
      StepKeepsPlace(Run(c, ops[..|ops| - 1]), ops[|ops| - 1], ids, id);
    }
  }

  // ----- only a stop's sweep marks a request as stopped

  predicate SameStopped(c: Ctl, d: Ctl, id: nat)
    requires id < |c.reqs|
  {
    |d.reqs| == |c.reqs| && d.reqs[id].stopped == c.reqs[id].stopped
  }

  lemma WorkEndsStopped(c: Ctl, id: nat)
    requires id < |c.reqs|
    ensures SameStopped(c, WorkEnds(c, id), id)
  {
  }

  lemma OwnStopped(c: Ctl, id: nat, act: Act)
    requires id < |c.reqs| && !BySubmitter(act)
    ensures SameStopped(c, Perform(c, id, act), id)
  {
    if act == DoWorkEnds {
      WorkEndsStopped(c, id);
    }
  }

  lemma StepKeepsStopped(c: Ctl, op: Op, ids: seq<nat>, id: nat)
    requires Inv(c) && !c.freed && Foreign(op, ids) && id in ids && id < |c.reqs| && op != StopSweeps
    ensures SameStopped(c, Step(c, op), id)
  {
    if op.OnRequest? && op.id < |c.reqs| {
      ActOnly(c, op.id, op.act, id);
      if op.id == id {
        OwnStopped(c, id, op.act);
      }
    } else if op.RxReplies? && c.rx >= 0 {
      RxReplyIs(c, op.last);
    }
  }

  lemma {:induction false} RunKeepsStopped(c: Ctl, ops: seq<Op>, ids: seq<nat>, id: nat)
    requires Inv(c) && !c.freed && AllForeign(ops, ids) && id in ids && id < |c.reqs| && StopSweeps !in ops
    ensures SameStopped(c, Run(c, ops), id)
    decreases ops
  {
    if ops != [] {
      RunKeepsPlace(c, ops[..|ops| - 1], ids, id);
      RunKeepsStopped(c, ops[..|ops| - 1], ids, id);
      StepKeepsStopped(Run(c, ops[..|ops| - 1]), ops[|ops| - 1], ids, id);
    }
  }

  /** The run of timeouts only grows unless a reply is matched, and teardown stays unless the channel is started. */
  lemma CountStep(c: Ctl, op: Op)
    requires Inv(c)
    ensures !MatchesReply(c, op) ==> Step(c, op).timeouts >= c.timeouts
    ensures op != Starts && c.teardown ==> Step(c, op).teardown
  {
    if c.freed {
    } else if op.OnRequest? && op.id < |c.reqs| {
      PerformFlags(c, op.id, op.act);
    } else if op == StopSweeps && c.stop == RingsStopped {
      SweepFlags(c, |c.queue|);
    } else if op.RxReplies? {
      ReplyCounts(c, op.last);
    }
  }

  lemma {:induction false} CountRun(c: Ctl, ops: seq<Op>)
    requires Inv(c)
    ensures NoMatch(c, ops) ==> Run(c, ops).timeouts >= c.timeouts
    ensures NoStart(ops) && c.teardown ==> Run(c, ops).teardown
    decreases ops
  {
    if ops != [] {
      CountRun(c, ops[..|ops| - 1]);
      CountStep(Run(c, ops[..|ops| - 1]), ops[|ops| - 1]);
    }
  }

  // ----- the access

  /** A config request: synchronous, without the command slot and without a local completion. */
  predicate Plain(r: Req, phase: Phase) {
    r.phase == phase && r.kind == Sync && !r.slot && !r.hold
  }

  /** The requests of attempts not made yet are untouched. */
  ghost predicate Waiting(c: Ctl, ids: seq<nat>, from: nat) {
    forall j | from <= j < |ids| :: ids[j] < |c.reqs| && Plain(c.reqs[ids[j]], Idle)
  }

  ghost predicate Live(c: Ctl, ids: seq<nat>, from: nat) {
    Inv(c) && !c.freed && Waiting(c, ids, from)
  }

  /** A reply was matched, or the channel was started, while others acted. */
  datatype Seen = Seen(matched: bool, started: bool)

  ghost function Saw(s: Seen, c: Ctl, ops: seq<Op>): (t: Seen)
    requires Inv(c)
  {
    Seen(s.matched || !NoMatch(c, ops), s.started || !NoStart(ops))
  }

  predicate Distinct(ids: seq<nat>) {
    forall i, j | 0 <= i < j < |ids| :: ids[i] != ids[j]
  }

  /** Other threads act; the access only waits. `id` is its request in progress, if `i` is an index. */
  method LetOthers(ctl: TbCtl, ops: seq<Op>, ids: seq<nat>, i: nat, from: nat)
    requires i < |ids| && from <= |ids| && AllForeign(ops, ids)
    requires Live(ctl.Now(), ids, from) && ids[i] < |ctl.reqs|
    modifies ctl
    ensures Live(ctl.Now(), ids, from) && |ctl.reqs| == |old(ctl.reqs)|
    ensures SamePlace(old(ctl.reqs)[ids[i]], ctl.reqs[ids[i]])
    ensures NoMatch(old(ctl.Now()), ops) ==> ctl.timeouts >= old(ctl.timeouts)
    ensures NoStart(ops) && old(ctl.teardown) ==> ctl.teardown
    ensures ctl.Now() == Run(old(ctl.Now()), ops)
    ensures StopSweeps !in ops ==> ctl.reqs[ids[i]].stopped == old(ctl.reqs)[ids[i]].stopped
  {
    ghost var c := ctl.Now();
    if StopSweeps !in ops {
      RunKeepsStopped(c, ops, ids, ids[i]);
    }
    RunKeepsPlace(c, ops, ids, ids[i]);
    CountRun(c, ops);
    forall j | from <= j < |ids| ensures ids[j] < |Run(c, ops).reqs| && Plain(Run(c, ops).reqs[ids[j]], Idle) {
      RunKeepsPlace(c, ops, ids, ids[j]);
    }
    ctl.Drive(ops);
  }

  /** Where the submitter takes a plain request, on a channel that admits it or not. */
  predicate Goes(was: Req, act: Act, now: Req, admits: bool) {
    && (act == DoBegin && Plain(was, Idle) ==> Plain(now, Ready))
    && (act == DoEnqueue && Plain(was, Ready) && admits ==> Plain(now, Queued) && now.stopped == was.stopped)
    && (act == DoTransmitted(true, true) && Plain(was, Queued) ==> Plain(now, Phase.Waiting) && now.stopped == was.stopped)
  }

  lemma PlainSteps(c: Ctl, id: nat)
    requires id < |c.reqs|
    ensures var admits := MayStart(c.stop == Running, c.teardown, c.timeouts);
            && Goes(c.reqs[id], DoBegin, Begin(c, id).reqs[id], admits)
            && Goes(c.reqs[id], DoEnqueue, Enqueue(c, id).reqs[id], admits)
            && Goes(c.reqs[id], DoTransmitted(true, true), Transmitted(c, id, true, true).reqs[id], admits)
    ensures Plain(c.reqs[id], Phase.Waiting) && !c.reqs[id].done ==> TimedOut(c, id).timeouts == c.timeouts + 1
  {
  }

  /** Only a wait that ran out is counted. */
  lemma PerformCounts(c: Ctl, id: nat, act: Act)
    requires id < |c.reqs| && act != DoTimedOut
    ensures Perform(c, id, act).timeouts == c.timeouts
  {
    match act
    case DoTransmitted(ok, reply) =>
    case DoWorkEnds =>
    case _ =>
  }

  /** The access acts on its own request. */
  method Do(ctl: TbCtl, act: Act, ids: seq<nat>, i: nat)
    requires i < |ids| && Distinct(ids) && Live(ctl.Now(), ids, i + 1) && ids[i] < |ctl.reqs|
    modifies ctl
    ensures Live(ctl.Now(), ids, i + 1) && |ctl.reqs| == |old(ctl.reqs)|
    ensures ctl.timeouts >= old(ctl.timeouts) && ctl.teardown == old(ctl.teardown) && ctl.stop == old(ctl.stop)
    ensures act != DoTimedOut ==> ctl.timeouts == old(ctl.timeouts)
    ensures Goes(old(ctl.reqs[ids[i]]), act, ctl.reqs[ids[i]],
                 MayStart(old(ctl.stop) == Running, old(ctl.teardown), old(ctl.timeouts)))
    ensures act == DoTimedOut && Plain(old(ctl.reqs[ids[i]]), Phase.Waiting) && !old(ctl.reqs[ids[i]]).done ==>
              ctl.timeouts == old(ctl.timeouts) + 1
  {
    ghost var c := ctl.Now();
    PlainSteps(c, ids[i]);
    StepInv(c, OnRequest(ids[i], act));
    PerformFlags(c, ids[i], act);
    if act != DoTimedOut {
      PerformCounts(c, ids[i], act);
    }
    ActOnly(c, ids[i], act, ids[i]);
    forall j | i + 1 <= j < |ids| ensures Plain(Perform(c, ids[i], act).reqs[ids[j]], Idle) {
      ActKeepsPlace(c, ids[i], act, ids[j]);
    }
    ctl.Act(OnRequest(ids[i], act));
  }

  /** What tb_ctl_request_may_start() finds when an attempt is submitted. */
  datatype Admission = Admission(running: bool, teardown: bool, timeouts: nat)

  function AdmissionOf(c: Ctl): (m: Admission) {
    Admission(c.stop == Running, c.teardown, c.timeouts)
  }

  /** Why an attempt is not transmitted: -ENOTCONN, -ESHUTDOWN, or what sending it returned; 0 if it is. */
  predicate RefusedWith(m: Admission, sendErr: int, refusal: int) {
    refusal == if !m.running then -107 else if m.teardown && m.timeouts > 0 then -108 else sendErr
  }

  /**
   The submitter up to its wait: refused with the channel's reason, or admitted, which in
   teardown takes a run of timeouts of zero, and then transmitted unless sending fails.
   */
  method Submit(ctl: TbCtl, ids: seq<nat>, i: nat, sendErr: int) returns (refusal: int, inTeardown: bool)
    requires i < |ids| && Distinct(ids) && Live(ctl.Now(), ids, i)
    modifies ctl
    ensures Live(ctl.Now(), ids, i + 1) && |ctl.reqs| == |old(ctl.reqs)|
    ensures ctl.timeouts >= old(ctl.timeouts) && ctl.teardown == old(ctl.teardown) == inTeardown
    ensures RefusedWith(AdmissionOf(old(ctl.Now())), sendErr, refusal)
    ensures refusal == 0 ==> Plain(ctl.reqs[ids[i]], Phase.Waiting) && !ctl.reqs[ids[i]].stopped
  {
    inTeardown := ctl.teardown;
    Do(ctl, DoBegin, ids, i);
    var admitted := MayStart(ctl.stop == Running, ctl.teardown, ctl.timeouts);
    refusal := if admitted then 0 else if ctl.stop == Running then -ESHUTDOWN else -ENOTCONN;
    Do(ctl, DoEnqueue, ids, i);
    if admitted && sendErr == 0 {
      Do(ctl, DoTransmitted(true, true), ids, i);
      return;
    }
    if admitted {
      refusal := sendErr;
      Do(ctl, DoTransmitted(false, true), ids, i);
    }
    Do(ctl, DoRelease, ids, i);
  }

  /** What becomes of one attempt. */
  datatype Attempt = Refused(err: int) | Silent | Answered(err: int)

  /**
   How an attempt ends, given how it met the channel: not transmitted, with the channel's reason or
   its own sending error; answered, with its own reply's result unless a stop swept its request
   while it waited; or silent.
   */
  predicate Ends(a: Attempt, at: Admission, swept: bool, around: Around, sendErr: int, replyErr: int) {
    && RefusedWith(at, sendErr, if a.Refused? then a.err else 0)
    && (a.Refused? ==> a.err != 0)
    && (a.Answered? ==> a.err == if swept then -108 else replyErr)
    && (swept ==> StopSweeps in around.during)
  }

  /** The end of the wait: the request was completed or swept, or the silence is counted. */
  method EndWait(ctl: TbCtl, ids: seq<nat>, i: nat, replyErr: int) returns (a: Attempt)
    requires i < |ids| && Distinct(ids) && Live(ctl.Now(), ids, i + 1)
    requires ids[i] < |ctl.reqs| && Plain(ctl.reqs[ids[i]], Phase.Waiting)
    modifies ctl
    ensures Live(ctl.Now(), ids, i + 1) && |ctl.reqs| == |old(ctl.reqs)|
    ensures ctl.timeouts >= old(ctl.timeouts) && ctl.teardown == old(ctl.teardown)
    ensures var r := old(ctl.reqs)[ids[i]]; a == if !r.done then Silent else Answered(if r.stopped then -108 else replyErr)
    ensures a.Silent? ==> ctl.timeouts == old(ctl.timeouts) + 1
  {
    if ctl.reqs[ids[i]].done {
      a := Answered(if ctl.reqs[ids[i]].stopped then -ESHUTDOWN else replyErr);
      Do(ctl, DoWoken, ids, i);
    } else {
      a := Silent;
      Do(ctl, DoTimedOut, ids, i);
    }
  }

  /** The request is flushed and released, as far as its works allow. */
  method Finish(ctl: TbCtl, ids: seq<nat>, i: nat)
    requires i < |ids| && Distinct(ids) && Live(ctl.Now(), ids, i + 1) && ids[i] < |ctl.reqs|
    modifies ctl
    ensures Live(ctl.Now(), ids, i + 1) && |ctl.reqs| == |old(ctl.reqs)|
    ensures ctl.timeouts >= old(ctl.timeouts) && ctl.teardown == old(ctl.teardown)
  {
    Do(ctl, DoCancelSeen, ids, i);
    Do(ctl, DoFlushed, ids, i);
    Do(ctl, DoRelease, ids, i);
  }

  /**
   tb_cfg_request_sync() of attempt `i`: submitted if the channel admits it, then not sent, answered,
   swept by a stop, or met with silence, which is counted. `inTeardown` says whether the
   channel was in teardown when it was submitted.
   */
  method TryOnce(ctl: TbCtl, ids: seq<nat>, i: nat, around: Around, sendErr: int, replyErr: int)
    returns (a: Attempt, inTeardown: bool, ghost seen: Seen, ghost at: Admission, ghost swept: bool)
    requires i < |ids| && Distinct(ids) && AroundOk(around, ids) && Live(ctl.Now(), ids, i)
    modifies ctl
    ensures Live(ctl.Now(), ids, i + 1) && |ctl.reqs| == |old(ctl.reqs)|
    ensures at == AdmissionOf(Run(old(ctl.Now()), around.before)) && inTeardown == at.teardown
    ensures Ends(a, at, swept, around, sendErr, replyErr)
    ensures !seen.matched ==> at.timeouts >= old(ctl.timeouts)
    ensures !seen.matched ==> ctl.timeouts >= old(ctl.timeouts)
    ensures !seen.matched && a.Silent? ==> ctl.timeouts > old(ctl.timeouts)
    ensures !seen.started && old(ctl.teardown) ==> ctl.teardown && inTeardown
  {
    seen, swept := Saw(Seen(false, false), ctl.Now(), around.before), false;
    LetOthers(ctl, around.before, ids, i, i);
    at := AdmissionOf(ctl.Now());
    var refusal;
    refusal, inTeardown := Submit(ctl, ids, i, sendErr);
    if refusal != 0 {
      a := Refused(refusal);
      return;
    }
    seen := Saw(seen, ctl.Now(), around.during);
    LetOthers(ctl, around.during, ids, i, i + 1);
    swept := ctl.reqs[ids[i]].stopped;
    a := EndWait(ctl, ids, i, replyErr);
    seen := Saw(seen, ctl.Now(), around.after);
    LetOthers(ctl, around.after, ids, i, i + 1);
    Finish(ctl, ids, i);
  }

  /** No attempt but the first went out in teardown, and in teardown none at all with a timeout on the count. */
  ghost predicate FailFast(was: Ctl, seen: Seen, sent: seq<bool>) {
    && (!seen.matched ==> forall k | 0 < k < |sent| :: !sent[k])
    && (!seen.matched && !seen.started && was.teardown ==> |sent| <= 1 && (was.timeouts > 0 ==> sent == []))
  }

  /** So far every attempt was silent. */
  ghost predicate Paced(was: Ctl, now: Ctl, seen: Seen, sent: seq<bool>) {
    && FailFast(was, seen, sent)
    && (!seen.matched ==> now.timeouts >= was.timeouts + |sent|)
    && (!seen.started && was.teardown ==> now.teardown)
  }

  lemma PacedStart(c: Ctl)
    ensures Paced(c, c, Seen(false, false), [])
  {
  }

  lemma PacedStep(was: Ctl, mid: Ctl, now: Ctl, before: Seen, s: Seen, sent: seq<bool>, at: Admission, sendErr: int, a: Attempt)
    requires Paced(was, mid, before, sent) && RefusedWith(at, sendErr, if a.Refused? then a.err else 0)
    requires !s.matched ==> at.timeouts >= mid.timeouts && now.timeouts >= mid.timeouts && (a.Silent? ==> now.timeouts > mid.timeouts)
    requires !s.started && mid.teardown ==> now.teardown && at.teardown
    ensures var t := Seen(before.matched || s.matched, before.started || s.started);
            && FailFast(was, t, if a.Refused? then sent else sent + [at.teardown])
            && (a.Silent? ==> Paced(was, now, t, sent + [at.teardown]))
            && (!t.matched && !t.started && was.teardown && sent != [] ==> a.Refused? && (a.err == -108 || a.err == -107))
  {
  }

  /** What others do, what sending returns and what a reply says, attempt by attempt. */
  datatype Script = Script(arounds: seq<Around>, sendErrs: seq<int>, replyErrs: seq<int>)

  predicate ScriptOk(x: Script, ids: seq<nat>) {
    && |x.arounds| == |x.sendErrs| == |x.replyErrs| == |ids|
    && forall i | 0 <= i < |ids| ::
         AroundOk(x.arounds[i], ids) && x.sendErrs[i] != -ETIMEDOUT && x.replyErrs[i] != -ETIMEDOUT
  }

  /** Attempt `i` ended as its own submission, reply and stop decide. */
  predicate EndsAt(x: Script, i: nat, a: Attempt, at: Admission, swept: bool) {
    && i < |x.arounds| && i < |x.sendErrs| && i < |x.replyErrs|
    && Ends(a, at, swept, x.arounds[i], x.sendErrs[i], x.replyErrs[i])
  }

  /**
   What an access of up to `n` attempts returns: every attempt but the last was met with silence, and
   the result is that of the last one. An attempt that was transmitted is in `sent`.
   */
  predicate LastDecides(x: Script, n: nat, r: Result, last: Attempt, at: Admission, swept: bool) {
    && 0 < r.attempts <= n && r.silent == (if r.err == -110 then n else r.attempts - 1)
    && EndsAt(x, r.attempts - 1, last, at, swept)
    && (last.Refused? ==> r.err == last.err && |r.sent| == r.attempts - 1)
    && (last.Answered? ==> r.err == last.err && |r.sent| == r.attempts && r.sent[r.attempts - 1] == at.teardown)
    && (last.Silent? ==> r.err == -110 && |r.sent| == r.attempts == n && r.sent[n - 1] == at.teardown)
  }

  /**
   Fail fast: whenever teardown begins, and whatever other threads time out or receive unmatched, no
   attempt but the first is transmitted in teardown unless somebody's reply is matched. So an access in
   teardown costs at most one timed-out transmission, and none if a timeout is on the count; and after
   one it is refused.
   */
  ghost predicate FailsFast(was: Ctl, seen: Seen, n: nat, r: Result) {
    && (!seen.matched ==> forall k | 0 < k < |r.sent| :: !r.sent[k])
    && (!seen.matched && !seen.started && was.teardown ==>
          && |r.sent| <= 1 && r.silent <= 1 && (was.timeouts > 0 ==> r.sent == [] && r.silent == 0)
          && (r.silent == 1 && n > 1 ==> r.attempts == 2 && (r.err == -108 || r.err == -107)))
  }

  datatype Result = Result(err: int, attempts: nat, silent: nat, sent: seq<bool>)

  lemma Concluded(x: Script, ids: seq<nat>, was: Ctl, seen: Seen, sent: seq<bool>, a: Attempt, at: Admission, swept: bool,
                  r: Result)
    requires ScriptOk(x, ids) && |sent| < |ids| && EndsAt(x, |sent|, a, at, swept) && !a.Silent?
    requires FailFast(was, seen, if a.Refused? then sent else sent + [at.teardown])
    requires !seen.matched && !seen.started && was.teardown && sent != [] ==> a.Refused? && (a.err == -108 || a.err == -107)
    requires r == Result(a.err, |sent| + 1, |sent|, if a.Refused? then sent else sent + [at.teardown])
    ensures LastDecides(x, |ids|, r, a, at, swept) && FailsFast(was, seen, |ids|, r)
  {
  }

  lemma AllSilent(x: Script, ids: seq<nat>, was: Ctl, seen: Seen, sent: seq<bool>, at: Admission, swept: bool, r: Result)
    requires ScriptOk(x, ids) && |sent| == |ids| > 0 && EndsAt(x, |sent| - 1, Silent, at, swept)
    requires sent[|sent| - 1] == at.teardown && FailFast(was, seen, sent)
    requires r == Result(-110, |sent|, |sent|, sent)
    ensures LastDecides(x, |ids|, r, Silent, at, swept) && FailsFast(was, seen, |ids|, r)
  {
  }

  /** One turn of the retry loop: a silent attempt is added to `sent`, any other ends the access. */
  method RetryOnce(ctl: TbCtl, ids: seq<nat>, x: Script, i: nat, sent: seq<bool>, ghost was: Ctl, ghost before: Seen)
    returns (r: Result, ghost seen: Seen, a: Attempt, ghost at: Admission, ghost swept: bool)
    requires i == |sent| < |ids| && Distinct(ids) && ScriptOk(x, ids) && Live(ctl.Now(), ids, i)
    requires Paced(was, ctl.Now(), before, sent)
    modifies ctl
    ensures Live(ctl.Now(), ids, i + 1) && EndsAt(x, i, a, at, swept)
    ensures r.attempts == i + 1 && (!seen.matched ==> ctl.timeouts >= was.timeouts + r.silent)
    ensures !a.Silent? ==> LastDecides(x, |ids|, r, a, at, swept) && FailsFast(was, seen, |ids|, r)
    ensures a.Silent? ==> |r.sent| == i + 1 && r.sent[i] == at.teardown && Paced(was, ctl.Now(), seen, r.sent)
  {
    ghost var mid := ctl.Now();
    var inTeardown;
    a, inTeardown, seen, at, swept := TryOnce(ctl, ids, i, x.arounds[i], x.sendErrs[i], x.replyErrs[i]);
    PacedStep(was, mid, ctl.Now(), before, seen, sent, at, x.sendErrs[i], a);
    seen := Seen(before.matched || seen.matched, before.started || seen.started);
    match a {
      case Refused(e) => r := Result(e, i + 1, i, sent);
      case Answered(e) => r := Result(e, i + 1, i, sent + [inTeardown]);
      case Silent => r := Result(-ETIMEDOUT, i + 1, i + 1, sent + [inTeardown]);
    }
    if !a.Silent? {
      Concluded(x, ids, was, seen, sent, a, at, swept, r);
    }
  }

  /** tb_cfg_read_raw_retries() and its write counterpart: attempt `i` uses request `ids[i]`. */
  method Retry(ctl: TbCtl, ids: seq<nat>, x: Script)
    returns (r: Result, ghost seen: Seen, ghost last: Attempt, ghost at: Admission, ghost swept: bool)
    requires ids != [] && Distinct(ids) && ScriptOk(x, ids) && Live(ctl.Now(), ids, 0)
    modifies ctl
    ensures LastDecides(x, |ids|, r, last, at, swept)
    ensures FailsFast(old(ctl.Now()), seen, |ids|, r)
    // the requests of attempts that were not made are untouched, and every silence is on the count
    ensures Live(ctl.Now(), ids, r.attempts) && (!seen.matched ==> ctl.timeouts >= old(ctl.timeouts) + r.silent)
  {
    ghost var was := ctl.Now();
    var sent := [];
    var i := 0;
    seen, last, at, swept := Seen(false, false), Silent, AdmissionOf(was), false;
    PacedStart(was);
    while i < |ids|
      invariant i == |sent| <= |ids| && Live(ctl.Now(), ids, i) && Paced(was, ctl.Now(), seen, sent)
      invariant i > 0 ==> last == Silent && EndsAt(x, i - 1, last, at, swept) && sent[i - 1] == at.teardown
    {
      var a;
      r, seen, a, at, swept := RetryOnce(ctl, ids, x, i, sent, was, seen);
      last := a;
      if !a.Silent? {
        return;
      }
      sent := r.sent;
      i := i + 1;
    }
    r := Result(-ETIMEDOUT, i, i, sent);
    AllSilent(x, ids, was, seen, sent, at, swept, r);
  }
}
