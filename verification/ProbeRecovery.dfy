/**
 One-shot recovery of a host router that does not answer at probe
 (nhi.c, nhi_regs.h, icm.c): one power-cycle request, one automatic reprobe,
 and a per-device record that outlives the probe which made it.
 */
module ProbeRecovery {
  const ETIMEDOUT := 110

  /** enum tb_nhi_recovery_state; a device without a record is `Idle`. */
  datatype State = Idle | ReprobePending | Retrying | Complete | Exhausted

  /** enum tb_nhi_recovery_event. */
  datatype Event =
    | DriverReadyTimeout
    | RootConfigTimeout
    | OtherFailure
    | PowerCycleDispatched
    | ReprobeDispatched
    | ReprobeQueueFailed
    | ProbeSucceeded

  /** tb_nhi_recovery_next() */
  function Next(s: State, e: Event): (t: State) {
    match s
    case Idle =>
      if e == PowerCycleDispatched then ReprobePending
      else if e == ProbeSucceeded then Complete
      else Exhausted
    case ReprobePending => if e == ReprobeDispatched then Retrying else Exhausted
    case Retrying => if e == ProbeSucceeded then Complete else Exhausted
    case Complete => Complete
    case Exhausted => Exhausted
  }

  /** enum tb_icm_root_recovery_state and its events. */
  datatype RootState = RootIdle | PowerCyclePending | ReprobeRequired | Terminal
  datatype RootEvent = RootDriverReady | RootConfig | RootOther | CommandDispatched | CommandFailed

  /** tb_icm_root_recovery_next() */
  function RootNext(s: RootState, e: RootEvent): (t: RootState) {
    match s
    case RootIdle => if e == RootDriverReady || e == RootConfig then PowerCyclePending else Terminal
    case PowerCyclePending => if e == CommandDispatched then ReprobeRequired else Terminal
    case ReprobeRequired => ReprobeRequired
    case Terminal => Terminal
  }

  /** tb_icm_root_recovery_command_event() */
  function CommandEvent(err: int, consumed: bool): (e: RootEvent) {
    if err == 0 || (err == -ETIMEDOUT && consumed) then CommandDispatched else CommandFailed
  }

  /**
   The probe in progress: the record it read, whether it asked for a power cycle
   and got one, and whether a reprobe work runs it. Once it has failed, what is
   left is the release of its context, in state `last`.
   */
  datatype Probe =
    | NoProbe
    | Probing(seen: State, asked: bool, dispatched: bool, byWork: bool)
    | Releasing(last: State, byWork: bool)

  /**
   One device. `works` counts queued reprobe works; `reading` those that read a
   pending record and have not set it yet; `attaching` those that set it and have
   not probed yet. `ordered` is whether the workqueue runs one work at a time. The
   last three count external probes, power-cycle requests sent and reprobes queued.
   */
  datatype Host = Host(
    ordered: bool, rec: State, probe: Probe,
    works: nat, reading: nat, attaching: nat,
    external: nat, requests: nat, reprobes: nat)

  /** What a probe and its startup attempt run into. */
  datatype Fault = Fault(err: int, supported: bool, driverReady: bool, rootConfig: bool)

  /** One critical section of the record lock each, or a change of the queue. */
  datatype Op =
    | ProbeAborts(isExternal: bool)
    | ProbeBegins(isExternal: bool)
    | StartupTimesOut(fault: Fault, hasPort: bool, reply: int, consumed: bool)
    | ProbeFailsEarly
    | ProbeFails(fault: Fault, room: bool)
    | ProbeReleases(room: bool, queued: bool)
    | ProbeSucceeds
    | WorkReads
    | WorkSets(room: bool)
    | AttachSkips

  /** A work is between its start and its end, which includes the probe it makes. */
  predicate WorkInProgress(h: Host) {
    h.reading > 0 || h.attaching > 0 || (!h.probe.NoProbe? && h.probe.byWork)
  }

  predicate Enabled(h: Host, op: Op) {
    match op
    // a probe can give up before it reads the record
    case ProbeAborts(isExternal) => h.probe.NoProbe? && (isExternal || h.attaching > 0)
    case ProbeBegins(isExternal) => h.probe.NoProbe? && (isExternal || h.attaching > 0)
    // the startup attempt is made once, and its failure fails the probe
    case StartupTimesOut(_, _, _, _) => h.probe.Probing? && !h.probe.asked
    case ProbeFailsEarly => h.probe.Probing? && !h.probe.asked
    case ProbeFails(_, _) => h.probe.Probing?
    case ProbeReleases(_, _) => h.probe.Releasing?
    case ProbeSucceeds => h.probe.Probing? && !h.probe.asked
    case WorkReads => h.works > 0 && (h.ordered ==> !WorkInProgress(h))
    case WorkSets(_) => h.reading > 0
    // attaching takes the device lock, which a probe in progress holds
    case AttachSkips => h.probe.NoProbe? && h.attaching > 0
  }

  /** A request is sent only from an idle record, and only for the two startup timeouts. */
  predicate SendsRequest(h: Host, f: Fault, hasPort: bool) {
    (f.driverReady || f.rootConfig) && f.supported && hasPort && h.rec == Idle
  }

  function FailureEvent(p: Probe, f: Fault): (e: Event)
    requires p.Probing?
  {
    if f.err != -ETIMEDOUT || !f.supported then OtherFailure
    else if p.dispatched then PowerCycleDispatched
    else if f.driverReady then DriverReadyTimeout
    else if f.rootConfig then RootConfigTimeout
    else OtherFailure
  }

  /** Setting a record fails only when there is none and no room for one. */
  function Stored(rec: State, s: State, room: bool): (r: State) {
    if room || rec != Idle then s else Idle
  }

  /** The record a failing probe leaves. */
  function RecordAfter(rec: State, seen: State, next: State, room: bool): (r: State) {
    if next == ReprobePending then Stored(rec, ReprobePending, room)
    else if seen == ReprobePending || seen == Idle then rec
    else Idle
  }

  function Released(h: Host, room: bool, queued: bool): (k: Host)
    requires h.probe.Releasing?
  {
    if h.probe.last != ReprobePending then h.(probe := NoProbe)
    else if queued then h.(probe := NoProbe, works := h.works + 1, reprobes := h.reprobes + 1)
    else h.(probe := NoProbe, rec := Stored(h.rec, Exhausted, room))
  }

  function Step(h: Host, op: Op): (k: Host) {
    if !Enabled(h, op) then h else
    match op
    case ProbeAborts(isExternal) =>
      if isExternal then h.(external := h.external + 1) else h.(attaching := h.attaching - 1)
    case ProbeBegins(isExternal) =>
      if isExternal then h.(probe := Probing(h.rec, false, false, false), external := h.external + 1)
      else h.(probe := Probing(h.rec, false, false, true), attaching := h.attaching - 1)
    case StartupTimesOut(f, hasPort, reply, consumed) =>
      if !SendsRequest(h, f, hasPort) then h.(probe := h.probe.(asked := true))
      else h.(probe := h.probe.(asked := true, dispatched := reply == 0 || (reply == -ETIMEDOUT && consumed)),
              requests := h.requests + 1)
    case ProbeFailsEarly => h.(probe := Releasing(h.probe.seen, h.probe.byWork))
    case ProbeFails(f, room) =>
      var next := Next(h.probe.seen, FailureEvent(h.probe, f));
      h.(rec := RecordAfter(h.rec, h.probe.seen, next, room),
         probe := Releasing(if h.probe.seen == ReprobePending then ReprobePending else next, h.probe.byWork))
    case ProbeReleases(room, queued) => Released(h, room, queued)
    case ProbeSucceeds => h.(rec := Idle, probe := NoProbe)
    case WorkReads =>
      if h.rec == ReprobePending then h.(works := h.works - 1, reading := h.reading + 1)
      else h.(works := h.works - 1)
    case WorkSets(room) =>
      if room || h.rec != Idle then h.(rec := Retrying, reading := h.reading - 1, attaching := h.attaching + 1)
      else h.(reading := h.reading - 1)
    case AttachSkips => h.(attaching := h.attaching - 1)
  }

  function Run(h: Host, ops: seq<Op>): (k: Host) {
    if ops == [] then h else Step(Run(h, ops[..|ops| - 1]), ops[|ops| - 1])
  }

  function Fresh(ordered: bool): (h: Host) {
    Host(ordered, Idle, NoProbe, 0, 0, 0, 0, 0, 0)
  }

  // ----- recovery cannot loop

  /** A work under way may yet probe with the record gone, or pending again, and queue one reprobe. */
  function ReprobeDebt(h: Host): (n: nat) {
    if h.attaching > 0 && (h.rec == Idle || h.rec == ReprobePending || (h.probe.Probing? && h.probe.seen == Idle)) then 1
    else if h.reading > 0 && h.rec == Idle then 1
    else 0
  }

  /** What the probe in progress may still queue, or leave to a work by clearing the record. */
  function ReprobeShare(p: Probe): (n: nat) {
    match p
    case NoProbe => 0
    case Probing(seen, _, _, byWork) => if !byWork || seen == Idle || seen == ReprobePending then 1 else 0
    case Releasing(last, _) => if last == ReprobePending then 1 else 0
  }

  /** The same for power-cycle requests: only a probe that reads an idle record sends one. */
  function RequestDebt(h: Host): (n: nat) {
    if h.attaching > 0 && h.rec == Idle then 1 else 0
  }

  function RequestShare(p: Probe): (n: nat) {
    match p
    case Probing(seen, asked, _, byWork) =>
      if seen == Idle then (if asked then 0 else 1) else if byWork then 0 else 1
    case _ => 0
  }

  /** External probes have paid for everything sent and queued, and for what may still come of it. */
  predicate Paid(h: Host) {
    && h.external >= h.requests + RequestDebt(h) + RequestShare(h.probe)
    && h.external >= h.reprobes + ReprobeDebt(h) + ReprobeShare(h.probe)
  }

  /** The record changes under a probe only by the set of a work that is now attaching. */
  predicate SeenOk(h: Host) {
    h.probe.Probing? ==>
      && (h.probe.seen == h.rec || (h.rec == Retrying && h.attaching > 0 && !h.probe.byWork))
      && (h.probe.dispatched ==> h.probe.asked && h.probe.seen == Idle)
  }

  predicate Inv(h: Host) {
    && h.ordered && h.rec != Complete
    && h.reading + h.attaching + (if !h.probe.NoProbe? && h.probe.byWork then 1 else 0) <= 1
    && SeenOk(h) && Paid(h)
  }

  lemma ProbeStepInv(h: Host, op: Op)
    requires Inv(h) && !op.WorkReads? && !op.WorkSets?
    ensures Inv(Step(h, op))
  {
  }

  lemma WorkStepInv(h: Host, op: Op)
    requires Inv(h) && (op.WorkReads? || op.WorkSets?)
    ensures Inv(Step(h, op))
  {
  }

  lemma {:induction false} RunInv(h: Host, ops: seq<Op>)
    requires Inv(h)
    ensures Inv(Run(h, ops))
    decreases ops
  {
    if ops != [] {
      RunInv(h, ops[..|ops| - 1]);
      StepInv(Run(h, ops[..|ops| - 1]), ops[|ops| - 1]);
    }
  }

  lemma StepInv(h: Host, op: Op)
    requires Inv(h)
    ensures Inv(Step(h, op))
  {
    if op.WorkReads? || op.WorkSets? {
      WorkStepInv(h, op);
    } else {
      ProbeStepInv(h, op);
    }
  }

  /**
   On the ordered workqueue, whatever fails and however the sections of works and
   probes interleave, each external probe pays for at most one of each.
   */
  lemma RecoveryIsBounded(ops: seq<Op>, k: Host)
    requires k == Run(Fresh(true), ops)
    ensures k.requests <= k.external && k.reprobes <= k.external
  {
    RunInv(Fresh(true), ops);
  }

  predicate NoProbeBegins(ops: seq<Op>) {
    forall i | 0 <= i < |ops| :: !ops[i].ProbeBegins?
  }

  /** The probe under way, if any, read `Retrying`, and its release queues nothing. */
  predicate Quiet(p: Probe) {
    match p
    case NoProbe => true
    case Probing(seen, _, _, _) => seen == Retrying
    case Releasing(last, _) => last != ReprobePending
  }

  lemma QuietStep(h: Host, op: Op)
    requires Inv(h) && Quiet(h.probe) && !op.ProbeBegins?
    ensures var k := Step(h, op); Quiet(k.probe) && k.requests == h.requests && k.reprobes == h.reprobes
  {
  }

  /** A probe that reads `Retrying` sends no request and queues no reprobe, up to and including its release. */
  lemma {:induction false} RetryingIsQuiet(h: Host, ops: seq<Op>)
    requires Inv(h) && h.probe.Probing? && h.probe.seen == Retrying && NoProbeBegins(ops)
    ensures Run(h, ops).requests == h.requests && Run(h, ops).reprobes == h.reprobes
    ensures Quiet(Run(h, ops).probe)
    decreases ops
  {
    if ops != [] {
      RetryingIsQuiet(h, ops[..|ops| - 1]);
      RunInv(h, ops[..|ops| - 1]);
      QuietStep(Run(h, ops[..|ops| - 1]), ops[|ops| - 1]);
    }
  }

  // ----- what a reprobe takes

  /** The step is a startup attempt whose power-cycle request was acknowledged or consumed. */
  predicate Acknowledged(op: Op) {
    op.StartupTimesOut? && (op.reply == 0 || (op.reply == -110 && op.consumed))
  }

  /** No power cycle was ever dispatched: nothing is recorded, queued or about to be. */
  predicate Unrecorded(h: Host) {
    && h.rec == Idle && h.works == 0 && h.reading == 0 && h.attaching == 0 && h.reprobes == 0
    && (h.probe.Probing? ==> h.probe.seen == Idle && !h.probe.dispatched)
    && (h.probe.Releasing? ==> h.probe.last != ReprobePending)
  }

  lemma UnrecordedStep(h: Host, op: Op)
    requires Unrecorded(h) && !Acknowledged(op)
    ensures Unrecorded(Step(h, op))
  {
  }

  lemma {:induction false} UnrecordedRun(h: Host, ops: seq<Op>)
    requires Unrecorded(h) && forall i | 0 <= i < |ops| :: !Acknowledged(ops[i])
    ensures Unrecorded(Run(h, ops))
    decreases ops
  {
    if ops != [] {
      UnrecordedRun(h, ops[..|ops| - 1]);
      UnrecordedStep(Run(h, ops[..|ops| - 1]), ops[|ops| - 1]);
    }
  }

  /** Without an acknowledged power cycle there is no reprobe, whatever fails and however often. */
  lemma NoReprobeUnacknowledged(ordered: bool, ops: seq<Op>, k: Host)
    requires k == Run(Fresh(ordered), ops) && forall i | 0 <= i < |ops| :: !Acknowledged(ops[i])
    ensures k.reprobes == 0 && k.works == 0 && k.rec == Idle
  {
    UnrecordedRun(Fresh(ordered), ops);
  }

  /** With one, the timed-out probe of a supported device leaves a pending record and queues its reprobe. */
  lemma AcknowledgedFailureReprobes(h: Host, asks: Op, f: Fault, room: bool, a: Host, b: Host, k: Host)
    requires h.probe.Probing? && !h.probe.asked && h.probe.seen == Idle && h.rec == Idle && asks.StartupTimesOut?
    requires (asks.fault.driverReady || asks.fault.rootConfig) && asks.fault.supported && asks.hasPort && Acknowledged(asks)
    requires f.err == -110 && f.supported
    requires a == Step(h, asks) && b == Step(a, ProbeFails(f, true)) && k == Step(b, ProbeReleases(room, true))
    ensures a.requests == h.requests + 1 && b.rec == ReprobePending
    ensures k.rec == ReprobePending && k.works == h.works + 1 && k.reprobes == h.reprobes + 1 && k.probe.NoProbe?
  {
  }

  /** A successful probe forgets the record, so that the next probe starts afresh. */
  lemma SuccessForgets(h: Host, isExternal: bool, a: Host, k: Host)
    requires h.probe.Probing? && !h.probe.asked && (isExternal || h.attaching > 0)
    requires a == Step(h, ProbeSucceeds) && k == Step(a, ProbeBegins(isExternal))
    ensures a.rec == Idle && a.probe.NoProbe? && a.reprobes == h.reprobes
    ensures k.probe == Probing(Idle, false, false, !isExternal)
  {
  }

  // ----- two runs

  lemma {:induction false} RunJoined(h: Host, a: seq<Op>, b: seq<Op>)
    ensures Run(h, a + b) == Run(Run(h, a), b)
    decreases b
  {
    if b == [] {
      assert a + b == a;
    } else {
      var n := |b| - 1;
      assert (a + b)[..|a + b| - 1] == a + b[..n];
      RunJoined(h, a, b[..n]);
    }
  }

  lemma OneStep(h: Host, op: Op)
    ensures Run(h, [op]) == Step(h, op)
  {
    assert [op][..0] == [];
    assert Run(h, [op][..0]) == h;
  }

  /** `op` takes the state the run `ops` ends in to `k`. */
  lemma Then(h: Host, ops: seq<Op>, op: Op, k: Host)
    requires Step(Run(h, ops), op) == k
    ensures Run(h, ops + [op]) == k
  {
    RunJoined(h, ops, [op]);
    OneStep(Run(h, ops), op);
  }

  /** A driver-ready timeout on a supported device whose power-cycle request is acknowledged. */
  const TIMEOUT := Fault(-ETIMEDOUT, true, true, false)
  const ASKS := StartupTimesOut(TIMEOUT, true, 0, true)

  /** A probe reads an idle record, asks, fails and queues its reprobe. */
  lemma AskAndQueue(h: Host, isExternal: bool) returns (ops: seq<Op>)
    requires h.probe.NoProbe? && h.rec == Idle && (isExternal || h.attaching > 0)
    ensures Run(h, ops) == h.(
              rec := ReprobePending, works := h.works + 1, requests := h.requests + 1, reprobes := h.reprobes + 1,
              external := h.external + (if isExternal then 1 else 0),
              attaching := h.attaching - (if isExternal then 0 else 1))
  {
    var b := h.(probe := Probing(Idle, false, false, !isExternal), external := h.external + (if isExternal then 1 else 0),
                attaching := h.attaching - (if isExternal then 0 else 1));
    ops := [ProbeBegins(isExternal)];
    OneStep(h, ProbeBegins(isExternal));
    var c := b.(probe := Probing(Idle, true, true, !isExternal), requests := b.requests + 1);
    Then(h, ops, ASKS, c);
    ops := ops + [ASKS];
    var d := c.(rec := ReprobePending, probe := Releasing(ReprobePending, !isExternal));
    Then(h, ops, ProbeFails(TIMEOUT, true), d);
    ops := ops + [ProbeFails(TIMEOUT, true)];
    Then(h, ops, ProbeReleases(true, true), d.(probe := NoProbe, works := d.works + 1, reprobes := d.reprobes + 1));
    ops := ops + [ProbeReleases(true, true)];
  }

  /** A probe that reads `Retrying` fails and clears the record. */
  lemma FailAndClear(h: Host, isExternal: bool) returns (ops: seq<Op>)
    requires h.probe.NoProbe? && h.rec == Retrying && (isExternal || h.attaching > 0)
    ensures Run(h, ops) == h.(
              rec := Idle, external := h.external + (if isExternal then 1 else 0),
              attaching := h.attaching - (if isExternal then 0 else 1))
  {
    var b := h.(probe := Probing(Retrying, false, false, !isExternal), external := h.external + (if isExternal then 1 else 0),
                attaching := h.attaching - (if isExternal then 0 else 1));
    ops := [ProbeBegins(isExternal)];
    OneStep(h, ProbeBegins(isExternal));
    Then(h, ops, ProbeFails(TIMEOUT, true), b.(rec := Idle, probe := Releasing(Exhausted, !isExternal)));
    ops := ops + [ProbeFails(TIMEOUT, true)];
    Then(h, ops, ProbeReleases(true, true), b.(rec := Idle, probe := NoProbe));
    ops := ops + [ProbeReleases(true, true)];
  }

  /** A queued work reads a pending record and sets it. */
  lemma WorkArms(h: Host) returns (ops: seq<Op>)
    requires h.works > 0 && h.rec == ReprobePending && !WorkInProgress(h)
    ensures Run(h, ops) == h.(rec := Retrying, works := h.works - 1, attaching := h.attaching + 1)
  {
    OneStep(h, WorkReads);
    Then(h, [WorkReads], WorkSets(true), h.(rec := Retrying, works := h.works - 1, attaching := h.attaching + 1));
    ops := [WorkReads] + [WorkSets(true)];
  }

  /**
   The bound is amortised, not per probe: an external probe that slips in before
   the reprobe attaches clears the record, and the automatic reprobe then asks again.
   */
  lemma ReprobeMayAskAgain(h: Host) returns (before: seq<Op>, again: seq<Op>)
    requires h == Fresh(true)
    ensures Run(h, before).requests == 1 && Run(h, before).external == 2
    ensures again != [] && again[0] == ProbeBegins(false)
    ensures Run(h, before + again).requests == 2 && Run(h, before + again).external == 2
  {
    var a := AskAndQueue(h, true);
    var b := WorkArms(Run(h, a));
    RunJoined(h, a, b);
    var c := FailAndClear(Run(h, a + b), true);
    RunJoined(h, a + b, c);
    before := a + b + c;
    var k := Run(h, before);
    again := [ProbeBegins(false)];
    OneStep(k, ProbeBegins(false));
    Then(k, again, ASKS, k.(attaching := 0, probe := Probing(Idle, true, true, true), requests := 2));
    again := again + [ASKS];
    RunJoined(h, before, again);
  }

  /** A probe that reads a pending record and fails early queues another reprobe. */
  lemma QueueAgain(h: Host) returns (ops: seq<Op>)
    requires h.probe.NoProbe? && h.rec == ReprobePending
    ensures Run(h, ops) == h.(works := h.works + 1, reprobes := h.reprobes + 1, external := h.external + 1)
  {
    var b := h.(probe := Probing(ReprobePending, false, false, false), external := h.external + 1);
    ops := [ProbeBegins(true)];
    OneStep(h, ProbeBegins(true));
    Then(h, ops, ProbeFailsEarly, b.(probe := Releasing(ReprobePending, false)));
    ops := ops + [ProbeFailsEarly];
    Then(h, ops, ProbeReleases(true, true), b.(probe := NoProbe, works := b.works + 1, reprobes := b.reprobes + 1));
    ops := ops + [ProbeReleases(true, true)];
  }

  /** On an unordered queue two works can both read the pending record before either sets it. */
  lemma BothArm(h: Host) returns (ops: seq<Op>)
    requires !h.ordered && h.works > 1 && h.rec == ReprobePending
    ensures Run(h, ops) == h.(rec := Retrying, works := h.works - 2, attaching := h.attaching + 2)
  {
    ops := [WorkReads];
    OneStep(h, WorkReads);
    var b := h.(works := h.works - 2, reading := h.reading + 2);
    Then(h, ops, WorkReads, b);
    ops := ops + [WorkReads];
    var c := b.(rec := Retrying, reading := b.reading - 1, attaching := b.attaching + 1);
    Then(h, ops, WorkSets(true), c);
    ops := ops + [WorkSets(true)];
    Then(h, ops, WorkSets(true), c.(reading := c.reading - 1, attaching := c.attaching + 1));
    ops := ops + [WorkSets(true)];
  }

  /** So the bound needs the ordered workqueue: without it, two external probes end in three reprobes. */
  lemma OrderIsNeeded(h: Host) returns (ops: seq<Op>)
    requires h == Fresh(false)
    ensures Run(h, ops).reprobes == 3 && Run(h, ops).external == 2
  {
    var a := AskAndQueue(h, true);
    var b := QueueAgain(Run(h, a));
    RunJoined(h, a, b);
    var c := BothArm(Run(h, a + b));
    RunJoined(h, a + b, c);
    var d := FailAndClear(Run(h, a + b + c), false);
    RunJoined(h, a + b + c, d);
    var e := AskAndQueue(Run(h, a + b + c + d), false);
    RunJoined(h, a + b + c + d, e);
    ops := a + b + c + d + e;
  }
}
