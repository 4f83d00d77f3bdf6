/**
 The shutdown gate in front of the firmware notification work (icm.c). Ring 0
 delivers events until the end of domain removal, so the gate, not the ring, is
 what makes the drain of the domain's ordered workqueue final.
 */
module NotificationGate {

  /**
   `deciding` are events copied but not yet past the gate, `pending` and `running`
   the workqueue, `flush` the number of works a drain in progress waits for. The
   last four record what became of every event.
   */
  datatype Gate = Gate(
    stopping: bool, rootGone: bool, drained: bool, flush: int,
    deciding: seq<nat>, pending: seq<nat>, running: seq<nat>, events: nat,
    admitted: seq<nat>, discarded: seq<nat>, handled: seq<nat>, acted: seq<nat>)

  datatype Op =
    | EventArrives(room: bool)
    | EventDecides(i: nat)
    | WorkStarts
    | WorkEnds
    | StopCloses
    | RootGoes
    | FlushBegins
    | FlushEnds

  const Fresh := Gate(false, false, false, -1, [], [], [], 0, [], [], [], [])

  function Step(g: Gate, op: Op): (h: Gate) {
    match op
    // icm_handle_event(): two allocations, then the decision under the lock
    case EventArrives(room) =>
      if room then g.(deciding := g.deciding + [g.events], events := g.events + 1)
      else g.(discarded := g.discarded + [g.events], events := g.events + 1)
    case EventDecides(i) =>
      if i >= |g.deciding| then g else
      var e, rest := g.deciding[i], g.deciding[..i] + g.deciding[i + 1..];
      if g.stopping then g.(deciding := rest, discarded := g.discarded + [e])
      else g.(deciding := rest, pending := g.pending + [e], admitted := g.admitted + [e])
    // icm_handle_notification() on the ordered workqueue
    case WorkStarts =>
      if g.pending == [] || g.running != [] then g
      else g.(pending := g.pending[1..], running := [g.pending[0]])
    case WorkEnds =>
      if g.running == [] then g
      else g.(running := [], handled := g.handled + g.running,
              acted := if g.rootGone then g.acted else g.acted + g.running)
    // icm_stop()
    case StopCloses => g.(stopping := true)
    case RootGoes => if g.stopping then g.(rootGone := true) else g
    // icm_deinit(), which domain removal calls after the stop
    case FlushBegins => if g.stopping && g.flush < 0 then g.(flush := |g.admitted|) else g
    case FlushEnds => if 0 <= g.flush <= |g.handled| then g.(flush := -1, drained := true) else g
  }

  function Run(g: Gate, ops: seq<Op>): (h: Gate) {
    if ops == [] then g else Step(Run(g, ops[..|ops| - 1]), ops[|ops| - 1])
  }

  predicate Inv(g: Gate) {
    && g.handled + g.running + g.pending == g.admitted
    && |g.running| <= 1
    && (g.flush >= 0 ==> g.stopping && g.flush == |g.admitted|)
    && (g.drained ==> g.stopping && g.pending == [] && g.running == [])
    && |g.deciding| + |g.admitted| + |g.discarded| == g.events
    && (!g.rootGone ==> g.acted == g.handled)
    && (g.rootGone ==> g.stopping)
  }

  lemma StepInv(g: Gate, op: Op)
    requires Inv(g)
    ensures Inv(Step(g, op))
  {
    var h := Step(g, op);
    match op
    case WorkStarts =>
      if g.pending != [] && g.running == [] {
        assert g.pending == [g.pending[0]] + g.pending[1..];
        assert h.handled + h.running + h.pending == g.handled + g.running + g.pending;
      }
    case FlushEnds =>
      if 0 <= g.flush <= |g.handled| {
        assert |g.handled + g.running + g.pending| == |g.admitted|;
      }
    case _ =>
  }

  lemma {:induction false} RunInv(g: Gate, ops: seq<Op>)
    requires Inv(g)
    ensures Inv(Run(g, ops))
    decreases ops
  {
    if ops != [] {
      RunInv(g, ops[..|ops| - 1]);
      StepInv(Run(g, ops[..|ops| - 1]), ops[|ops| - 1]);
    }
  }

  /** Every admitted notification is handled once, in the order of admission. */
  lemma HandledInOrder(ops: seq<Op>)
    ensures Run(Fresh, ops).handled <= Run(Fresh, ops).admitted
  {
    RunInv(Fresh, ops);
    var g := Run(Fresh, ops);
    assert (g.handled + g.running + g.pending)[..|g.handled|] == g.handled;
  }

  /** While the root router exists, every notification handled is acted on. */
  lemma ActedWhileRootExists(ops: seq<Op>)
    ensures !Run(Fresh, ops).rootGone ==> Run(Fresh, ops).acted == Run(Fresh, ops).handled
  {
    RunInv(Fresh, ops);
  }

  /** Once it is gone nothing more is, whatever is still handled. */
  lemma {:induction false} RootGoneActsNoMore(g: Gate, ops: seq<Op>)
    requires g.rootGone
    ensures Run(g, ops).rootGone && Run(g, ops).acted == g.acted
    decreases ops
  {
    if ops != [] {
      RootGoneActsNoMore(g, ops[..|ops| - 1]);
    }
  }

  /** How many events of a run there was no room to copy. */
  function Unprepared(ops: seq<Op>): (n: nat) {
    if ops == [] then 0 else Unprepared(ops[..|ops| - 1]) + if ops[|ops| - 1] == EventArrives(false) then 1 else 0
  }

  lemma OpenStep(g: Gate, op: Op)
    requires !g.stopping && op != StopCloses
    ensures var h := Step(g, op); !h.stopping && |h.discarded| == |g.discarded| + if op == EventArrives(false) then 1 else 0
  {
  }

  lemma {:induction false} OpenRun(g: Gate, ops: seq<Op>)
    requires !g.stopping && StopCloses !in ops
    ensures var h := Run(g, ops); !h.stopping && |h.discarded| == |g.discarded| + Unprepared(ops)
    decreases ops
  {
    if ops != [] {
      OpenRun(g, ops[..|ops| - 1]);
      OpenStep(Run(g, ops[..|ops| - 1]), ops[|ops| - 1]);
    }
  }

  /** An open gate admits: until the stop, the only events lost are those there was no room to copy. */
  lemma OpenGateLosesNothing(ops: seq<Op>, g: Gate)
    requires StopCloses !in ops && g == Run(Fresh, ops)
    ensures !g.stopping && |g.discarded| == Unprepared(ops) && |g.admitted| + |g.deciding| == g.events - Unprepared(ops)
  {
    RunInv(Fresh, ops);
    OpenRun(Fresh, ops);
  }

  /** A decided event is admitted at the end of the queue if the gate is open, and discarded otherwise. */
  lemma DecisionExact(g: Gate, i: nat, h: Gate)
    requires i < |g.deciding| && h == Step(g, EventDecides(i))
    ensures !g.stopping ==>
              h.admitted == g.admitted + [g.deciding[i]] && h.pending == g.pending + [g.deciding[i]] && h.discarded == g.discarded
    ensures g.stopping ==>
              h.discarded == g.discarded + [g.deciding[i]] && h.pending == g.pending && h.admitted == g.admitted
    ensures |h.deciding| == |g.deciding| - 1 && h.handled == g.handled && h.acted == g.acted
  {
  }

  /** The oldest pending notification is the next one handled. */
  lemma WorkTakesOldest(g: Gate, h: Gate)
    requires g.pending != [] && g.running == [] && h == Step(Step(g, WorkStarts), WorkEnds)
    ensures h.handled == g.handled + [g.pending[0]] && g.pending == [g.pending[0]] + h.pending && h.running == []
    ensures h.acted == if g.rootGone then g.acted else g.acted + [g.pending[0]]
  {
  }

  /** A drain ends as soon as nothing is pending or running. */
  lemma DrainEnds(g: Gate)
    requires Inv(g) && g.flush >= 0
    ensures Step(g, FlushEnds).drained <==> g.drained || (g.pending == [] && g.running == [])
  {
    assert |g.handled| + |g.running| + |g.pending| == |g.admitted|;
  }

  /** Nothing is admitted once the gate is closed, whatever still arrives. */
  lemma {:induction false} ClosedStaysClosed(g: Gate, ops: seq<Op>)
    requires g.stopping
    ensures Run(g, ops).stopping && Run(g, ops).admitted == g.admitted
    decreases ops
  {
    if ops != [] {
      ClosedStaysClosed(g, ops[..|ops| - 1]);
    }
  }

  lemma DrainedStep(g: Gate, op: Op)
    requires Inv(g) && g.drained
    ensures var h := Step(g, op); h.drained && h.admitted == g.admitted && h.acted == g.acted
  {
  }

  /** After the drain returns, no notification is pending or running, and none ever starts again. */
  lemma {:induction false} DrainIsFinal(g: Gate, ops: seq<Op>)
    requires Inv(g) && g.drained
    ensures var h := Run(g, ops);
            && h.drained && h.pending == [] && h.running == []
            && h.handled == h.admitted == g.admitted && h.acted == g.acted
    decreases ops
  {
    RunInv(g, ops);
    if ops != [] {
      DrainIsFinal(g, ops[..|ops| - 1]);
      RunInv(g, ops[..|ops| - 1]);
      DrainedStep(Run(g, ops[..|ops| - 1]), ops[|ops| - 1]);
    }
  }

  class Icm {
    var stopping: bool
    var rootGone: bool
    var drained: bool
    var flush: int
    var deciding: seq<nat>
    var pending: seq<nat>
    var running: seq<nat>
    var events: nat
    var admitted: seq<nat>
    var discarded: seq<nat>
    var handled: seq<nat>
    var acted: seq<nat>

    function Now(): (g: Gate)
      reads this
    {
      Gate(stopping, rootGone, drained, flush, deciding, pending, running, events, admitted, discarded, handled, acted)
    }

    constructor ()
      ensures Now() == Fresh
    {
      stopping, rootGone, drained, flush := false, false, false, -1;
      deciding, pending, running, events := [], [], [], 0;
      admitted, discarded, handled, acted := [], [], [], [];
    }

    /** icm_handle_event() up to the lock. */
    method PrepareEvent(room: bool)
      modifies this
      ensures Now() == Step(old(Now()), EventArrives(room))
    {
      var n := events;
      events := events + 1;
      if !room {
        discarded := discarded + [n];
        return;
      }
      deciding := deciding + [n];
    }

    /** The locked section of icm_handle_event() for one prepared event. */
    method DecideEvent(i: nat)
      requires i < |deciding|
      modifies this
      ensures Now() == Step(old(Now()), EventDecides(i))
      ensures if old(stopping) then discarded == old(discarded) + [old(deciding[i])] && pending == old(pending)
              else pending == old(pending) + [old(deciding[i])] && discarded == old(discarded)
    {
      var n := deciding[i];
      deciding := deciding[..i] + deciding[i + 1..];
      var left := true;
      if !stopping {
        pending, admitted := pending + [n], admitted + [n];
        left := false;
      }
      if left {
        discarded := discarded + [n];
      }
    }

    /** icm_handle_notification(), once its work runs. */
    method HandleNotification()
      requires |running| == 1
      modifies this
      ensures Now() == Step(old(Now()), WorkEnds)
      ensures handled == old(handled) + old(running) && acted == old(acted) + if old(rootGone) then [] else old(running)
    {
      if !rootGone {
        acted := acted + [running[0]];
      }
      handled := handled + [running[0]];
      assert running == [running[0]];
      running := [];
    }

    method Perform(op: Op)
      requires Inv(Now())
      modifies this
      ensures Now() == Step(old(Now()), op)
    {
      match op
      case EventArrives(room) => PrepareEvent(room);
      case EventDecides(i) => if i < |deciding| { DecideEvent(i); }
      case WorkStarts =>
        if pending != [] && running == [] {
          running, pending := [pending[0]], pending[1..];
        }
      case WorkEnds => if running != [] { HandleNotification(); }
      case StopCloses => stopping := true;
      case RootGoes => if stopping { rootGone := true; }
      case FlushBegins => if stopping && flush < 0 { flush := |admitted|; }
      case FlushEnds => if 0 <= flush <= |handled| { flush, drained := -1, true; }
    }

    method Drive(ops: seq<Op>)
      requires Inv(Now())
      modifies this
      ensures Inv(Now()) && Now() == Run(old(Now()), ops)
      ensures old(stopping) ==> admitted == old(admitted)
      ensures old(drained) ==> pending == [] && running == [] && acted == old(acted)
    {
      ghost var start := Now();
      for i := 0 to |ops|
        invariant Inv(Now()) && Now() == Run(start, ops[..i])
      {
        assert ops[..i + 1][..i] == ops[..i];
        StepInv(Now(), ops[i]);
        Perform(ops[i]);
      }
      assert ops[..|ops|] == ops;
      if start.stopping {
        ClosedStaysClosed(start, ops);
      }
      if start.drained {
        DrainIsFinal(start, ops);
      }
    }
  }
}
