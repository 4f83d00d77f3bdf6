/** The recovery records and the probe paths that use them (nhi.c), in the driver's own form. */
module ProbeDriver {
  import opened ProbeRecovery

  datatype Device = Device(domain: nat, bus: nat, devfn: nat)

  datatype Record = Record(dev: Device, state: State)

  /** What the record list says of `d`. */
  function Lookup(list: seq<Record>, d: Device): (s: State) {
    if list == [] then Idle
    else if list[0].dev == d then list[0].state
    else Lookup(list[1..], d)
  }

  predicate Absent(list: seq<Record>, d: Device) {
    forall i | 0 <= i < |list| :: list[i].dev != d
  }

  predicate Distinct(list: seq<Record>) {
    forall i, j | 0 <= i < j < |list| :: list[i].dev != list[j].dev
  }

  /** No record says `Idle`: that is what having no record means. */
  predicate Kept(list: seq<Record>) {
    Distinct(list) && forall i | 0 <= i < |list| :: list[i].state != Idle
  }

  lemma {:induction false} LookupAt(list: seq<Record>, i: nat)
    requires Distinct(list) && i < |list|
    ensures Lookup(list, list[i].dev) == list[i].state
  {
    if i > 0 {
      assert list[0].dev != list[i].dev;
      LookupAt(list[1..], i - 1);
    }
  }

  lemma {:induction false} LookupAbsent(list: seq<Record>, d: Device)
    requires Absent(list, d)
    ensures Lookup(list, d) == Idle
  {
    if list != [] {
      LookupAbsent(list[1..], d);
    }
  }

  lemma {:induction false} LookupJoined(a: seq<Record>, b: seq<Record>, d: Device)
    ensures Lookup(a + b, d) == if Absent(a, d) then Lookup(b, d) else Lookup(a, d)
  {
    if a == [] {
      assert a + b == b;
    } else if a[0].dev == d {
      assert (a + b)[0] == a[0];
    } else {
      assert (a + b)[1..] == a[1..] + b;
      LookupJoined(a[1..], b, d);
      assert Absent(a, d) <==> Absent(a[1..], d) by {
        if Absent(a[1..], d) {
          forall i | 0 <= i < |a| ensures a[i].dev != d {
            if i > 0 {
              assert a[1..][i - 1] == a[i];
            }
          }
        }
      }
    }
  }

  /** Replacing, dropping or appending the record of one device leaves every other device's alone. */
  lemma OthersKept(a: seq<Record>, x: seq<Record>, y: seq<Record>, b: seq<Record>, d: Device, e: Device)
    requires d != e && forall i | 0 <= i < |x| :: x[i].dev == d
    requires forall i | 0 <= i < |y| :: y[i].dev == d
    ensures Lookup(a + (x + b), e) == Lookup(a + (y + b), e)
  {
    LookupJoined(a, x + b, e);
    LookupJoined(a, y + b, e);
    LookupJoined(x, b, e);
    LookupJoined(y, b, e);
  }

  ghost predicate SameElsewhere(was: seq<Record>, now: seq<Record>, d: Device) {
    forall e: Device | e != d :: Lookup(now, e) == Lookup(was, e)
  }

  lemma Replaced(was: seq<Record>, i: nat, s: State)
    requires Kept(was) && i < |was| && s != Idle
    ensures var now := was[i := Record(was[i].dev, s)];
            Kept(now) && Lookup(now, was[i].dev) == s && SameElsewhere(was, now, was[i].dev)
  {
    var d := was[i].dev;
    var now := was[i := Record(d, s)];
    LookupAt(now, i);
    assert was == was[..i] + ([was[i]] + was[i + 1..]);
    assert now == was[..i] + ([Record(d, s)] + was[i + 1..]);
    forall e: Device | e != d ensures Lookup(now, e) == Lookup(was, e) {
      OthersKept(was[..i], [was[i]], [Record(d, s)], was[i + 1..], d, e);
    }
  }

  lemma Appended(was: seq<Record>, d: Device, s: State)
    requires Kept(was) && Absent(was, d) && s != Idle
    ensures var now := was + [Record(d, s)];
            Kept(now) && Lookup(now, d) == s && SameElsewhere(was, now, d)
  {
    var now := was + [Record(d, s)];
    LookupAt(now, |was|);
    assert was == was + ([] + []);
    assert now == was + ([Record(d, s)] + []);
    forall e: Device | e != d ensures Lookup(now, e) == Lookup(was, e) {
      OthersKept(was, [], [Record(d, s)], [], d, e);
    }
  }

  lemma Deleted(was: seq<Record>, i: nat)
    requires Kept(was) && i < |was|
    ensures var now := was[..i] + was[i + 1..];
            Kept(now) && Lookup(now, was[i].dev) == Idle && SameElsewhere(was, now, was[i].dev)
  {
    var d := was[i].dev;
    var now := was[..i] + was[i + 1..];
    assert was == was[..i] + ([was[i]] + was[i + 1..]);
    assert now == was[..i] + ([] + was[i + 1..]);
    LookupAbsent(now, d);
    forall e: Device | e != d ensures Lookup(now, e) == Lookup(was, e) {
      OthersKept(was[..i], [was[i]], [], was[i + 1..], d, e);
    }
  }

  class NhiRecovery {
    const dev: Device
    const ordered: bool
    var list: seq<Record>
    var probe: Probe
    var works: nat
    var reading: nat
    var attaching: nat
    ghost var external: nat
    ghost var requests: nat
    ghost var reprobes: nat

    ghost predicate Valid()
      reads this
    {
      Kept(list) && SeenOk(Now())
    }

    ghost function Now(): (h: Host)
      reads this
    {
      Host(ordered, Lookup(list, dev), probe, works, reading, attaching, external, requests, reprobes)
    }

    /** The recovery workqueue is allocated as an ordered one. */
    constructor (d: Device)
      ensures Valid() && dev == d && Now() == Fresh(true)
    {
      dev, ordered, list, probe := d, true, [], NoProbe;
      works, reading, attaching := 0, 0, 0;
      external, requests, reprobes := 0, 0, 0;
    }

    /** The list walk shared by get, set and clear: the matching record, or none. */
    method Locate(d: Device) returns (i: nat)
      requires Kept(list)
      ensures i <= |list|
      ensures i < |list| ==> list[i].dev == d && Lookup(list, d) == list[i].state != Idle
      ensures i == |list| ==> Absent(list, d) && Lookup(list, d) == Idle
      ensures i == |list| <==> Lookup(list, d) == Idle
    {
      i := 0;
      while i < |list|
        invariant i <= |list|
        invariant forall k | 0 <= k < i :: list[k].dev != d
      {
        if list[i].dev == d {
          LookupAt(list, i);
          return;
        }
        i := i + 1;
      }
      LookupAbsent(list, d);
    }

    /** nhi_probe_recovery_get() */
    method Get(d: Device) returns (s: State)
      requires Kept(list)
      ensures s == Lookup(list, d)
    {
      var i := Locate(d);
      s := if i < |list| then list[i].state else Idle;
    }

    /** nhi_probe_recovery_set(); `room` is whether a new record could be allocated. */
    method Set(d: Device, s: State, room: bool) returns (ok: bool)
      requires Kept(list) && s != Idle
      modifies `list
      ensures Kept(list)
      ensures ok <==> room || old(Lookup(list, d)) != Idle
      ensures Lookup(list, d) == if ok then s else Idle
      ensures SameElsewhere(old(list), list, d)
    {
      var i := Locate(d);
      if i < |list| {
        Replaced(list, i, s);
        list := list[i := Record(d, s)];
        return true;
      }
      if !room {
        return false;
      }
      Appended(list, d, s);
      list := list + [Record(d, s)];
      return true;
    }

    /** nhi_probe_recovery_clear() */
    method Clear(d: Device)
      requires Kept(list)
      modifies `list
      ensures Kept(list) && Lookup(list, d) == Idle
      ensures SameElsewhere(old(list), list, d)
    {
      var i := Locate(d);
      if i < |list| {
        Deleted(list, i);
        list := list[..i] + list[i + 1..];
      }
    }

    /** nhi_probe_recovery_release(), run when the probe has failed. */
    method Release(room: bool, queued: bool)
      requires Valid() && Enabled(Now(), ProbeReleases(room, queued))
      modifies this
      ensures Valid() && Now() == Step(old(Now()), ProbeReleases(room, queued))
      ensures SameElsewhere(old(list), list, dev)
    {
      var last := probe.last;
      probe := NoProbe;
      if last != ReprobePending {
        return;
      }
      if queued {
        works, reprobes := works + 1, reprobes + 1;
      } else {
        var _ := Set(dev, Next(last, ReprobeQueueFailed), room);
      }
    }

    /** nhi_probe() up to its read of the record. */
    method BeginProbe(isExternal: bool)
      requires Valid() && Enabled(Now(), ProbeBegins(isExternal))
      modifies this
      ensures Valid() && Now() == Step(old(Now()), ProbeBegins(isExternal))
    {
      var seen := Get(dev);
      probe := Probing(seen, false, false, !isExternal);
      if isExternal {
        external := external + 1;
      } else {
        attaching := attaching - 1;
      }
    }

    /** icm_root_power_cycle(), and the guard icm_driver_ready() puts in front of it. */
    method StartupTimeout(f: Fault, hasPort: bool, reply: int, consumed: bool)
      requires Valid() && Enabled(Now(), StartupTimesOut(f, hasPort, reply, consumed))
      modifies this
      ensures Valid() && Now() == Step(old(Now()), StartupTimesOut(f, hasPort, reply, consumed))
    {
      probe := probe.(asked := true);
      var rec := Get(dev);
      if !((f.driverReady || f.rootConfig) && rec == Idle && f.supported) {
        return;
      }
      var root := RootNext(RootIdle, if f.driverReady then RootDriverReady else if f.rootConfig then RootConfig else RootOther);
      if root != PowerCyclePending || !hasPort {
        return;
      }
      requests := requests + 1;
      root := RootNext(root, CommandEvent(reply, consumed));
      probe := probe.(dispatched := root == ReprobeRequired);
    }

    /** The failure path of nhi_probe() up to the release of its context. */
    method FailProbe(f: Fault, room: bool)
      requires Valid() && Enabled(Now(), ProbeFails(f, room))
      modifies this
      ensures Valid() && Now() == Step(old(Now()), ProbeFails(f, room))
    {
      var event := OtherFailure;
      if f.err == -ETIMEDOUT && f.supported {
        if probe.dispatched {
          event := PowerCycleDispatched;
        } else if f.driverReady {
          event := DriverReadyTimeout;
        } else if f.rootConfig {
          event := RootConfigTimeout;
        }
      }
      var state := probe.seen;
      var next := Next(state, event);
      if next == ReprobePending {
        var ok := Set(dev, next, room);
        if ok {
          state := next;
        }
      }
      if state != ReprobePending {
        if state != Idle {
          Clear(dev);
        }
        state := next;
      }
      probe := Releasing(state, probe.byWork);
    }

    /** The tail of a successful nhi_probe(). */
    method SucceedProbe()
      requires Valid() && Enabled(Now(), ProbeSucceeds)
      modifies this
      ensures Valid() && Now() == Step(old(Now()), ProbeSucceeds)
    {
      Clear(dev);
      probe := NoProbe;
    }

    /** nhi_probe_reprobe_work() reads the record in one critical section ... */
    method WorkGets()
      requires Valid() && Enabled(Now(), WorkReads)
      modifies this
      ensures Valid() && Now() == Step(old(Now()), WorkReads)
    {
      works := works - 1;
      var state := Get(dev);
      state := Next(state, ReprobeDispatched);
      if state == Retrying {
        reading := reading + 1;
      }
    }

    /** ... and sets it in another; anything may have happened in between. */
    method WorkStores(room: bool)
      requires Valid() && Inv(Now()) && Enabled(Now(), WorkSets(room))
      modifies this
      ensures Valid() && Now() == Step(old(Now()), WorkSets(room))
    {
      reading := reading - 1;
      var ok := Set(dev, Retrying, room);
      if ok {
        attaching := attaching + 1;
      }
    }

    method Perform(op: Op)
      requires Valid() && Inv(Now())
      modifies this
      ensures Valid() && Now() == Step(old(Now()), op)
    {
      match op
      case ProbeAborts(isExternal) =>
        if probe.NoProbe? {
          if isExternal {
            external := external + 1;
          } else if attaching > 0 {
            attaching := attaching - 1;
          }
        }
      case ProbeBegins(isExternal) =>
        if probe.NoProbe? && (isExternal || attaching > 0) { BeginProbe(isExternal); }
      case StartupTimesOut(f, hasPort, reply, consumed) =>
        if probe.Probing? && !probe.asked { StartupTimeout(f, hasPort, reply, consumed); }
      case ProbeFailsEarly =>
        if probe.Probing? && !probe.asked { probe := Releasing(probe.seen, probe.byWork); }
      case ProbeFails(f, room) => if probe.Probing? { FailProbe(f, room); }
      case ProbeReleases(room, queued) => if probe.Releasing? { Release(room, queued); }
      case ProbeSucceeds => if probe.Probing? && !probe.asked { SucceedProbe(); }
      case WorkReads =>
        if works > 0 && (ordered ==> reading == 0 && attaching == 0 && (probe.NoProbe? || !probe.byWork)) { WorkGets(); }
      case WorkSets(room) => if reading > 0 { WorkStores(room); }
      case AttachSkips => if probe.NoProbe? && attaching > 0 { attaching := attaching - 1; }
    }

    /** Any interleaving: the driver does exactly what the protocol says, so its bounds are the protocol's. */
    method Drive(ops: seq<Op>)
      requires Valid() && Inv(Now())
      modifies this
      ensures Valid() && Inv(Now()) && Now() == Run(old(Now()), ops)
      ensures requests <= external && reprobes <= external
    {
      ghost var start := Now();
      for i := 0 to |ops|
        invariant Valid() && Inv(Now()) && Now() == Run(start, ops[..i])
      {
        assert ops[..i + 1][..i] == ops[..i];
        StepInv(Now(), ops[i]);
        Perform(ops[i]);
      }
      assert ops[..|ops|] == ops;
    }
  }
}
