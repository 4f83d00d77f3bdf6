/**
 Activating and deactivating a path (path.c, switch.c). The routers are an
 environment: config-space reads and writes can fail, a router can disappear,
 and a write that enables an entry can report success without sticking.
 */
module PathActivation {

  const EIO := 5
  const ENODEV := 19
  const EINVAL := 22
  const ETIMEDOUT := 110
  const NFC_BUFFERS := 1024

  datatype PathState = Inactive | Active | TeardownFailed

  /** The parts of a path config space entry the driver acts on. */
  datatype Regs = Regs(enable: bool, pending: bool, weight: nat, outPort: nat, nextHop: nat,
                       ingressFc: bool, egressFc: bool)

  /** Where along the path flow control is enabled. */
  datatype FlowControl = FlowControl(source: bool, internal: bool, destination: bool)

  /** What a hop of the path asks for, and what kind of port it enters by. */
  datatype HopInfo = HopInfo(outPort: nat, nextHop: nat, nfcCredits: nat, counter: int,
                             usb4: bool, laneAdapter: bool, unplugged: bool)

  /** Credits the hop really adds to its port: USB4 takes them on lane adapters only. */
  function Effective(h: HopInfo): (n: nat) {
    if h.unplugged || (h.usb4 && !h.laneAdapter) then 0 else h.nfcCredits
  }

  /** tb_port_add_nfc_credits() on the cached register; removal never goes below zero. */
  function NfcAfter(reg: nat, credits: int): (r: nat)
    ensures 0 <= reg % NFC_BUFFERS + credits < NFC_BUFFERS ==>
              r % NFC_BUFFERS == reg % NFC_BUFFERS + credits && r / NFC_BUFFERS == reg / NFC_BUFFERS
    ensures reg % 1024 + credits < 0 ==> r == reg - reg % 1024
  {
    var cur := reg % NFC_BUFFERS;
    var change := if credits < -cur then -cur else credits;
    reg + change
  }

  /** The cached register holds the port's own credits, plus the hop's if `held`. */
  predicate CreditsAt(reg: nat, base: nat, h: HopInfo, held: bool) {
    && reg % NFC_BUFFERS == base % NFC_BUFFERS + (if held then Effective(h) else 0)
    && reg / NFC_BUFFERS == base / NFC_BUFFERS
  }

  /** Hops from `first` on hold their credits, earlier ones do not. */
  predicate CreditsFrom(nfc: seq<nat>, base: seq<nat>, hops: seq<HopInfo>, first: nat)
    requires |nfc| == |base| == |hops|
  {
    && (forall i | 0 <= i < |hops| && i < first :: CreditsAt(nfc[i], base[i], hops[i], false))
    && (forall i | first <= i < |hops| :: CreditsAt(nfc[i], base[i], hops[i], true))
  }

  /** Equal but for the pending-packets status. */
  predicate SameEntry(a: Regs, b: Regs) {
    a.(pending := false) == b.(pending := false)
  }

  predicate SameRoute(a: Regs, b: Regs) {
    a.outPort == b.outPort && a.nextHop == b.nextHop && a.weight == b.weight
  }

  predicate Drained(r: Regs) {
    !r.enable && !r.pending
  }

  /** The result of one deactivated hop does not count as a failure; -19 is -ENODEV. */
  predicate Tolerated(res: int) {
    res == 0 || res == -19
  }

  /** `after` adds one attempt for each of the hops from `first` to `last`, in order. */
  predicate Swept(before: seq<(nat, int)>, after: seq<(nat, int)>, first: nat, last: nat) {
    && before <= after && |after| == |before| + last - first
    && forall k | |before| <= k < |after| :: after[k].0 == first + k - |before|
  }

  predicate AllTolerated(log: seq<(nat, int)>, from: nat, to: nat) {
    forall k | from <= k < to && k < |log| :: Tolerated(log[k].1)
  }

  /** `ret` is the first result from attempt `from` on that counts as a failure, or 0 if none does. */
  predicate FirstFailure(log: seq<(nat, int)>, from: nat, ret: int) {
    if ret == 0 then AllTolerated(log, from, |log|)
    else !Tolerated(ret) && exists k | from <= k < |log| :: log[k].1 == ret && AllTolerated(log, from, k)
  }

  lemma FailureStep(log: seq<(nat, int)>, from: nat, ret: int, i: nat, res: int)
    requires from <= |log| && FirstFailure(log, from, ret)
    ensures FirstFailure(log + [(i, res)], from, if ret == 0 && !Tolerated(res) then res else ret)
  {
    var next := log + [(i, res)];
    if ret != 0 {
      var k :| from <= k < |log| && log[k].1 == ret && AllTolerated(log, from, k);
      assert next[k].1 == ret && AllTolerated(next, from, k);
    } else if !Tolerated(res) {
      assert next[|log|].1 == res && AllTolerated(next, from, |log|);
    }
  }

  /** Nothing of the path is left in the entry, or its router is gone. */
  predicate Quiet(r: Regs, isGone: bool) {
    Drained(r) || isGone
  }

  class TbPath {
    const hops: seq<HopInfo>
    const weight: nat
    const clearFc: bool
    const ingressFc: FlowControl
    const egressFc: FlowControl
    /** Whether the routers take an enabling write all or not at all; the driver does not rely on it. */
    const wholeWrites: bool
    const base: seq<nat>
    var state: PathState
    /** port->config.nfc_credits of each hop's ingress port */
    var nfc: seq<nat>
    /** The routers' path config space entries, and which routers are gone. */
    var hw: seq<Regs>
    var gone: seq<bool>
    /** Every deactivation of a hop and its result. */
    ghost var attempts: seq<(nat, int)>
    /** An access failed, an enabling write did not take effect, or a disabled entry had packets left. */
    ghost var trouble: bool

    /** A path as tb_path_alloc() leaves it; `hw` is what the routers' entries held before. */
    constructor (hops: seq<HopInfo>, weight: nat, clearFc: bool, ingressFc: FlowControl, egressFc: FlowControl,
                 wholeWrites: bool, nfc: seq<nat>, hw: seq<Regs>)
      requires |hops| == |nfc| == |hw|
      requires forall i | 0 <= i < |hops| :: nfc[i] % NFC_BUFFERS + Effective(hops[i]) < NFC_BUFFERS
      ensures this.hops == hops && this.weight == weight && this.clearFc == clearFc && this.wholeWrites == wholeWrites
      ensures this.ingressFc == ingressFc && this.egressFc == egressFc && this.hw == hw && this.nfc == nfc == base
      ensures Valid() && state == Inactive && !trouble
    {
      this.hops, this.weight, this.clearFc, this.wholeWrites := hops, weight, clearFc, wholeWrites;
      this.ingressFc, this.egressFc, this.nfc, this.base, this.hw := ingressFc, egressFc, nfc, nfc, hw;
      gone := seq(|hops|, _ => false);
      state, attempts, trouble := Inactive, [], false;
    }

    ghost predicate Shape()
      reads this
    {
      && |hops| == |hw| == |gone| == |nfc| == |base|
      && (forall i | 0 <= i < |hops| :: base[i] % NFC_BUFFERS + Effective(hops[i]) < NFC_BUFFERS)
    }

    /** A path owns its credits exactly when it is not inactive. */
    ghost predicate Valid()
      reads this
    {
      Shape() && CreditsFrom(nfc, base, hops, if state == Inactive then |hops| else 0)
    }

    /** Only the entry of hop `i` may have changed. */
    twostate predicate OnlyHop(i: nat)
      reads this
    {
      && |hw| == |old(hw)| && |gone| == |old(gone)|
      && (forall j | 0 <= j < |hw| && j != i :: hw[j] == old(hw[j]))
      && (forall j | 0 <= j < |gone| && old(gone[j]) :: gone[j])
    }

    // ----- the environment

    /** A read reports the entry as it is; traffic comes and goes while it is enabled, then only drains; routers may vanish. */
    method ReadHop(i: nat) returns (err: int, regs: Regs)
      requires Shape() && i < |hops|
      modifies this`hw, this`gone, this`trouble
      ensures OnlyHop(i)
      ensures SameEntry(hw[i], old(hw[i])) && (Drained(old(hw[i])) ==> Drained(hw[i]))
      ensures trouble == (old(trouble) || err != 0 || (!hw[i].enable && hw[i].pending))
      ensures err == 0 ==> regs == hw[i]
      ensures err == -ENODEV ==> gone[i]
      ensures err <= 0
    {
      var traffic: bool, vanishes: bool, fails: bool := *, *, *;
      if hw[i].enable || hw[i].pending {
        hw := hw[i := hw[i].(pending := traffic)];
      }
      if vanishes {
        gone := gone[i := true];
      }
      regs := hw[i];
      err := if gone[i] then -ENODEV else if fails then -ETIMEDOUT else 0;
      trouble := trouble || err != 0 || (!hw[i].enable && hw[i].pending);
    }

    /**
     A write that reports success and clears `enable` takes effect. A write that
     sets `enable` may leave anything in the entry, whatever it reports; only routers
     with `wholeWrites` take it all or not at all. A write that clears `enable` never
     enables.
     */
    method WriteHop(i: nat, regs: Regs) returns (err: int)
      requires Shape() && i < |hops|
      modifies this`hw, this`gone, this`trouble
      ensures OnlyHop(i)
      ensures trouble == (old(trouble) || err != 0 || !SameEntry(hw[i], regs))
      ensures wholeWrites ==> SameEntry(hw[i], regs) || hw[i] == old(hw[i])
      ensures err == 0 && !regs.enable ==> SameEntry(hw[i], regs)
      ensures !regs.enable ==> SameEntry(hw[i], regs) || hw[i] == old(hw[i])
      ensures !regs.enable && !old(hw[i]).enable ==> !hw[i].enable
      ensures !regs.enable && !old(hw[i]).pending ==> !hw[i].pending || hw[i].enable
      ensures err == -ENODEV ==> gone[i]
      ensures err <= 0
    {
      var sticks: bool, traffic: bool, vanishes: bool, fails: bool := *, *, *, *;
      var left: Regs := *;
      if vanishes {
        gone := gone[i := true];
      }
      err := if gone[i] then -ENODEV else if fails then -ETIMEDOUT else 0;
      if regs.enable {
        if sticks {
          hw := hw[i := if wholeWrites then regs.(pending := traffic) else left];
        }
      } else if err == 0 || sticks {
        hw := hw[i := regs.(pending := hw[i].pending)];
      }
      trouble := trouble || err != 0 || !SameEntry(hw[i], regs);
    }

    /** Clearing a counter or programming a credit register: only the result matters. */
    method WritePort() returns (err: int)
      modifies this`trouble
      ensures err <= 0 && trouble == (old(trouble) || err != 0)
    {
      var fails: bool := *;
      err := if fails then -ETIMEDOUT else 0;
      trouble := trouble || fails;
    }

    // ----- credits

    /** tb_port_add_nfc_credits(): the cached value changes even if the write fails. */
    method AddNfcCredits(i: nat, credits: int) returns (err: int)
      requires Shape() && i < |hops|
      modifies this`nfc, this`trouble
      ensures trouble == (old(trouble) || err != 0)
      ensures |nfc| == |old(nfc)| && forall j | 0 <= j < |nfc| && j != i :: nfc[j] == old(nfc[j])
      ensures nfc[i] == if hops[i].unplugged || (hops[i].usb4 && !hops[i].laneAdapter) then old(nfc[i])
                        else NfcAfter(old(nfc[i]), credits)
      ensures err <= 0
    {
      if credits == 0 || hops[i].unplugged || (hops[i].usb4 && !hops[i].laneAdapter) {
        return 0;
      }
      nfc := nfc[i := NfcAfter(nfc[i], credits)];
      err := WritePort();
    }

    /** __tb_path_deallocate_nfc() */
    method DeallocateNfc(first: nat)
      requires Shape() && first <= |hops| && CreditsFrom(nfc, base, hops, first)
      modifies this`nfc, this`trouble
      ensures Shape() && CreditsFrom(nfc, base, hops, |hops|) && (old(trouble) ==> trouble)
    {
      var i := first;
      while i < |hops|
        invariant first <= i <= |hops| && Shape() && (old(trouble) ==> trouble)
        invariant CreditsFrom(nfc, base, hops, i)
      {
        var _ := AddNfcCredits(i, -(hops[i].nfcCredits as int));
        i := i + 1;
      }
    }

    // ----- deactivation

    /** What a cleared entry keeps: its route and weight, and its flow control unless that is to be cleared. */
    predicate Cleared(i: nat, was: Regs, r: Regs)
      requires i < |hops|
    {
      && SameRoute(r, was)
      && (!clearFc ==> r.ingressFc == was.ingressFc && r.egressFc == was.egressFc)
      && (clearFc && was.enable ==> !r.egressFc && r.ingressFc == (was.ingressFc && hops[i].usb4))
    }

    /** Wait for the packets of a disabled entry, then clear its flow control if asked to. */
    method DrainHop(i: nat, polls: nat) returns (err: int)
      requires Shape() && i < |hops| && !hw[i].enable
      modifies this`hw, this`gone, this`trouble
      ensures OnlyHop(i) && SameRoute(hw[i], old(hw[i])) && (old(trouble) || err != 0 ==> trouble)
      ensures err == 0 ==> Drained(hw[i]) && Cleared(i, old(hw[i]).(enable := true), hw[i])
      ensures err == -ENODEV ==> gone[i]
    {
      var n := 0;
      while true
        invariant OnlyHop(i) && SameEntry(hw[i], old(hw[i]))
        invariant (old(trouble) ==> trouble) && (n > 0 ==> trouble)
        decreases polls - n
      {
        var regs;
        err, regs := ReadHop(i);
        if err != 0 {
          return;
        }
        if !regs.pending {
          if clearFc {
            regs := regs.(ingressFc := regs.ingressFc && hops[i].usb4, egressFc := false);
            err := WriteHop(i, regs);
          }
          return;
        }
        n := n + 1;
        if n >= polls {
          return -ETIMEDOUT;
        }
      }
    }

    /** Read, disable and drain one entry. */
    method ClearHop(i: nat, polls: nat) returns (err: int)
      requires Shape() && i < |hops|
      modifies this`hw, this`gone, this`trouble
      ensures OnlyHop(i) && SameRoute(hw[i], old(hw[i])) && (old(trouble) || err != 0 ==> trouble)
      ensures err == 0 ==> Drained(hw[i]) && Cleared(i, old(hw[i]), hw[i])
      ensures Drained(old(hw[i])) ==> Drained(hw[i])
      ensures err == -ENODEV ==> gone[i]
    {
      var regs;
      err, regs := ReadHop(i);
      if err != 0 {
        return;
      }
      if !regs.enable && !regs.pending {
        return 0;
      }
      if regs.enable {
        err := WriteHop(i, regs.(enable := false));
        if err != 0 {
          return;
        }
      }
      err := DrainHop(i, polls);
    }

    /** __tb_path_deactivate_hop(): success means the entry is disabled and drained. */
    method DeactivateHop(i: nat, polls: nat) returns (err: int)
      requires Shape() && i < |hops|
      modifies this`hw, this`gone, this`trouble, this`attempts
      ensures OnlyHop(i) && SameRoute(hw[i], old(hw[i])) && attempts == old(attempts) + [(i, err)]
      ensures err == 0 ==> Drained(hw[i]) && Cleared(i, old(hw[i]), hw[i])
      ensures Drained(old(hw[i])) ==> Drained(hw[i])
      ensures err == -ENODEV ==> gone[i]
      ensures old(trouble) || err != 0 ==> trouble
    {
      err := ClearHop(i, polls);
      attempts := attempts + [(i, err)];
    }

    /** What the results of the hops from `first` to `last` mean; the first of them is attempt `from`. */
    ghost predicate Settled(from: nat, first: nat, last: nat)
      requires first <= last <= |hw| == |gone| && from + last - first <= |attempts|
      reads this
    {
      && (forall j | first <= j < last && attempts[from + j - first].1 == 0 :: Drained(hw[j]))
      && (forall j | first <= j < last && attempts[from + j - first].1 == -19 :: gone[j])
    }

    /**
     __tb_path_deactivate_hops(): every hop is tried, whatever happened to the ones
     before; the first failure is kept, and a vanished router does not count as one.
     */
    method DeactivateHops(first: nat, polls: nat) returns (ret: int)
      requires Shape() && first <= |hops|
      modifies this`hw, this`gone, this`trouble, this`attempts
      ensures |hw| == |old(hw)| && |gone| == |old(gone)|
      ensures forall j | 0 <= j < first :: hw[j] == old(hw[j])
      ensures forall j | 0 <= j < |hw| :: SameRoute(hw[j], old(hw[j]))
      ensures forall j | 0 <= j < |gone| && old(gone[j]) :: gone[j]
      ensures Swept(old(attempts), attempts, first, |hops|) && FirstFailure(attempts, |old(attempts)|, ret)
      ensures forall j | first <= j < |hops| && attempts[|old(attempts)| + j - first].1 == 0 :: Drained(hw[j])
      ensures forall j | first <= j < |hops| && attempts[|old(attempts)| + j - first].1 == -19 :: gone[j]
      ensures ret == 0 ==> forall j | first <= j < |hops| :: Quiet(hw[j], gone[j])
      ensures old(trouble) || ret != 0 ==> trouble
    {
      ret := 0;
      var i := first;
      while i < |hops|
        invariant first <= i <= |hops| == |hw| == |gone|
        invariant forall j | 0 <= j < first || i <= j < |hw| :: hw[j] == old(hw[j])
        invariant forall j | 0 <= j < |hw| :: SameRoute(hw[j], old(hw[j]))
        invariant forall j | 0 <= j < |gone| && old(gone[j]) :: gone[j]
        invariant Swept(old(attempts), attempts, first, i) && FirstFailure(attempts, |old(attempts)|, ret)
        invariant Settled(|old(attempts)|, first, i)
        invariant old(trouble) || ret != 0 ==> trouble
      {
        ghost var log := attempts;
        var res := DeactivateHop(i, polls);
        FailureStep(log, |old(attempts)|, ret, i, res);
        if res != 0 && res != -ENODEV && ret == 0 {
          ret := res;
        }
        i := i + 1;
      }
    }

    /** tb_path_deactivate() */
    method Deactivate(polls: nat) returns (err: int)
      requires Valid()
      modifies this`state, this`nfc, this`hw, this`gone, this`trouble, this`attempts
      ensures Valid() && forall j | 0 <= j < |hw| :: SameRoute(hw[j], old(hw[j]))
      ensures |hops| == 0 || old(state) == Inactive ==> err == -EINVAL && state == old(state) && hw == old(hw)
      ensures |hops| > 0 && old(state) != Inactive ==>
                if err == 0 then state == Inactive && forall j | 0 <= j < |hops| :: Quiet(hw[j], gone[j])
                else state == TeardownFailed && trouble
      ensures old(trouble) ==> trouble
      ensures |hops| > 0 && old(state) != Inactive ==>
                Swept(old(attempts), attempts, 0, |hops|) && FirstFailure(attempts, |old(attempts)|, err)
    {
      if |hops| == 0 || state == Inactive {
        return -EINVAL;
      }
      err := DeactivateHops(0, polls);
      if err != 0 {
        state := TeardownFailed;
        return;
      }
      DeallocateNfc(0);
      state := Inactive;
    }

    // ----- activation

    /** The entry tb_path_activate() writes; flow control depends on the place in the path. */
    function Wanted(i: nat): (r: Regs)
      requires i < |hops|
    {
      var ingress := if i == 0 then ingressFc.source else ingressFc.internal;
      var egress := if i == |hops| - 1 then egressFc.destination else egressFc.internal;
      Regs(true, false, weight, hops[i].outPort, hops[i].nextHop, ingress, egress)
    }

    method ClearCounters() returns (err: int)
      modifies this`trouble
      ensures err <= 0 && trouble == (old(trouble) || err != 0)
    {
      err := 0;
      var i := |hops|;
      while i > 0
        invariant err == 0 && trouble == old(trouble)
      {
        i := i - 1;
        if hops[i].counter != -1 {
          err := WritePort();
          if err != 0 {
            return;
          }
        }
      }
    }

    /** Add credits from the last hop back; a failure takes back what was added. */
    method AddCredits() returns (err: int)
      requires Shape() && CreditsFrom(nfc, base, hops, |hops|)
      modifies this`nfc, this`trouble
      ensures Shape() && CreditsFrom(nfc, base, hops, if err == 0 then 0 else |hops|)
      ensures err <= 0 && (old(trouble) || err != 0 ==> trouble)
    {
      err := 0;
      var i := |hops|;
      while i > 0
        invariant 0 <= i <= |hops| && Shape() && err == 0 && trouble == old(trouble)
        invariant CreditsFrom(nfc, base, hops, i)
      {
        i := i - 1;
        err := AddNfcCredits(i, hops[i].nfcCredits);
        if err != 0 {
          DeallocateNfc(i);
          return;
        }
      }
    }

    /** One turn of the activation loop: clear, write, read back, compare. */
    method ProgramHop(i: nat, polls: nat) returns (err: int)
      requires Shape() && i < |hops|
      modifies this`hw, this`gone, this`trouble, this`attempts
      ensures OnlyHop(i) && (old(trouble) || err != 0 ==> trouble)
      ensures err == 0 ==> Up(hw[i]) && (wholeWrites ==> SameEntry(hw[i], Wanted(i)))
    {
      err := DeactivateHop(i, polls);
      if err != 0 {
        return;
      }
      err := WriteHop(i, Wanted(i));
      if err != 0 {
        return;
      }
      var check;
      err, check := ReadHop(i);
      if err != 0 {
        return;
      }
      if !check.enable || check.weight != weight {
        err := -EIO;
      }
    }

    /** __tb_path_activation_rollback() */
    method Rollback(first: nat, polls: nat)
      requires Shape() && first <= |hops| && state == Inactive && CreditsFrom(nfc, base, hops, 0)
      modifies this`state, this`nfc, this`hw, this`gone, this`trouble, this`attempts
      ensures Valid() && state != Active
      ensures forall j | 0 <= j < first :: hw[j] == old(hw[j])
      ensures state == Inactive ==> forall j | first <= j < |hops| :: Quiet(hw[j], gone[j])
      ensures Swept(old(attempts), attempts, first, |hops|)
      ensures exists ret :: FirstFailure(attempts, |old(attempts)|, ret) && (ret == 0 <==> state == Inactive)
      ensures old(trouble) ==> trouble
    {
      var ret := DeactivateHops(first, polls);
      if ret != 0 {
        state := TeardownFailed;
        return;
      }
      DeallocateNfc(0);
    }

    /** What the readback checks. */
    predicate Up(r: Regs) {
      r.enable && r.weight == weight
    }

    /** The hops from `first` on were programmed, the others were not touched. */
    twostate predicate Programmed(first: nat)
      reads this
    {
      && |hw| == |old(hw)| == |hops| && |gone| == |hops|
      && (forall j | 0 <= j < |hops| && j < first :: hw[j] == old(hw[j]))
      && (forall j | first <= j < |hops| :: Up(hw[j]))
      && (wholeWrites ==> forall j | first <= j < |hops| :: SameEntry(hw[j], Wanted(j)))
    }

    /**
     tb_path_activate(). Success means every entry was read back enabled with the
     path's weight; where a write sticks whole or not at all, the entry then holds the
     route and flow control of the path too, because it was cleared first. A failure touched the entries from `first` on only;
     it leaves the path inactive with each of them drained or its router gone,
     or marks the teardown as failed and keeps the credits.
     */
    method Activate(polls: nat) returns (err: int, ghost first: nat)
      requires Valid()
      modifies this`state, this`nfc, this`hw, this`gone, this`trouble, this`attempts
      ensures Valid() && first <= |hops|
      ensures |hops| == 0 || old(state) != Inactive ==> err == -EINVAL && state == old(state) && hw == old(hw)
      ensures |hops| > 0 && old(state) == Inactive ==> (err == 0 <==> state == Active)
      ensures err == 0 ==> forall j | 0 <= j < |hops| :: hw[j].enable && hw[j].weight == weight
      ensures err == 0 && wholeWrites ==> forall j | 0 <= j < |hops| ::
                && hw[j].outPort == hops[j].outPort && hw[j].nextHop == hops[j].nextHop
                && hw[j].ingressFc == (if j == 0 then ingressFc.source else ingressFc.internal)
                && hw[j].egressFc == (if j == |hops| - 1 then egressFc.destination else egressFc.internal)
      ensures |hops| > 0 && old(state) == Inactive && err != 0 ==> trouble
      ensures err != 0 ==> forall j | 0 <= j < first :: hw[j] == old(hw[j])
      ensures err != 0 && state == Inactive ==> forall j | first <= j < |hops| :: Quiet(hw[j], gone[j])
    {
      first := |hops|;
      if |hops| == 0 || state != Inactive {
        return -EINVAL, |hops|;
      }
      err := ClearCounters();
      if err != 0 {
        return;
      }
      err := AddCredits();
      if err != 0 {
        return;
      }
      var i := |hops|;
      while i > 0
        invariant 0 <= i <= |hops| && Shape() && state == Inactive && err == 0
        invariant CreditsFrom(nfc, base, hops, 0)
        invariant Programmed(i)
      {
        i := i - 1;
        err := ProgramHop(i, polls);
        if err != 0 {
          first := i;
          Rollback(i, polls);
          return;
        }
      }
      first := 0;
      state := Active;
    }

    /** Any sequence of activations, deactivations and retries keeps the credit ledger exact. */
    method Drive(activate: seq<bool>, polls: nat)
      requires Valid()
      modifies this`state, this`nfc, this`hw, this`gone, this`trouble, this`attempts
      ensures Valid()
      ensures forall i | 0 <= i < |hops| :: CreditsAt(nfc[i], base[i], hops[i], state != Inactive)
    {
      var n := 0;
      while n < |activate|
        invariant n <= |activate| && Valid()
      {
        if activate[n] {
          var _, _ := Activate(polls);
        } else {
          var _ := Deactivate(polls);
        }
        n := n + 1;
      }
    }
  }
}
