/** The host interface's ring tables and domain removal (nhi.c, domain.c), in the driver's own form. */
module RingRemoval {
  import opened RingOwnership

  const ENODEV := 19
  const ETIMEDOUT := 110
  const EOPNOTSUPP := 95

  /** What one read of the reset register shows. */
  datatype Poll = Poll(goingAway: bool, busy: bool)

  /**
   __nhi_reset(): `polls` are the reads of the reset bit made before the timeout.
   A forced reset reports success exactly when some read showed the bit clear
   while the device was still there at every read so far.
   */
  method Reset(version: nat, goneAtStart: bool, force: bool, hostReset: bool, polls: seq<Poll>) returns (err: int)
    requires polls != []
    ensures err == 0 <==>
            && !goneAtStart && version >= 2
            && ((!force && !hostReset)
                || exists k | 0 <= k < |polls| :: !polls[k].busy && forall j | 0 <= j <= k :: !polls[j].goingAway)
    ensures err == -ETIMEDOUT ==> forall k | 0 <= k < |polls| :: polls[k].busy && !polls[k].goingAway
    ensures err == 0 || err == -ENODEV || err == -EOPNOTSUPP || err == -ETIMEDOUT
  {
    if goneAtStart {
      return -ENODEV;
    }
    if version < 2 {
      return -EOPNOTSUPP;
    }
    if !force && !hostReset {
      return 0;
    }
    var i := 0;
    while i < |polls|
      invariant i <= |polls|
      invariant forall k | 0 <= k < i :: polls[k].busy && !polls[k].goingAway
    {
      if polls[i].goingAway {
        return -ENODEV;
      }
      if !polls[i].busy {
        return 0;
      }
      i := i + 1;
    }
    return -ETIMEDOUT;
  }

  class Nhi {
    const tx: array<Slot>
    const rx: array<Slot>
    var freed: seq<nat>
    var retained: seq<nat>
    var made: nat

    ghost predicate Valid()
      reads this, tx, rx
    {
      tx != rx && tx.Length == rx.Length
    }

    ghost function Now(): (s: Tables)
      reads this, tx, rx
    {
      Tables(tx[..], rx[..], freed, retained, made)
    }

    constructor (hopCount: nat)
      ensures Valid() && fresh(tx) && fresh(rx) && tx.Length == rx.Length == hopCount
      ensures Accounted(Now())
    {
      tx := new Slot[hopCount](_ => Vacant);
      rx := new Slot[hopCount](_ => Vacant);
      freed, retained, made := [], [], 0;
      new;
      forall id: nat ensures Places(Now(), id) == 0 {
        NoRings(tx[..], id);
        NoRings(rx[..], id);
      }
    }

    function Table(isTx: bool): (t: array<Slot>) {
      if isTx then tx else rx
    }

    /** The lowest HopID a ring may ask for besides 0; the end-to-end quirk reserves HopID 1. */
    function First(e2eQuirk: bool): (h: nat)
      ensures h == if e2eQuirk then 2 else 1
    {
      StartHop(e2eQuirk)
    }

    /** The search of nhi_alloc_hop() for any HopID. */
    method FindVacant(t: array<Slot>, start: nat) returns (i: nat)
      ensures i == FirstVacant(t[..], start)
    {
      i := start;
      while i < t.Length && !t[i].Vacant?
        invariant start <= i
        invariant FirstVacant(t[..], i) == FirstVacant(t[..], start)
        decreases t.Length - i
      {
        i := i + 1;
      }
    }

    /** Which HopID nhi_alloc_hop() settles on: -22 is -EINVAL, -16 is -EBUSY. */
    method ChooseHop(t: array<Slot>, hop: int, start: nat) returns (h: int)
      requires start > 0
      ensures h == Granted(t[..], hop, start)
      ensures hop >= 0 ==> h == if hop >= t.Length || 0 < hop < start then -22 else if t[hop].Held? then -16 else hop
      ensures hop < 0 ==> h == -22 || start <= h < t.Length
      ensures hop < 0 && h >= 0 ==> t[h].Vacant? && forall i | start <= i < h :: t[i].Held?
      ensures hop < 0 && h < 0 ==> forall i | start <= i < t.Length :: t[i].Held?
    {
      h := hop;
      if h < 0 {
        var i := FindVacant(t, start);
        if i < t.Length {
          h := i;
        }
      }
      if 0 < h < start {
        return -EINVAL;
      }
      if h < 0 || h >= t.Length {
        return -EINVAL;
      }
      if !t[h].Vacant? {
        return -EBUSY;
      }
    }

    /** nhi_alloc_hop(): the HopID taken, or a negative error. */
    method AllocHop(isTx: bool, hop: int, e2eQuirk: bool) returns (h: int)
      requires Valid()
      modifies this, Table(isTx)
      ensures Valid() && Now() == Step(old(Now()), Allocate(isTx, hop, e2eQuirk))
      ensures h == Granted(old(Table(isTx)[..]), hop, StartHop(e2eQuirk))
      ensures hop >= 0 ==> h == if hop >= Table(isTx).Length || 0 < hop < First(e2eQuirk) then -22
                                else if old(Table(isTx)[hop]).Held? then -16 else hop
      ensures hop < 0 ==> h == -22 || First(e2eQuirk) <= h < Table(isTx).Length
      ensures hop < 0 && h >= 0 ==>
                old(Table(isTx)[h]).Vacant? && forall i | First(e2eQuirk) <= i < h :: old(Table(isTx)[i]).Held?
      ensures hop < 0 && h < 0 ==> forall i | First(e2eQuirk) <= i < Table(isTx).Length :: old(Table(isTx)[i]).Held?
      ensures h < 0 ==> Now() == old(Now())
      ensures h >= 0 ==> Table(isTx)[..] == old(Table(isTx)[..])[h := Held(old(made), false)] && made == old(made) + 1
    {
      ghost var was := Now();
      var t := Table(isTx);
      h := ChooseHop(t, hop, First(e2eQuirk));
      if h >= 0 {
        t[h] := Held(made, false);
        made := made + 1;
        assert t[..] == Side(was, isTx)[h := Held(was.made, false)];
      }
    }

    /** tb_ring_free() */
    method FreeRing(isTx: bool, hop: nat)
      requires Valid() && hop < tx.Length && Table(isTx)[hop].Held?
      modifies this, Table(isTx)
      ensures Valid() && Now() == Step(old(Now()), Free(isTx, hop))
      ensures Table(isTx)[..] == old(Table(isTx)[..])[hop := Vacant]
      ensures freed == old(freed) + [old(Table(isTx)[hop]).ring] && retained == old(retained) && made == old(made)
    {
      ghost var was := Now();
      var t := Table(isTx);
      freed := freed + [t[hop].ring];
      t[hop] := Vacant;
      assert t[..] == Side(was, isTx)[hop := Vacant];
    }

    /** The table's side of tb_ring_quarantine(). */
    method QuarantineRing(isTx: bool, hop: nat)
      requires Valid() && hop < tx.Length && Table(isTx)[hop].Held?
      modifies Table(isTx)
      ensures Valid() && Now() == Step(old(Now()), Quarantine(isTx, hop))
      ensures Table(isTx)[..] == old(Table(isTx)[..])[hop := Held(old(Table(isTx)[hop]).ring, true)]
    {
      ghost var was := Now();
      var t := Table(isTx);
      t[hop] := t[hop].(quarantined := true);
      assert t[..] == Side(was, isTx)[hop := Side(was, isTx)[hop].(quarantined := true)];
    }

    /** tb_nhi_has_quarantined_rings() */
    method HasQuarantined() returns (found: bool)
      requires tx.Length == rx.Length
      ensures found <==> AnyQuarantined(tx[..]) || AnyQuarantined(rx[..])
    {
      for i := 0 to tx.Length
        invariant forall k | 0 <= k < i :: !IsQuarantined(tx[k]) && !IsQuarantined(rx[k])
      {
        if IsQuarantined(tx[i]) || IsQuarantined(rx[i]) {
          assert IsQuarantined(tx[..][i]) || IsQuarantined(rx[..][i]);
          return true;
        }
      }
      return false;
    }

    /** Takes the ring out of slot `i` if it is quarantined, under the table lock. */
    method Detach(t: array<Slot>, i: nat) returns (ids: seq<nat>)
      requires i < t.Length
      modifies t
      ensures t[..] == old(t[..])[i := Emptied(old(t[i]))] && ids == Take(old(t[i]))
    {
      ids := [];
      if IsQuarantined(t[i]) {
        ids := [t[i].ring];
        t[i] := Vacant;
      }
    }

    /** One turn of the walks over the tables: the receive ring first, then the transmit ring. */
    method DetachBoth(i: nat, ghost t0: seq<Slot>, ghost r0: seq<Slot>) returns (ids: seq<nat>)
      requires Valid() && i < tx.Length == |t0| == |r0| && tx[..] == Swept(t0, i) && rx[..] == Swept(r0, i)
      modifies tx, rx
      ensures tx[..] == Swept(t0, i + 1) && rx[..] == Swept(r0, i + 1) && ids == Take(r0[i]) + Take(t0[i])
    {
      SweptStep(t0, i);
      SweptStep(r0, i);
      assert tx[i] == tx[..][i] && rx[i] == rx[..][i];
      var first := Detach(rx, i);
      var second := Detach(tx, i);
      ids := first + second;
    }

    /** The loop of tb_nhi_finalize_quarantined_rings(): tb_ring_free() of each quarantined ring. */
    method Reclaim()
      requires Valid()
      modifies this, tx, rx
      ensures Now() == Drained(old(Now())).(freed := old(freed) + Collected(old(rx[..]), old(tx[..]), rx.Length))
    {
      ghost var t0, r0 := tx[..], rx[..];
      for i := 0 to tx.Length
        invariant |t0| == |r0| == tx.Length && tx[..] == Swept(t0, i) && rx[..] == Swept(r0, i)
        invariant freed == old(freed) + Collected(r0, t0, i)
        invariant retained == old(retained) && made == old(made)
      {
        var ids := DetachBoth(i, t0, r0);
        freed := freed + ids;
        CollectedStep(r0, t0, i, old(freed));
      }
    }

    /** tb_nhi_finalize_quarantined_rings() */
    method Finalize(proven: bool)
      requires Valid()
      modifies this, tx, rx
      ensures !proven ==> Now() == old(Now())
      ensures proven ==>
                Now() == Drained(old(Now())).(freed := old(freed) + Collected(old(rx[..]), old(tx[..]), rx.Length))
    {
      if !proven {
        return;
      }
      Reclaim();
    }

    /** tb_nhi_abandon_quarantined_rings(): detached from the table, memory kept. */
    method Abandon()
      requires Valid()
      modifies this, tx, rx
      ensures Now() == Drained(old(Now())).(retained := old(retained) + Collected(old(rx[..]), old(tx[..]), rx.Length))
    {
      ghost var t0, r0 := tx[..], rx[..];
      for i := 0 to tx.Length
        invariant |t0| == |r0| == tx.Length && tx[..] == Swept(t0, i) && rx[..] == Swept(r0, i)
        invariant retained == old(retained) + Collected(r0, t0, i)
        invariant freed == old(freed) && made == old(made)
      {
        var ids := DetachBoth(i, t0, r0);
        retained := retained + ids;
        CollectedStep(r0, t0, i, old(retained));
      }
    }

    /** Free what a proven reset allows, then abandon what is still quarantined. */
    method Retire(proven: bool)
      requires Valid()
      modifies this, tx, rx
      ensures var ids := Collected(old(rx[..]), old(tx[..]), rx.Length);
              Now() == if proven then Drained(old(Now())).(freed := old(freed) + ids)
                       else Drained(old(Now())).(retained := old(retained) + ids)
    {
      ghost var was := Now();
      Finalize(proven);
      if !proven {
        var quarantined := HasQuarantined();
        if quarantined {
          Abandon();
        } else {
          NothingToTake(was);
        }
      }
    }

    /**
     __tb_domain_remove() with tb_domain_terminal_reset(). `stopErr` comes from the
     connection manager, the other parameters from the hardware.
     */
    method Remove(stopErr: int, version: nat, goneAtStart: bool, polls: seq<Poll>) returns (asked: bool, err: int)
      requires Valid() && polls != []
      modifies this, tx, rx
      ensures Valid()
      ensures asked == Unresolved(old(Now()), stopErr)
      ensures !asked ==> err == 0
      ensures Now() == Removed(old(Now()), stopErr, err)
      ensures !AnyQuarantined(tx[..]) && !AnyQuarantined(rx[..])
      ensures asked ==> (err == 0 <==>
                && !goneAtStart && version >= 2
                && exists k | 0 <= k < |polls| :: !polls[k].busy && forall j | 0 <= j <= k :: !polls[j].goingAway)
    {
      ghost var was := Now();
      var quarantined := HasQuarantined();
      asked := stopErr != 0 || quarantined;
      err := 0;
      var proven := false;
      if asked {
        err := Reset(version, goneAtStart, true, true, polls);
        proven := err == 0;
      }
      Retire(proven);
      assert Now() == Removed(was, stopErr, err);
    }
  }

  /** Before any ring is allocated every ring is accounted for. */
  lemma {:induction false} NoRings(t: seq<Slot>, id: nat)
    requires forall i | 0 <= i < |t| :: t[i].Vacant?
    ensures Count(t, id) == 0
  {
    if t != [] {
      NoRings(t[..|t| - 1], id);
    }
  }

  lemma CollectedStep(rx: seq<Slot>, tx: seq<Slot>, n: nat, log: seq<nat>)
    requires n < |rx| && n < |tx|
    ensures log + Collected(rx, tx, n) + (Take(rx[n]) + Take(tx[n])) == log + Collected(rx, tx, n + 1)
  {
  }

  lemma {:induction false} NothingCollected(rx: seq<Slot>, tx: seq<Slot>, n: nat)
    requires n <= |rx| && n <= |tx| && !AnyQuarantined(rx) && !AnyQuarantined(tx)
    ensures Collected(rx, tx, n) == []
  {
    if n > 0 {
      NothingCollected(rx, tx, n - 1);
    }
  }

  lemma NothingToTake(s: Tables)
    requires Matched(s) && !AnyQuarantined(s.tx) && !AnyQuarantined(s.rx)
    ensures Drained(s).(retained := s.retained + Collected(s.rx, s.tx, |s.rx|)) == s
  {
    NothingCollected(s.rx, s.tx, |s.rx|);
    assert Swept(s.tx, |s.tx|) == s.tx && Swept(s.rx, |s.rx|) == s.rx;
  }
}
