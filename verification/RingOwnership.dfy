/**
 Who owns a ring's descriptor memory (nhi.c, domain.c): the HopID tables of the
 host interface, the quarantine that a leaf hands a ring over with, and the
 single reset that decides at domain removal whether memory may be reused.
 */
module RingOwnership {
  const EINVAL := 22
  const EBUSY := 16
  const FIRST_USABLE_HOPID := 1

  /** One entry of tx_rings or rx_rings. */
  datatype Slot = Vacant | Held(ring: nat, quarantined: bool)

  /** `freed` and `retained` record the rings whose memory was returned or deliberately kept. */
  datatype Tables = Tables(tx: seq<Slot>, rx: seq<Slot>, freed: seq<nat>, retained: seq<nat>, made: nat)

  predicate IsQuarantined(s: Slot) {
    s.Held? && s.quarantined
  }

  predicate AnyQuarantined(t: seq<Slot>) {
    exists i | 0 <= i < |t| :: IsQuarantined(t[i])
  }

  function Side(s: Tables, isTx: bool): (t: seq<Slot>) {
    if isTx then s.tx else s.rx
  }

  function SetSide(s: Tables, isTx: bool, t: seq<Slot>): (r: Tables) {
    if isTx then s.(tx := t) else s.(rx := t)
  }

  // ----- what leaves do before removal

  /** The lowest vacant HopID from `start`, or the table's length. */
  function FirstVacant(t: seq<Slot>, start: nat): (h: nat)
    ensures start <= h && (h < |t| ==> t[h].Vacant?) && forall i | start <= i < h && i < |t| :: t[i].Held?
    decreases |t| - start
  {
    if start >= |t| || t[start].Vacant? then start else FirstVacant(t, start + 1)
  }

  /** The HopID a request for `hop` gets: nhi_alloc_hop(). A negative `hop` asks for any. */
  function Granted(t: seq<Slot>, hop: int, start: nat): (h: int)
    ensures 0 <= h ==> h < |t| && t[h].Vacant?
    ensures h >= 0 || h == -EINVAL || h == -EBUSY
    ensures h >= 0 && hop >= 0 ==> h == hop
    ensures h >= 0 && hop < 0 ==> start <= h && forall i | start <= i < h :: t[i].Held?
    ensures h < 0 && hop < 0 ==> h == -EINVAL && forall i | start <= i < |t| :: t[i].Held?
    ensures h == -EBUSY ==> 0 <= hop < |t| && t[hop].Held?
  {
    var h := if hop < 0 then FirstVacant(t, start) else hop;
    if h >= |t| || (0 < h < start) then -EINVAL
    else if !t[h].Vacant? then -EBUSY
    else h
  }

  datatype Op =
    | Allocate(isTx: bool, hop: int, e2eQuirk: bool)
    | Free(isTx: bool, slot: nat)
    | Quarantine(isTx: bool, slot: nat)

  function StartHop(e2eQuirk: bool): (h: nat) {
    if e2eQuirk then FIRST_USABLE_HOPID + 1 else FIRST_USABLE_HOPID
  }

  /** tb_ring_free() frees any ring it is given, quarantined or not. */
  function Step(s: Tables, op: Op): (r: Tables) {
    var t := Side(s, op.isTx);
    match op
    case Allocate(isTx, hop, e2eQuirk) =>
      var h := Granted(t, hop, StartHop(e2eQuirk));
      if h < 0 then s
      else SetSide(s, isTx, t[h := Held(s.made, false)]).(made := s.made + 1)
    case Free(isTx, slot) =>
      if slot < |t| && t[slot].Held?
      then SetSide(s, isTx, t[slot := Vacant]).(freed := s.freed + [t[slot].ring])
      else s
    case Quarantine(isTx, slot) =>
      if slot < |t| && t[slot].Held? then SetSide(s, isTx, t[slot := t[slot].(quarantined := true)]) else s
  }

  function Run(s: Tables, ops: seq<Op>): (r: Tables) {
    if ops == [] then s else Step(Run(s, ops[..|ops| - 1]), ops[|ops| - 1])
  }

  // ----- removal

  /** `t` with its quarantined rings taken out of the first `n` slots. */
  function Swept(t: seq<Slot>, n: nat): (r: seq<Slot>)
    ensures |r| == |t|
    ensures forall i | 0 <= i < |t| :: r[i] == if i < n && IsQuarantined(t[i]) then Vacant else t[i]
  {
    seq(|t|, i requires 0 <= i < |t| => if i < n && IsQuarantined(t[i]) then Vacant else t[i])
  }

  function Take(s: Slot): (ids: seq<nat>) {
    if IsQuarantined(s) then [s.ring] else []
  }

  /** The quarantined rings of the first `n` HopIDs in the order the walks meet them: receive first. */
  function Collected(rx: seq<Slot>, tx: seq<Slot>, n: nat): (ids: seq<nat>)
    requires n <= |rx| && n <= |tx|
  {
    if n == 0 then [] else Collected(rx, tx, n - 1) + Take(rx[n - 1]) + Take(tx[n - 1])
  }

  predicate Matched(s: Tables) {
    |s.tx| == |s.rx|
  }

  function Drained(s: Tables): (r: Tables) {
    s.(tx := Swept(s.tx, |s.tx|), rx := Swept(s.rx, |s.rx|))
  }

  predicate Unresolved(s: Tables, stopErr: int) {
    stopErr != 0 || AnyQuarantined(s.tx) || AnyQuarantined(s.rx)
  }

  /** __tb_domain_remove() from its sampling of the quarantined rings on, for a reset that returns `resetErr`. */
  function Removed(s: Tables, stopErr: int, resetErr: int): (r: Tables)
    requires Matched(s)
  {
    var ids := Collected(s.rx, s.tx, |s.rx|);
    if Unresolved(s, stopErr) && resetErr == 0 then Drained(s).(freed := s.freed + ids)
    else Drained(s).(retained := s.retained + ids)
  }

  // ----- every ring allocated is in exactly one place

  function Here(s: Slot, id: nat): (n: nat) {
    if s.Held? && s.ring == id then 1 else 0
  }

  /** How many slots of `t` hold ring `id`. */
  function Count(t: seq<Slot>, id: nat): (n: nat) {
    if t == [] then 0 else Count(t[..|t| - 1], id) + Here(t[|t| - 1], id)
  }

  /** How often `id` occurs in a record. */
  function Times(log: seq<nat>, id: nat): (n: nat)
    ensures n > 0 <==> id in log
  {
    if log == [] then 0 else Times(log[..|log| - 1], id) + if log[|log| - 1] == id then 1 else 0
  }

  function Places(s: Tables, id: nat): (n: nat) {
    Count(s.tx, id) + Count(s.rx, id) + Times(s.freed, id) + Times(s.retained, id)
  }

  /** Each ring ever allocated is in one table slot, or freed, or retained: once, and nowhere else. */
  ghost predicate Accounted(s: Tables) {
    forall id: nat :: Places(s, id) == if id < s.made then 1 else 0
  }

  lemma {:induction false} CountUpdate(t: seq<Slot>, i: nat, x: Slot, id: nat)
    requires i < |t|
    ensures Count(t[i := x], id) + Here(t[i], id) == Count(t, id) + Here(x, id)
  {
    var n := |t| - 1;
    if i == n {
      assert t[i := x][..n] == t[..n];
    } else {
      assert t[i := x][..n] == t[..n][i := x];
      CountUpdate(t[..n], i, x, id);
    }
  }

  lemma {:induction false} CountAt(t: seq<Slot>, i: nat)
    requires i < |t| && t[i].Held?
    ensures Count(t, t[i].ring) >= 1
  {
    var n := |t| - 1;
    if i < n {
      CountAt(t[..n], i);
    }
  }

  lemma {:induction false} TimesJoined(a: seq<nat>, b: seq<nat>, id: nat)
    ensures Times(a + b, id) == Times(a, id) + Times(b, id)
  {
    if b == [] {
      assert a + b == a;
    } else {
      assert (a + b)[..|a + b| - 1] == a + b[..|b| - 1];
      TimesJoined(a, b[..|b| - 1], id);
    }
  }

  /** A slot changes from `t[i]` to `x`, and the ring it loses, if any, goes to the freed ones. */
  lemma SlotChange(s: Tables, isTx: bool, i: nat, x: Slot, out: seq<nat>, id: nat)
    requires i < |Side(s, isTx)|
    ensures Places(SetSide(s, isTx, Side(s, isTx)[i := x]).(freed := s.freed + out), id) + Here(Side(s, isTx)[i], id)
            == Places(s, id) + Here(x, id) + Times(out, id)
  {
    CountUpdate(Side(s, isTx), i, x, id);
    TimesJoined(s.freed, out, id);
  }

  lemma StepPlaces(s: Tables, op: Op, id: nat)
    ensures Places(Step(s, op), id) == Places(s, id) + if Step(s, op).made > s.made && id == s.made then 1 else 0
  {
    var t := Side(s, op.isTx);
    assert s.freed + [] == s.freed;
    match op
    case Allocate(isTx, hop, e2eQuirk) =>
      var h := Granted(t, hop, StartHop(e2eQuirk));
      if h >= 0 {
        SlotChange(s, isTx, h, Held(s.made, false), [], id);
      }
    case Free(isTx, slot) =>
      if slot < |t| && t[slot].Held? {
        assert Times([t[slot].ring], id) == Here(t[slot], id);
        SlotChange(s, isTx, slot, Vacant, [t[slot].ring], id);
      }
    case Quarantine(isTx, slot) =>
      if slot < |t| && t[slot].Held? {
        SlotChange(s, isTx, slot, t[slot].(quarantined := true), [], id);
      }
  }

  lemma StepAccounted(s: Tables, op: Op)
    requires Accounted(s)
    ensures Accounted(Step(s, op))
  {
    forall id: nat ensures Places(Step(s, op), id) == if id < Step(s, op).made then 1 else 0 {
      StepPlaces(s, op, id);
      assert Places(s, id) == if id < s.made then 1 else 0;
    }
  }

  lemma {:induction false} RunAccounted(s: Tables, ops: seq<Op>)
    requires Accounted(s) && Matched(s)
    ensures Accounted(Run(s, ops)) && Matched(Run(s, ops))
    decreases ops
  {
    if ops != [] {
      RunAccounted(s, ops[..|ops| - 1]);
      StepAccounted(Run(s, ops[..|ops| - 1]), ops[|ops| - 1]);
    }
  }

  function Emptied(s: Slot): (r: Slot) {
    if IsQuarantined(s) then Vacant else s
  }

  lemma SweptStep(t: seq<Slot>, i: nat)
    requires i < |t|
    ensures Swept(t, i)[i] == t[i] && Swept(t, i + 1) == Swept(t, i)[i := Emptied(t[i])]
  {
  }

  lemma SweptOne(t: seq<Slot>, i: nat, id: nat)
    requires i < |t|
    ensures Count(Swept(t, i + 1), id) + Times(Take(t[i]), id) == Count(Swept(t, i), id)
  {
    SweptStep(t, i);
    CountUpdate(Swept(t, i), i, Emptied(t[i]), id);
    assert IsQuarantined(t[i]) ==> Times([t[i].ring], id) == Here(t[i], id);
  }

  lemma CollectedTimes(rx: seq<Slot>, tx: seq<Slot>, n: nat, id: nat)
    requires n < |rx| && n < |tx|
    ensures Times(Collected(rx, tx, n + 1), id)
            == Times(Collected(rx, tx, n), id) + Times(Take(rx[n]), id) + Times(Take(tx[n]), id)
  {
    TimesJoined(Collected(rx, tx, n) + Take(rx[n]), Take(tx[n]), id);
    TimesJoined(Collected(rx, tx, n), Take(rx[n]), id);
  }

  /** What the sweep takes out of the tables is what it collects. */
  lemma {:induction false} SweptCount(rx: seq<Slot>, tx: seq<Slot>, n: nat, id: nat)
    requires n <= |rx| && n <= |tx|
    ensures Count(Swept(rx, n), id) + Count(Swept(tx, n), id) + Times(Collected(rx, tx, n), id)
            == Count(rx, id) + Count(tx, id)
  {
    if n == 0 {
      assert Swept(rx, n) == rx && Swept(tx, n) == tx;
    } else {
      var m := n - 1;
      SweptCount(rx, tx, m, id);
      SweptOne(rx, m, id);
      SweptOne(tx, m, id);
      CollectedTimes(rx, tx, m, id);
      assert m + 1 == n;
    }
  }

  lemma {:induction false} CollectedHas(rx: seq<Slot>, tx: seq<Slot>, n: nat, i: nat)
    requires i < n <= |rx| && n <= |tx|
    ensures IsQuarantined(rx[i]) ==> rx[i].ring in Collected(rx, tx, n)
    ensures IsQuarantined(tx[i]) ==> tx[i].ring in Collected(rx, tx, n)
  {
    if i < n - 1 {
      CollectedHas(rx, tx, n - 1, i);
    }
  }

  lemma RemovedAccounted(s: Tables, stopErr: int, resetErr: int)
    requires Accounted(s) && Matched(s)
    ensures Accounted(Removed(s, stopErr, resetErr))
  {
    var r := Removed(s, stopErr, resetErr);
    var ids := Collected(s.rx, s.tx, |s.rx|);
    forall id: nat ensures Places(r, id) == if id < r.made then 1 else 0 {
      SweptCount(s.rx, s.tx, |s.rx|, id);
      TimesJoined(s.freed, ids, id);
      TimesJoined(s.retained, ids, id);
      assert Places(s, id) == if id < s.made then 1 else 0;
    }
  }

  /**
   Removal resolves every quarantined ring: none is left in a table, its memory is
   freed if and only if the reset was proven, and otherwise it is retained for good.
   Rings nobody quarantined stay where they were.
   */
  lemma RemovalDecides(s: Tables, stopErr: int, resetErr: int, isTx: bool, hop: nat)
    requires Accounted(s) && Matched(s) && hop < |Side(s, isTx)|
    ensures var r := Removed(s, stopErr, resetErr);
            var slot := Side(s, isTx)[hop];
            && !AnyQuarantined(r.tx) && !AnyQuarantined(r.rx)
            && |Side(r, isTx)| == |Side(s, isTx)|
            && (!IsQuarantined(slot) ==> Side(r, isTx)[hop] == slot)
            && (IsQuarantined(slot) ==>
                  && Side(r, isTx)[hop].Vacant?
                  && (slot.ring in r.freed <==> resetErr == 0)
                  && (slot.ring in r.retained <==> resetErr != 0))
  {
    var r := Removed(s, stopErr, resetErr);
    var slot := Side(s, isTx)[hop];
    if IsQuarantined(slot) {
      assert IsQuarantined(if isTx then s.tx[hop] else s.rx[hop]);
      assert Unresolved(s, stopErr);
      CollectedHas(s.rx, s.tx, |s.rx|, hop);
      RemovedAccounted(s, stopErr, resetErr);
      assert Places(r, slot.ring) <= 1;
      assert slot.ring in if resetErr == 0 then r.freed else r.retained;
    }
  }

  /** Memory is never freed under a ring that is still in a table, and never freed twice. */
  lemma FreedIsGone(s: Tables, ring: nat)
    requires Accounted(s) && ring in s.freed
    ensures ring !in s.retained && Times(s.freed, ring) == 1
    ensures forall i | 0 <= i < |s.tx| :: s.tx[i].Held? ==> s.tx[i].ring != ring
    ensures forall i | 0 <= i < |s.rx| :: s.rx[i].Held? ==> s.rx[i].ring != ring
  {
    assert Places(s, ring) <= 1;
    forall i | 0 <= i < |s.tx| && s.tx[i].Held? ensures s.tx[i].ring != ring {
      CountAt(s.tx, i);
    }
    forall i | 0 <= i < |s.rx| && s.rx[i].Held? ensures s.rx[i].ring != ring {
      CountAt(s.rx, i);
    }
  }

  // ----- a quarantined ring keeps its HopID

  /** Its leaf handed the ring over: it does not free slot `hop` any more. */
  predicate NoFree(ops: seq<Op>, isTx: bool, hop: nat) {
    forall i | 0 <= i < |ops| :: ops[i] != Free(isTx, hop)
  }

  lemma StepKeepsHop(s: Tables, op: Op, isTx: bool, hop: nat)
    requires hop < |Side(s, isTx)| && IsQuarantined(Side(s, isTx)[hop]) && op != Free(isTx, hop)
    ensures |Side(Step(s, op), isTx)| == |Side(s, isTx)| && Side(Step(s, op), isTx)[hop] == Side(s, isTx)[hop]
  {
  }

  lemma StepKeepsFreed(s: Tables, op: Op, ring: nat)
    requires ring in s.freed
    ensures ring in Step(s, op).freed
  {
  }

  /** What happened to a quarantined ring: still in its slot, or freed by its leaf. */
  lemma {:induction false} QuarantinedOrFreed(s: Tables, ops: seq<Op>, isTx: bool, hop: nat)
    requires hop < |Side(s, isTx)| && IsQuarantined(Side(s, isTx)[hop])
    ensures var r := Run(s, ops);
            if NoFree(ops, isTx, hop)
            then |Side(r, isTx)| == |Side(s, isTx)| && Side(r, isTx)[hop] == Side(s, isTx)[hop]
            else Side(s, isTx)[hop].ring in r.freed
    decreases ops
  {
    if ops != [] {
      var front, op := ops[..|ops| - 1], ops[|ops| - 1];
      QuarantinedOrFreed(s, front, isTx, hop);
      if NoFree(front, isTx, hop) {
        if op != Free(isTx, hop) {
          StepKeepsHop(Run(s, front), op, isTx, hop);
        }
        assert NoFree(ops, isTx, hop) <==> op != Free(isTx, hop);
      } else {
        StepKeepsFreed(Run(s, front), op, Side(s, isTx)[hop].ring);
      }
    }
  }

  /**
   Whatever else is allocated, freed or quarantined, a quarantined ring keeps its HopID
   until removal if and only if its leaf does not free it after handing it over.
   */
  lemma QuarantinedKeepsHop(s: Tables, ops: seq<Op>, isTx: bool, hop: nat)
    requires Accounted(s) && Matched(s) && hop < |Side(s, isTx)| && IsQuarantined(Side(s, isTx)[hop])
    ensures |Side(Run(s, ops), isTx)| == |Side(s, isTx)|
    ensures Side(Run(s, ops), isTx)[hop] == Side(s, isTx)[hop] <==> NoFree(ops, isTx, hop)
  {
    QuarantinedOrFreed(s, ops, isTx, hop);
    RunAccounted(s, ops);
    RunLength(s, ops, isTx);
    if !NoFree(ops, isTx, hop) {
      FreedIsGone(Run(s, ops), Side(s, isTx)[hop].ring);
    }
  }

  lemma {:induction false} RunLength(s: Tables, ops: seq<Op>, isTx: bool)
    ensures |Side(Run(s, ops), isTx)| == |Side(s, isTx)|
    decreases ops
  {
    if ops != [] {
      RunLength(s, ops[..|ops| - 1], isTx);
    }
  }
}
