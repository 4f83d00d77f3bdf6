/**
 Two-party service negotiation (thunderbolt_negotiation.h): the advertiser bumps
 a 32-bit generation when its service set changes, and the enumerator re-reads
 the directory through a gate that drops an unchanged generation.
 */
module Negotiation {
  const WRAP: nat := 0x1_0000_0000

  /** A service mask, as the set of its bits. */
  type Services = set<nat>

  /** tb_xdomain_generation_stale() */
  predicate Stale(haveRemote: bool, remoteGen: nat, cachedGen: nat) {
    haveRemote && remoteGen == cachedGen
  }

  /** tb_xdomain_services_added() */
  function Added(prev: Services, now: Services): (m: Services) {
    now - prev
  }

  /** tb_xdomain_services_removed() */
  function Gone(prev: Services, now: Services): (m: Services) {
    prev - now
  }

  /** A call of the enumerator's bind or unbind statement. */
  datatype Change = Bind(svc: Services) | Unbind(svc: Services)

  datatype Snapshot = Snapshot(gen: nat, svcs: Services)

  /** Both ends of one link: everything the advertiser published, and the enumerator's TB_XNEG_STATE. */
  datatype Link = Link(
    published: seq<Snapshot>,
    haveRemote: bool, cachedGen: nat, remote: Services, bound: Services, force: bool,
    log: seq<Change>)

  datatype Op = Advertises(svcs: Services) | Enumerates(k: nat) | Reconnects

  /** Both ends run TB_XNEG_INIT(). */
  function Connected(svcs: Services): (l: Link) {
    Link([Snapshot(1, svcs)], false, 0, {}, {}, true, [])
  }

  function Calls(prev: Services, now: Services): (c: seq<Change>) {
    (if Added(prev, now) != {} then [Bind(Added(prev, now))] else [])
    + (if Gone(prev, now) != {} then [Unbind(Gone(prev, now))] else [])
  }

  predicate Drops(l: Link, gen: nat) {
    Stale(l.haveRemote, gen, if l.force then 0 else l.cachedGen)
  }

  /** The enumerator reads the snapshot `p`: what it is bound to afterwards, if the gate lets it in, is the snapshot's set. */
  function Read(l: Link, p: Snapshot): (r: Link) {
    if Drops(l, p.gen) then l
    else l.(haveRemote := true, cachedGen := p.gen, remote := p.svcs, bound := p.svcs, force := false,
            log := l.log + Calls(l.remote, p.svcs))
  }

  /**
   Notifications may be lost, late or repeated: the enumerator may process any
   snapshot published so far, at any time.
   */
  function Step(l: Link, op: Op): (r: Link)
    requires l.published != []
    ensures |r.published| >= |l.published| && r.published[..|l.published|] == l.published
  {
    match op
    case Advertises(svcs) =>
      var last := l.published[|l.published| - 1];
      if svcs == last.svcs then l
      else l.(published := l.published + [Snapshot((last.gen + 1) % WRAP, svcs)])
    case Enumerates(k) => if k < |l.published| then Read(l, l.published[k]) else l
    case Reconnects => l.(force := true)
  }

  function Run(l: Link, ops: seq<Op>): (r: Link)
    requires l.published != []
    ensures |r.published| >= |l.published| && r.published[..|l.published|] == l.published
  {
    if ops == [] then l else Step(Run(l, ops[..|ops| - 1]), ops[|ops| - 1])
  }

  // ----- invariants of every run

  /** The enumerator's cache is one of the snapshots published. */
  predicate CacheFrom(l: Link, k: nat) {
    k < |l.published| && l.published[k] == Snapshot(l.cachedGen, l.remote)
  }

  ghost predicate Inv(l: Link) {
    && l.published != []
    && (forall i | 0 <= i < |l.published| :: l.published[i].gen == (i + 1) % WRAP)
    && l.bound == l.remote
    && (!l.haveRemote ==> l.remote == {})
    && (l.haveRemote ==> exists k: nat :: CacheFrom(l, k))
  }

  lemma StepInv(l: Link, op: Op)
    requires Inv(l)
    ensures Inv(Step(l, op))
  {
    var r := Step(l, op);
    match op
    case Advertises(svcs) =>
      if l.haveRemote {
        var k: nat :| CacheFrom(l, k);
        assert CacheFrom(r, k);
      }
    case Enumerates(k) =>
      if k < |l.published| && !Drops(l, l.published[k].gen) {
        assert CacheFrom(r, k);
      } else if l.haveRemote {
        assert r == l;
      }
    case Reconnects =>
      if l.haveRemote {
        var k: nat :| CacheFrom(l, k);
        assert CacheFrom(r, k);
      }
  }

  lemma {:induction false} RunInv(l: Link, ops: seq<Op>)
    requires Inv(l)
    ensures Inv(Run(l, ops))
    decreases ops
  {
    if ops != [] {
      RunInv(l, ops[..|ops| - 1]);
      StepInv(Run(l, ops[..|ops| - 1]), ops[|ops| - 1]);
    }
  }

  /** Fewer publications than generations: generation 0 is never used and none is used twice. */
  predicate NoWrap(l: Link) {
    |l.published| < WRAP
  }

  lemma GenerationsDiffer(l: Link, i: nat, j: nat)
    requires Inv(l) && NoWrap(l) && i < |l.published| && j < |l.published|
    ensures l.published[i].gen != 0 && (l.published[i].gen == l.published[j].gen ==> i == j)
  {
    assert (i + 1) % WRAP == i + 1 && (j + 1) % WRAP == j + 1;
  }

  /** Reading any published snapshot leaves exactly its services bound, even when the gate drops the read. */
  lemma ReadConverges(l: Link, k: nat)
    requires Inv(l) && NoWrap(l) && k < |l.published|
    ensures Read(l, l.published[k]).bound == l.published[k].svcs
  {
    if Drops(l, l.published[k].gen) {
      var j: nat :| CacheFrom(l, j);
      GenerationsDiffer(l, k, j);
    }
  }

  /** So in every session without generation wrap, whatever was lost, late or repeated before. */
  lemma Converges(start: Link, ops: seq<Op>, k: nat)
    requires Inv(start) && NoWrap(Run(start, ops)) && k < |Run(start, ops).published|
    ensures Step(Run(start, ops), Enumerates(k)).bound == Run(start, ops).published[k].svcs
  {
    RunInv(start, ops);
    ReadConverges(Run(start, ops), k);
  }

  lemma ConnectedInv(svcs: Services)
    ensures Inv(Connected(svcs))
  {
  }

  /**
   After a reconnect the next read is let in, whatever was cached, if and only if its
   generation is not 0 or nothing was ever read; a read that is dropped keeps the gate open.
   */
  lemma ReconnectReopens(l: Link, k: nat)
    requires k < |l.published|
    ensures var open, p := Step(l, Reconnects), l.published[k];
            var r := Step(open, Enumerates(k));
            if p.gen != 0 || !l.haveRemote then
              r.bound == p.svcs && r.cachedGen == p.gen && r.haveRemote && !r.force
            else r == open && r.force
  {
  }

  /**
   Without the bound on publications: the read of snapshot `k` binds its set if and
   only if the gate lets it in or the set cached under the same generation is equal.
   The gate drops it exactly when its place in the publication order is a whole number
   of wraps away from the cached one, or, after a reconnect, when it carries generation 0.
   */
  lemma ConvergesExactly(l: Link, k: nat, j: nat)
    requires Inv(l) && k < |l.published| && l.haveRemote && CacheFrom(l, j)
    ensures Drops(l, l.published[k].gen) <==> if l.force then (k + 1) % WRAP == 0 else (k as int - j as int) % WRAP == 0
    ensures Step(l, Enumerates(k)).bound == l.published[k].svcs <==>
            (!Drops(l, l.published[k].gen) || l.published[k].svcs == l.published[j].svcs)
  {
    SameResidue(k + 1, j + 1);
  }

  lemma SameResidue(a: int, b: int)
    ensures a % WRAP == b % WRAP <==> (a - b) % WRAP == 0
  {
  }

  /**
   A peer that restarts publishes generation 1 again. Its new set gets bound
   exactly when the enumerator reconnects first, never read it, last read another
   generation, or already holds that set.
   */
  lemma RestartExactly(svcs: Services, ops: seq<Op>, now: Services)
    ensures var l := Run(Connected(svcs), ops);
            Read(l, Snapshot(1, now)).bound == now <==>
              (l.force || !l.haveRemote || l.cachedGen != 1 || l.remote == now)
  {
    RunInv(Connected(svcs), ops);
  }

  lemma RestartStrands(before: Services, now: Services)
    requires before != now
    ensures Read(Step(Connected(before), Enumerates(0)), Snapshot(1, now)).bound == before
  {
  }

  // ----- binds and unbinds alternate

  predicate Touches(c: Change, bit: nat) {
    bit in c.svc
  }

  /** Whether the calls so far leave the service of `bit` bound. */
  predicate BoundBy(log: seq<Change>, bit: nat) {
    if log == [] then false
    else if Touches(log[|log| - 1], bit) then log[|log| - 1].Bind?
    else BoundBy(log[..|log| - 1], bit)
  }

  /** Each call that names the service changes whether it is bound: the calls for it alternate, a bind first. */
  predicate Alternates(log: seq<Change>, bit: nat) {
    log != [] ==>
      && Alternates(log[..|log| - 1], bit)
      && (Touches(log[|log| - 1], bit) ==> log[|log| - 1].Bind? != BoundBy(log[..|log| - 1], bit))
  }

  predicate LogOk(l: Link, bit: nat) {
    Alternates(l.log, bit) && (BoundBy(l.log, bit) <==> bit in l.remote)
  }

  lemma LogAppend(log: seq<Change>, c: Change, bit: nat)
    requires Alternates(log, bit) && (Touches(c, bit) ==> c.Bind? != BoundBy(log, bit))
    ensures Alternates(log + [c], bit)
    ensures BoundBy(log + [c], bit) == if Touches(c, bit) then c.Bind? else BoundBy(log, bit)
  {
    assert (log + [c])[..|log|] == log;
  }

  lemma CallsOk(log: seq<Change>, prev: Services, now: Services, bit: nat)
    requires Alternates(log, bit) && (BoundBy(log, bit) <==> bit in prev)
    ensures Alternates(log + Calls(prev, now), bit)
    ensures BoundBy(log + Calls(prev, now), bit) <==> bit in now
  {
    var a, d := Added(prev, now), Gone(prev, now);
    var mid := if a != {} then log + [Bind(a)] else log;
    if a != {} {
      LogAppend(log, Bind(a), bit);
    }
    assert (bit in now && bit !in prev ==> bit in a) && (bit in prev && bit !in now ==> bit in d);
    if d != {} {
      LogAppend(mid, Unbind(d), bit);
      assert log + Calls(prev, now) == mid + [Unbind(d)];
    } else {
      assert log + Calls(prev, now) == mid;
    }
  }

  lemma {:induction false} CallsAlternate(svcs: Services, ops: seq<Op>, bit: nat)
    ensures LogOk(Run(Connected(svcs), ops), bit)
    decreases ops
  {
    if ops != [] {
      var front, op := ops[..|ops| - 1], ops[|ops| - 1];
      CallsAlternate(svcs, front, bit);
      var l := Run(Connected(svcs), front);
      if op.Enumerates? && op.k < |l.published| {
        CallsOk(l.log, l.remote, l.published[op.k].svcs, bit);
      }
    }
  }

  // ----- the macros, in the driver's own form

  class XNeg {
    var haveRemote: bool
    var cachedGen: nat
    var remote: Services
    var bound: Services
    var local: Services
    var localGen: nat
    var force: bool
    var log: seq<Change>

    /** This end as the enumerator of a peer that published `published`. */
    ghost function Enumerator(published: seq<Snapshot>): (l: Link)
      reads this
    {
      Link(published, haveRemote, cachedGen, remote, bound, force, log)
    }

    /** TB_XNEG_INIT() */
    constructor (services: Services)
      ensures local == services && localGen == 1
      ensures forall s: Services :: Enumerator([Snapshot(1, s)]) == Connected(s)
    {
      haveRemote, cachedGen, remote, bound := false, 0, {}, {};
      local, localGen, force, log := services, 1, true, [];
    }

    /** TB_XNEG_RECONNECT() */
    method Reconnect()
      modifies `force
      ensures force
    {
      force := true;
    }

    /** TB_XNEG_ADVERTISE(): `published` ends with what this end has on offer. */
    method Advertise(services: Services, ghost published: seq<Snapshot>)
      requires published != [] && published[|published| - 1] == Snapshot(localGen, local)
      modifies `local, `localGen
      ensures local == services
      ensures Step(Enumerator(published), Advertises(services)).published ==
              if services == old(local) then published else published + [Snapshot(localGen, local)]
      ensures localGen == if services == old(local) then old(localGen) else (old(localGen) + 1) % 0x1_0000_0000
    {
      if local != services {
        local := services;
        localGen := (localGen + 1) % WRAP;
      }
    }

    /** TB_XNEG_ENUMERATE(): the masks bind and unbind what the gate let in, and no more. */
    method Enumerate(peerGen: nat, peerSvcs: Services)
      requires bound == remote
      modifies this
      ensures forall p: seq<Snapshot> :: Enumerator(p) == Read(old(Enumerator(p)), Snapshot(peerGen, peerSvcs))
      ensures bound == remote && local == old(local) && localGen == old(localGen)
    {
      var cached := if force then 0 else cachedGen;
      if !Stale(haveRemote, peerGen, cached) {
        var add := Added(remote, peerSvcs);
        var del := Gone(remote, peerSvcs);
        ghost var prev := remote;
        haveRemote, cachedGen, remote, force := true, peerGen, peerSvcs, false;
        if add != {} {
          bound := bound + add;
          log := log + [Bind(add)];
        }
        if del != {} {
          bound := bound - del;
          log := log + [Unbind(del)];
        }
        MasksReach(prev, peerSvcs);
        assert log == old(log) + Calls(prev, peerSvcs);
      }
    }
  }

  lemma MasksReach(prev: Services, now: Services)
    ensures (prev + Added(prev, now)) - Gone(prev, now) == now
    ensures Added(prev, now) == {} ==> prev - Gone(prev, now) == now
    ensures Gone(prev, now) == {} ==> prev + Added(prev, now) == now
    ensures Added(prev, now) == {} && Gone(prev, now) == {} ==> prev == now
  {
    forall x ensures x in now <==> x in (prev + Added(prev, now)) - Gone(prev, now) {
      assert x in now && x !in prev ==> x in Added(prev, now);
    }
  }

  /** One act of a session: `wire` holds what the advertiser has published so far. */
  method Act(adv: XNeg, enu: XNeg, wire: seq<Snapshot>, op: Op) returns (now: seq<Snapshot>)
    requires adv != enu && enu.bound == enu.remote
    requires wire != [] && wire[|wire| - 1] == Snapshot(adv.localGen, adv.local)
    modifies adv, enu
    ensures enu.bound == enu.remote && enu.Enumerator(now) == Step(old(enu.Enumerator(wire)), op)
    ensures now != [] && now[|now| - 1] == Snapshot(adv.localGen, adv.local)
    ensures adv.local == if op.Advertises? then op.svcs else old(adv.local)
  {
    now := wire;
    match op
    case Advertises(svcs) =>
      var news := svcs != adv.local;
      adv.Advertise(svcs, wire);
      if news {
        now := wire + [Snapshot(adv.localGen, adv.local)];
      }
    case Enumerates(k) =>
      if k < |wire| {
        enu.Enumerate(wire[k].gen, wire[k].svcs);
      }
    case Reconnects =>
      enu.Reconnect();
  }

  /** What the advertiser was last told to offer. */
  function LastOffer(services: Services, ops: seq<Op>): (s: Services) {
    if ops == [] then services
    else if ops[|ops| - 1].Advertises? then ops[|ops| - 1].svcs
    else LastOffer(services, ops[..|ops| - 1])
  }

  /** One session between two drivers. If its last act reads the newest snapshot, the enumerator is bound to what is on offer. */
  method Session(services: Services, ops: seq<Op>) returns (adv: XNeg, enu: XNeg, wire: seq<Snapshot>)
    ensures fresh(adv) && fresh(enu)
    ensures enu.Enumerator(wire) == Run(Connected(services), ops)
    ensures wire != [] && wire[|wire| - 1].svcs == adv.local == LastOffer(services, ops)
    ensures ops != [] && ops[|ops| - 1] == Enumerates(|wire| - 1) && |wire| < WRAP ==> enu.bound == adv.local
  {
    adv := new XNeg(services);
    enu := new XNeg({});
    wire := [Snapshot(1, services)];
    for i := 0 to |ops|
      invariant fresh(adv) && fresh(enu) && adv != enu
      invariant enu.Enumerator(wire) == Run(Connected(services), ops[..i])
      invariant enu.bound == enu.remote
      invariant wire != [] && wire[|wire| - 1] == Snapshot(adv.localGen, adv.local)
      invariant adv.local == LastOffer(services, ops[..i])
    {
      assert ops[..i + 1][..i] == ops[..i];
      wire := Act(adv, enu, wire, ops[i]);
    }
    assert ops[..|ops|] == ops;
    if ops != [] && ops[|ops| - 1] == Enumerates(|wire| - 1) && |wire| < WRAP {
      ConnectedInv(services);
      LastRead(Connected(services), ops, wire);
    }
  }

  lemma LastRead(start: Link, ops: seq<Op>, wire: seq<Snapshot>)
    requires Inv(start) && wire != [] && wire == Run(start, ops).published && |wire| < WRAP
    requires ops != [] && ops[|ops| - 1] == Enumerates(|wire| - 1)
    ensures Run(start, ops).bound == wire[|wire| - 1].svcs
  {
    Converges(start, ops[..|ops| - 1], |wire| - 1);
  }
}
