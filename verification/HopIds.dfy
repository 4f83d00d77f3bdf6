/**
 HopID ownership of paths (path.c, switch.c): allocation from the in and out
 ranges of a port, path discovery from the hop tables, path allocation along
 the tree, and release.
 */
module HopIds {
  import opened Topology

  const TB_PATH_MIN_HOPID := 8
  const ENOSPC := 28

  /** One HopID taken from the in or the out allocator of a port. */
  datatype HopId = HopId(port: Port, isIn: bool, id: nat)

  datatype Limits = Limits(isNhi: bool, maxIn: int, maxOut: int)

  /** An entry of a port's path config space. */
  datatype HopRegs = HopRegs(enable: bool, outPort: nat, nextHop: nat)

  datatype PathHop = PathHop(inPort: Port, inHop: nat, outPort: Port, nextHop: nat)

  function IdsOfHop(h: PathHop): (s: set<HopId>) {
    {HopId(h.inPort, true, h.inHop), HopId(h.outPort, false, h.nextHop)}
  }

  /** Every HopID a path holds. */
  function IdsOf(hops: seq<PathHop>): (s: set<HopId>) {
    if hops == [] then {} else IdsOf(hops[..|hops| - 1]) + IdsOfHop(hops[|hops| - 1])
  }

  type HopTable = map<(Port, nat), HopRegs>
  type Remotes = map<Port, Port>

  /** Each hop leads over a link into the next one, under the HopID it was sent with. */
  predicate Linked(remote: Remotes, hops: seq<PathHop>) {
    forall i | 0 <= i < |hops| - 1 ::
      && hops[i].outPort in remote
      && remote[hops[i].outPort] == hops[i + 1].inPort
      && hops[i].nextHop == hops[i + 1].inHop
  }

  /** Entries that are missing read as disabled. */
  function Entry(table: HopTable, port: Port, hop: nat): (regs: HopRegs) {
    if (port, hop) in table then table[(port, hop)] else HopRegs(false, 0, 0)
  }

  /** The hops that the enabled entries describe, from `port` and `hop` on, at most `n` of them. */
  function Described(remote: Remotes, table: HopTable, port: Port, hop: nat, n: nat): (hops: seq<PathHop>)
    ensures |hops| <= n
    decreases n
  {
    var regs := Entry(table, port, hop);
    if n == 0 || !regs.enable then []
    else
      var out := Port(port.sw, regs.outPort);
      var first := PathHop(port, hop, out, regs.nextHop);
      if out in remote then [first] + Described(remote, table, remote[out], regs.nextHop, n - 1) else [first]
  }

  /** What the hop tables describe is a linked path. */
  lemma {:induction false} DescribedLinked(remote: Remotes, table: HopTable, port: Port, hop: nat, n: nat)
    ensures Linked(remote, Described(remote, table, port, hop, n))
    decreases n
  {
    var regs := Entry(table, port, hop);
    var out := Port(port.sw, regs.outPort);
    if n > 0 && regs.enable && out in remote {
      DescribedLinked(remote, table, remote[out], regs.nextHop, n - 1);
      var rest := Described(remote, table, remote[out], regs.nextHop, n - 1);
      assert rest != [] ==> rest[0].inPort == remote[out] && rest[0].inHop == regs.nextHop;
    }
  }

  /** The hops of `n` entries read in turn, whether enabled or not; fewer if a link is missing on the way. */
  function Traced(remote: Remotes, table: HopTable, port: Port, hop: nat, n: nat): (hops: seq<PathHop>)
    ensures |hops| <= n
    decreases n
  {
    if n == 0 then []
    else
      var regs := Entry(table, port, hop);
      var out := Port(port.sw, regs.outPort);
      var first := PathHop(port, hop, out, regs.nextHop);
      if out in remote then [first] + Traced(remote, table, remote[out], regs.nextHop, n - 1) else [first]
  }

  lemma TracedStep(remote: Remotes, table: HopTable, port: Port, hop: nat, n: nat, all: seq<PathHop>, i: nat)
    requires n > 0 && i <= |all| && all[i..] == Traced(remote, table, port, hop, n)
    ensures i < |all|
    ensures var regs := Entry(table, port, hop);
            var out := Port(port.sw, regs.outPort);
            && all[i] == PathHop(port, hop, out, regs.nextHop)
            && all[i + 1..] == if out in remote then Traced(remote, table, remote[out], regs.nextHop, n - 1) else []
  {
    var rest := all[i..];
    assert rest[0] == all[i] && rest[1..] == all[i + 1..];
  }

  lemma {:induction false} TracedLinked(remote: Remotes, table: HopTable, port: Port, hop: nat, n: nat)
    ensures Linked(remote, Traced(remote, table, port, hop, n))
    decreases n
  {
    var regs := Entry(table, port, hop);
    var out := Port(port.sw, regs.outPort);
    if n > 0 && out in remote {
      TracedLinked(remote, table, remote[out], regs.nextHop, n - 1);
      var rest := Traced(remote, table, remote[out], regs.nextHop, n - 1);
      assert rest != [] ==> rest[0].inPort == remote[out] && rest[0].inHop == regs.nextHop;
    }
  }

  /** Tracing as many entries as a table describes gives what it describes. */
  lemma {:induction false} TracedDescribed(remote: Remotes, table: HopTable, port: Port, hop: nat, n: nat)
    ensures var d := Described(remote, table, port, hop, n); Traced(remote, table, port, hop, |d|) == d
    decreases n
  {
    var regs := Entry(table, port, hop);
    var out := Port(port.sw, regs.outPort);
    if n > 0 && regs.enable && out in remote {
      TracedDescribed(remote, table, remote[out], regs.nextHop, n - 1);
    }
  }

  /** Where a complete path of at most `n` enabled entries ends: its last port, and the HopID there. */
  function EndOf(remote: Remotes, table: HopTable, port: Port, hop: nat, n: nat): (e: Option<(Port, nat)>)
    decreases n
  {
    var regs := Entry(table, port, hop);
    var out := Port(port.sw, regs.outPort);
    if n == 0 || !regs.enable then None
    else if out in remote && n > 1 then EndOf(remote, table, remote[out], regs.nextHop, n - 1)
    else Some((out, regs.nextHop))
  }

  /** A complete path is described in full: its last hop leaves by that port, under that HopID. */
  lemma {:induction false} EndIsLast(remote: Remotes, table: HopTable, port: Port, hop: nat, n: nat)
    requires EndOf(remote, table, port, hop, n).Some?
    ensures var d, e := Described(remote, table, port, hop, n), EndOf(remote, table, port, hop, n).value;
            d != [] && d[|d| - 1].outPort == e.0 && d[|d| - 1].nextHop == e.1
    decreases n
  {
    var regs := Entry(table, port, hop);
    var out := Port(port.sw, regs.outPort);
    if out in remote && n > 1 {
      EndIsLast(remote, table, remote[out], regs.nextHop, n - 1);
    }
  }

  /** `now` is `before` plus the HopIDs of the path, none of which was taken before. */
  predicate Holds(before: set<HopId>, now: set<HopId>, hops: seq<PathHop>) {
    IdsOf(hops) !! before && now == before + IdsOf(hops)
  }

  lemma HoldsStep(before: set<HopId>, hops: seq<PathHop>, h: PathHop)
    ensures IdsOf(hops + [h]) == IdsOf(hops) + IdsOfHop(h)
    ensures IdsOf(hops) !! before && IdsOfHop(h) !! before + IdsOf(hops) ==>
              Holds(before, before + IdsOf(hops) + IdsOfHop(h), hops + [h])
  {
    assert (hops + [h])[..|hops|] == hops;
  }

  /** What a path discovered with `alloc` owns; without it, nothing. */
  predicate Owns(before: set<HopId>, now: set<HopId>, hops: seq<PathHop>, alloc: bool) {
    if alloc then Holds(before, now, hops) else now == before
  }

  lemma OwnsStep(before: set<HopId>, now: set<HopId>, hops: seq<PathHop>, h: PathHop, next: set<HopId>, alloc: bool)
    requires Owns(before, now, hops, alloc)
    requires if alloc then IdsOfHop(h) !! now && next == now + IdsOfHop(h) else next == now
    ensures Owns(before, next, hops + [h], alloc)
  {
    HoldsStep(before, hops, h);
  }

  lemma OwnsFreed(before: set<HopId>, now: set<HopId>, hops: seq<PathHop>)
    requires Holds(before, now, hops)
    ensures now - IdsOf(hops) == before
  {
  }

  class Domain {
    const remote: Remotes
    const limits: map<Port, Limits>
    /** Path config space. */
    const table: HopTable
    /** The bound on the hops of a discovered path: TB_PATH_MAX_HOPS. */
    const maxHops: nat
    var taken: set<HopId>

    constructor (remote: Remotes, limits: map<Port, Limits>, table: HopTable, taken: set<HopId>)
      ensures this.remote == remote && this.limits == limits && this.table == table && this.taken == taken
      ensures maxHops == TB_PATH_MAX_HOPS
    {
      this.remote, this.limits, this.table, this.taken := remote, limits, table, taken;
      maxHops := TB_PATH_MAX_HOPS;
    }

    /** Links and hop entries lead to ports that exist. */
    ghost predicate Valid() {
      (forall p | p in remote :: remote[p] in limits) && PortsExist(table)
    }

    ghost predicate PortsExist(t: HopTable) {
      forall p, h: nat | p in limits :: Port(p.sw, Entry(t, p, h).outPort) in limits
    }

    /** The range tb_port_alloc_hopid() passes to the allocator. */
    function RangeMin(port: Port, minHopId: int): (m: int)
      requires port in limits
    {
      if !limits[port].isNhi && minHopId < TB_PATH_MIN_HOPID then TB_PATH_MIN_HOPID else minHopId
    }

    function RangeMax(port: Port, isIn: bool, maxHopId: int): (m: int)
      requires port in limits
    {
      var portMax := if isIn then limits[port].maxIn else limits[port].maxOut;
      if maxHopId < 0 || maxHopId > portMax then portMax else maxHopId
    }

    /** tb_port_alloc_hopid() over ida_alloc_range(): the lowest free HopID in range. */
    method AllocHopId(port: Port, isIn: bool, minHopId: int, maxHopId: int) returns (ret: int)
      requires port in limits
      modifies this
      ensures ret >= 0 ==> RangeMin(port, minHopId) <= ret <= RangeMax(port, isIn, maxHopId)
      ensures ret >= 0 ==> 0 <= minHopId <= ret || (ret >= 8 && !limits[port].isNhi)
      ensures ret >= 0 ==> (ret >= 8 || limits[port].isNhi) && ret <= if isIn then limits[port].maxIn else limits[port].maxOut
      ensures ret >= 0 ==> HopId(port, isIn, ret) !in old(taken) && taken == old(taken) + {HopId(port, isIn, ret)}
      ensures ret >= 0 ==> forall id: nat | RangeMin(port, minHopId) <= id < ret :: HopId(port, isIn, id) in old(taken)
      ensures ret < 0 ==> taken == old(taken)
      ensures ret < 0 && RangeMin(port, minHopId) >= 0 ==>
                forall id: nat | RangeMin(port, minHopId) <= id <= RangeMax(port, isIn, maxHopId) ::
                  HopId(port, isIn, id) in old(taken)
    {
      var min := RangeMin(port, minHopId);
      var max := RangeMax(port, isIn, maxHopId);
      if min < 0 {
        return -ENOSPC;
      }
      var id := min;
      while id <= max
        invariant min <= id
        invariant forall k: nat | min <= k < id :: HopId(port, isIn, k) in taken
        decreases max - id
      {
        if HopId(port, isIn, id) !in taken {
          taken := taken + {HopId(port, isIn, id)};
          return id;
        }
        id := id + 1;
      }
      return -ENOSPC;
    }

    /** HopID `id` itself can be taken from the port. */
    predicate CanTake(held: set<HopId>, port: Port, isIn: bool, id: nat)
      requires port in limits
    {
      && HopId(port, isIn, id) !in held
      && (limits[port].isNhi || id >= TB_PATH_MIN_HOPID)
      && id <= if isIn then limits[port].maxIn else limits[port].maxOut
    }

    /** Allocation with equal bounds takes exactly that HopID, or fails. */
    method TakeHopId(port: Port, isIn: bool, id: nat) returns (ok: bool)
      requires port in limits
      modifies this
      ensures ok <==> CanTake(old(taken), port, isIn, id)
      ensures taken == if ok then old(taken) + {HopId(port, isIn, id)} else old(taken)
    {
      var r := AllocHopId(port, isIn, id, id);
      ok := r >= 0;
    }

    /** tb_port_release_in_hopid() and tb_port_release_out_hopid() */
    method Release(port: Port, isIn: bool, id: nat)
      modifies this
      ensures taken == old(taken) - {HopId(port, isIn, id)}
    {
      taken := taken - {HopId(port, isIn, id)};
    }

    /** tb_path_free() of a path that holds its HopIDs. */
    method FreePath(hops: seq<PathHop>)
      modifies this
      ensures taken == old(taken) - IdsOf(hops)
    {
      var i := 0;
      while i < |hops|
        invariant i <= |hops|
        invariant taken == old(taken) - IdsOf(hops[..i])
      {
        Release(hops[i].inPort, true, hops[i].inHop);
        Release(hops[i].outPort, false, hops[i].nextHop);
        assert hops[..i + 1][..i] == hops[..i];
        i := i + 1;
      }
      assert hops[..i] == hops;
    }

    /** A config-space read of a hop entry of `t`; it may fail. */
    method ReadHop(t: HopTable, port: Port, hop: nat) returns (ok: bool, regs: HopRegs)
      ensures ok ==> regs == Entry(t, port, hop)
    {
      ok := *;
      regs := if ok then Entry(t, port, hop) else HopRegs(false, 0, 0);
    }

    /** tb_path_find_dst_port(): `allRead` says that no read failed. */
    method FindDstPort(src: Port, srcHop: nat, dstHop: nat) returns (end: Option<Port>, allRead: bool)
      ensures end.Some? ==> EndOf(remote, table, src, srcHop, maxHops) == Some((end.value, dstHop))
      ensures allRead && end.None? ==>
                var e := EndOf(remote, table, src, srcHop, maxHops); e.Some? ==> e.value.1 != dstHop
    {
      var p, h, n := Some(src), srcHop, 0;
      var out: Option<Port> := None;
      while p.Some? && n < maxHops
        invariant n <= maxHops && (out.None? <==> n == 0) && (n == 0 ==> p.Some?)
        invariant EndOf(remote, table, src, srcHop, maxHops) ==
                  if p.Some? && n < maxHops then EndOf(remote, table, p.value, h, maxHops - n)
                  else if out.Some? then Some((out.value, h)) else None
        decreases maxHops - n
      {
        var ok, regs := ReadHop(table, p.value, h);
        if !ok {
          return None, false;
        }
        if !regs.enable {
          return None, true;
        }
        out := Some(Port(p.value.sw, regs.outPort));
        h := regs.nextHop;
        p := if out.value in remote then Some(remote[out.value]) else None;
        n := n + 1;
      }
      end := if out.Some? && h == dstHop then out else None;
      allRead := true;
    }

    /** tb_path_find_src_hopid(): the lowest source HopID whose path ends at `dst`, or 0. */
    method FindSrcHopId(src: Port, dst: Port, dstHop: nat) returns (id: nat, allRead: bool)
      requires src in limits
      ensures id != 0 ==>
                TB_PATH_MIN_HOPID <= id <= limits[src].maxIn && EndOf(remote, table, src, id, maxHops) == Some((dst, dstHop))
      ensures allRead ==> forall k: nat | TB_PATH_MIN_HOPID <= k <= limits[src].maxIn && (id == 0 || k < id) ::
                EndOf(remote, table, src, k, maxHops) != Some((dst, dstHop))
    {
      id, allRead := TB_PATH_MIN_HOPID, true;
      while id <= limits[src].maxIn
        invariant TB_PATH_MIN_HOPID <= id
        invariant allRead ==> forall k: nat | TB_PATH_MIN_HOPID <= k < id ::
                    EndOf(remote, table, src, k, maxHops) != Some((dst, dstHop))
        decreases limits[src].maxIn - id
      {
        var end, ok := FindDstPort(src, id, dstHop);
        allRead := allRead && ok;
        if end == Some(dst) {
          return;
        }
        id := id + 1;
      }
      id := 0;
    }

    /** Count the enabled hops; a failed read gives up. */
    method CountHops(src: Port, srcHop: nat) returns (ok: bool, n: nat)
      ensures ok ==> n == |Described(remote, table, src, srcHop, maxHops)|
    {
      n := 0;
      var p := Some(src);
      var h := srcHop;
      while p.Some? && n < maxHops
        invariant n <= maxHops
        invariant |Described(remote, table, src, srcHop, maxHops)|
                  == n + if p.Some? then |Described(remote, table, p.value, h, maxHops - n)| else 0
        decreases maxHops - n
      {
        var readOk, regs := ReadHop(table, p.value, h);
        if !readOk {
          return false, 0;
        }
        if !regs.enable {
          return true, n;
        }
        var out := Port(p.value.sw, regs.outPort);
        h := regs.nextHop;
        p := if out in remote then Some(remote[out]) else None;
        n := n + 1;
      }
      return true, n;
    }

    /** Gives the HopIDs of a path being discovered back. */
    method Abandon(hops: seq<PathHop>, alloc: bool, ghost before: set<HopId>)
      requires Owns(before, taken, hops, alloc)
      modifies this
      ensures taken == before
    {
      if alloc {
        OwnsFreed(before, taken, hops);
        FreePath(hops);
      }
    }

    /** One turn of the second pass; a failure gives up the whole path. */
    method CollectHop(p: Port, h: nat, alloc: bool, later: HopTable, hops: seq<PathHop>, ghost before: set<HopId>)
      returns (ok: bool, hop: PathHop)
      requires Valid() && PortsExist(later) && p in limits && Owns(before, taken, hops, alloc)
      modifies this
      ensures !ok ==> taken == before
      ensures ok ==> var regs := Entry(later, p, h); hop == PathHop(p, h, Port(p.sw, regs.outPort), regs.nextHop)
      ensures ok ==> Owns(before, taken, hops + [hop], alloc)
    {
      ghost var now := taken;
      ok, hop := DiscoverHop(p, h, alloc, later);
      if !ok {
        Abandon(hops, alloc, before);
        return;
      }
      OwnsStep(before, now, hops, hop, taken, alloc);
    }

    /** The second pass stands at entry `i` of the `n` it reads; `all` are the hops of that pass. */
    ghost predicate Reading(later: HopTable, all: seq<PathHop>, i: nat, n: nat, p: Port, h: nat) {
      i <= n && i <= |all| && (i < n ==> p in limits && all[i..] == Traced(remote, later, p, h, n - i))
    }

    lemma ReadingStep(later: HopTable, all: seq<PathHop>, i: nat, n: nat, p: Port, h: nat)
      requires Valid() && Reading(later, all, i, n, p, h) && i < n
      ensures i < |all| && all[..i + 1] == all[..i] + [all[i]]
      ensures var regs := Entry(later, p, h); all[i] == PathHop(p, h, Port(p.sw, regs.outPort), regs.nextHop)
      ensures if i + 1 < n && all[i].outPort in remote
              then Reading(later, all, i + 1, n, remote[all[i].outPort], all[i].nextHop)
              else Reading(later, all, n, n, p, h) || |all| < n
    {
      TracedStep(remote, later, p, h, n - i, all, i);
    }

    /** The second pass of tb_path_discover() over `n` entries of the table as it is by then. */
    method Collect(src: Port, srcHop: nat, n: nat, alloc: bool, later: HopTable)
      returns (defined: bool, found: bool, hops: seq<PathHop>)
      requires Valid() && PortsExist(later) && src in limits
      modifies this
      ensures !defined ==> |Traced(remote, later, src, srcHop, n)| < n
      ensures defined && !found ==> taken == old(taken)
      ensures defined && found ==> |hops| == n && hops == Traced(remote, later, src, srcHop, n)
      ensures defined && found ==> Owns(old(taken), taken, hops, alloc)
    {
      hops := [];
      ghost var all := Traced(remote, later, src, srcHop, n);
      var p, h := src, srcHop;
      var i := 0;
      while i < n
        invariant Reading(later, all, i, n, p, h) && hops == all[..i]
        invariant Owns(old(taken), taken, hops, alloc)
      {
        ReadingStep(later, all, i, n, p, h);
        var hopOk, hop := CollectHop(p, h, alloc, later, hops, old(taken));
        if !hopOk {
          return true, false, [];
        }
        hops := hops + [hop];
        h := hop.nextHop;
        if i + 1 < n {
          if hop.outPort !in remote {
            return false, false, hops;
          }
          p := remote[hop.outPort];
        }
        i := i + 1;
      }
      return true, true, hops;
    }

    /**
     tb_path_discover(). A negative source HopID is searched for first. A failure leaves
     every allocator as it was. Success returns exactly the path the hop tables describe,
     holding its HopIDs when `alloc` is set. The tables may change to `later` between the
     two passes: the path is then what the second pass reads, and it is `defined` unless a
     link is missing before the hops counted are found.
     */
    method Discover(src: Port, srcHopId: int, dst: Option<Port>, dstHop: nat, alloc: bool, later: HopTable)
      returns (defined: bool, found: bool, hops: seq<PathHop>, ghost start: nat)
      requires Valid() && PortsExist(later) && src in limits
      requires srcHopId >= 0 || dst.Some?
      modifies this
      ensures srcHopId >= 0 ==> start == srcHopId
      ensures !defined ==> later != table
      ensures defined && !found ==> taken == old(taken)
      ensures defined && found ==> hops == Traced(remote, later, src, start, |hops|) && Linked(remote, hops)
      ensures defined && found ==> |hops| == |Described(remote, table, src, start, maxHops)| > 0
      ensures defined && found && later == table ==> hops == Described(remote, table, src, start, maxHops)
      ensures defined && found && later == table && srcHopId < 0 ==>
                hops[|hops| - 1].outPort == dst.value && hops[|hops| - 1].nextHop == dstHop
      ensures defined && found ==> Owns(old(taken), taken, hops, alloc)
    {
      var h := 0;
      start := h;
      if srcHopId >= 0 {
        h := srcHopId;
      } else {
        var allRead;
        h, allRead := FindSrcHopId(src, dst.value, dstHop);
        if h == 0 {
          return true, false, [], h;
        }
        EndIsLast(remote, table, src, h, maxHops);
      }
      start := h;
      TracedDescribed(remote, table, src, h, maxHops);
      var ok, n := CountHops(src, h);
      if !ok || n == 0 {
        return true, false, [], h;
      }
      TracedLinked(remote, later, src, h, n);
      defined, found, hops := Collect(src, h, n, alloc, later);
    }

    /** Read one entry and, if asked to, take its HopIDs. */
    method DiscoverHop(p: Port, h: nat, alloc: bool, later: HopTable) returns (ok: bool, hop: PathHop)
      requires Valid() && PortsExist(later) && p in limits
      modifies this
      ensures !ok || !alloc ==> taken == old(taken)
      ensures ok ==> var regs := Entry(later, p, h); hop == PathHop(p, h, Port(p.sw, regs.outPort), regs.nextHop)
      ensures ok && alloc ==> IdsOfHop(hop) !! old(taken) && taken == old(taken) + IdsOfHop(hop)
    {
      var regs;
      ok, regs := ReadHop(later, p, h);
      hop := PathHop(p, h, Port(p.sw, regs.outPort), regs.nextHop);
      if ok && alloc {
        ok := AllocHop(p, h, hop.outPort, hop.nextHop);
      }
    }

    /** Take the in and the out HopID of one hop, or neither. */
    method AllocHop(inPort: Port, inHop: nat, outPort: Port, nextHop: nat) returns (ok: bool)
      requires inPort in limits && outPort in limits
      modifies this
      ensures !ok ==> taken == old(taken)
      ensures ok ==> var ids := IdsOfHop(PathHop(inPort, inHop, outPort, nextHop));
                     ids !! old(taken) && taken == old(taken) + ids
    {
      var r := TakeHopId(inPort, true, inHop);
      if !r {
        return false;
      }
      var s := TakeHopId(outPort, false, nextHop);
      if !s {
        Release(inPort, true, inHop);
        return false;
      }
      return true;
    }

    /** Discovery followed by release restores every allocator. */
    method DiscoverAndFree(src: Port, srcHopId: int, dst: Option<Port>, dstHop: nat, later: HopTable)
      returns (defined: bool, found: bool)
      requires Valid() && PortsExist(later) && src in limits
      requires srcHopId >= 0 || dst.Some?
      modifies this
      ensures !defined ==> later != table
      ensures defined ==> taken == old(taken)
    {
      var hops;
      ghost var start;
      defined, found, hops, start := Discover(src, srcHopId, dst, dstHop, true, later);
      if defined && found {
        FreePath(hops);
      }
    }

    /** The HopIDs of one hop of a new path; a failure keeps the incoming HopID. */
    method AllocForward(inPort: Port, inHop: nat, outPort: Port, last: bool, dstHop: nat)
      returns (ok: bool, hop: PathHop, lost: set<HopId>)
      requires inPort in limits && outPort in limits
      modifies this
      ensures ok ==> lost == {} && hop.inPort == inPort && hop.inHop == inHop && hop.outPort == outPort
      ensures ok ==> IdsOfHop(hop) !! old(taken) && taken == old(taken) + IdsOfHop(hop)
      ensures ok && last ==> hop.nextHop == dstHop && CanTake(old(taken), outPort, false, dstHop)
      ensures ok && !last ==> 8 <= hop.nextHop <= limits[outPort].maxOut
      ensures ok && !last ==> forall id: nat | 8 <= id < hop.nextHop :: HopId(outPort, false, id) in old(taken)
      ensures !ok ==> lost !! old(taken) && taken == old(taken) + lost
      ensures if CanTake(old(taken), inPort, true, inHop) then !ok ==> lost == {HopId(inPort, true, inHop)}
              else !ok && lost == {}
    {
      lost := {};
      hop := PathHop(inPort, inHop, outPort, 0);
      ok := TakeHopId(inPort, true, inHop);
      if !ok {
        return;
      }
      var out: int;
      if last {
        out := AllocHopId(outPort, false, dstHop, dstHop);
      } else {
        out := AllocHopId(outPort, false, -1, -1);
      }
      if out < 0 {
        return false, hop, {HopId(inPort, true, inHop)};
      }
      hop := PathHop(inPort, inHop, outPort, out);
    }

    /** One step of the port walk. */
    method StepPort(t: Routers, dst: Port, p: Port, ghost expected: Port) returns (q: Port)
      requires LeadsTo(t, dst, p, Some(expected))
      ensures q == expected
    {
      q := NextPort(t, dst, p).value;
    }

    /** A new path as far as its first hops were allocated, along `hs`. */
    ghost predicate Laid(before: set<HopId>, now: set<HopId>, hops: seq<PathHop>, hs: seq<Hop>, src: Port, srcHop: nat, dstHop: nat)
      requires hs != [] && src in limits && hs[|hs| - 1].outPort in limits
    {
      && Holds(before, now, hops) && Follows(hops, hs) && HopIdsJoin(hops) && Unreserved(hops, |hs|)
      && (hops != [] ==> hops[0].inHop == srcHop && CanTake(before, src, true, srcHop))
      && (|hops| == |hs| ==>
            hops[|hops| - 1].nextHop == dstHop && CanTake(before, hs[|hs| - 1].outPort, false, dstHop))
    }

    /** One turn of the loop: the HopIDs of the next hop, or what is lost by giving up. */
    method AllocTurn(inPort: Port, inHop: nat, outPort: Port, hops: seq<PathHop>, dstHop: nat, last: bool,
                     ghost before: set<HopId>, ghost hs: seq<Hop>, ghost src: Port, ghost srcHop: nat)
      returns (ok: bool, hop: PathHop, lost: set<HopId>)
      requires |hops| < |hs| && (forall i | 0 <= i < |hs| :: hs[i].inPort in limits && hs[i].outPort in limits)
      requires src == hs[0].inPort && Laid(before, taken, hops, hs, src, srcHop, dstHop)
      requires inPort == hs[|hops|].inPort && outPort == hs[|hops|].outPort && last == (|hops| == |hs| - 1)
      requires inHop == if hops == [] then srcHop else hops[|hops| - 1].nextHop
      modifies this
      ensures ok ==> Laid(before, taken, hops + [hop], hs, src, srcHop, dstHop) && hop.outPort == outPort
      ensures !ok ==> lost !! before && taken == before + lost && (lost == {} <==> !CanTake(before, src, true, srcHop))
    {
      ok, hop, lost := AllocForward(inPort, inHop, outPort, last, dstHop);
      if !ok {
        lost := IdsOf(hops) + lost;
        if hops != [] {
          FirstHeld(hops);
        }
        return;
      }
      HoldsStep(before, hops, hop);
      OneMoreHop(hops, hop, hs);
    }

    /** The allocation loop of tb_path_alloc() over a chained walk of `n` hops. */
    method AllocAlong(t: Routers, src: Port, srcHop: nat, dst: Port, dstHop: nat, n: nat, ghost hs: seq<Hop>)
      returns (ok: bool, hops: seq<PathHop>, lost: set<HopId>)
      requires n == |hs| > 0 && hs[0].inPort == src && Chained(t, dst, hs)
      requires forall i | 0 <= i < |hs| :: hs[i].inPort in limits && hs[i].outPort in limits
      modifies this
      ensures ok ==> lost == {} && Holds(old(taken), taken, hops) && |hops| == n && Follows(hops, hs)
      ensures ok ==> HopIdsJoin(hops) && hops[0].inHop == srcHop && hops[n - 1].nextHop == dstHop && Unreserved(hops, n)
      ensures ok ==> CanTake(old(taken), src, true, srcHop) && CanTake(old(taken), hs[n - 1].outPort, false, dstHop)
      ensures !ok ==> lost !! old(taken) && taken == old(taken) + lost
      ensures !ok ==> (lost == {} <==> !CanTake(old(taken), src, true, srcHop))
    {
      hops, lost := [], {};
      var inPort, inHop := src, srcHop;
      var i := 0;
      while i < n
        invariant i == |hops| <= n
        invariant i < n ==> inPort == hs[i].inPort
        invariant inHop == if i == 0 then srcHop else hops[i - 1].nextHop
        invariant Laid(old(taken), taken, hops, hs, src, srcHop, dstHop)
      {
        var outPort := StepPort(t, dst, inPort, hs[i].outPort);
        var hop;
        ok, hop, lost := AllocTurn(inPort, inHop, outPort, hops, dstHop, i == n - 1, old(taken), hs, src, srcHop);
        if !ok {
          return false, [], lost;
        }
        hops := hops + [hop];
        inHop := hop.nextHop;
        if i + 1 < n {
          inPort := StepPort(t, dst, outPort, hs[i + 1].inPort);
        }
        i := i + 1;
      }
      return true, hops, {};
    }

    /**
     tb_path_alloc() between two adapters of a tree. On success the path runs
     over the hops of the tree path, each hop's outgoing HopID is the next hop's
     incoming one, and the path holds exactly its HopIDs. On failure the HopIDs
     in `lost` stay allocated, because the path is freed before its length is
     set; nothing is lost if and only if the source HopID could not be taken.
     */
    method AllocPath(t: Routers, src: Port, srcHop: nat, dst: Port, dstHop: nat)
      returns (ok: bool, hops: seq<PathHop>, lost: set<HopId>)
      requires TreeOk(t) && IsAdapter(t, src) && IsAdapter(t, dst) && src != dst
      requires forall p: Port | PortOk(t, p) :: p in limits
      modifies this
      ensures ok ==> lost == {} && Holds(old(taken), taken, hops)
      ensures ok ==> Follows(hops, Hops(t, src, dst)) && |hops| == |Hops(t, src, dst)|
      ensures ok ==> HopIdsJoin(hops) && hops[0].inHop == srcHop && hops[|hops| - 1].nextHop == dstHop && Unreserved(hops, |hops|)
      ensures ok ==> CanTake(old(taken), src, true, srcHop) && CanTake(old(taken), dst, false, dstHop)
      ensures ok ==> |hops| <= 14
      ensures !ok ==> lost !! old(taken) && taken == old(taken) + lost
      ensures !ok ==> (lost == {} <==> !CanTake(old(taken), src, true, srcHop))
    {
      ghost var hs := Hops(t, src, dst);
      HopsChained(t, src, dst);
      HopsPortsOk(t, src, dst);
      var ports := WalkPorts(t, src, dst);
      ok, hops, lost := AllocAlong(t, src, srcHop, dst, dstHop, |ports| / 2, hs);
    }

    /** A successful allocation followed by release restores every allocator. */
    method AllocAndFree(t: Routers, src: Port, srcHop: nat, dst: Port, dstHop: nat)
      returns (ok: bool, lost: set<HopId>)
      requires TreeOk(t) && IsAdapter(t, src) && IsAdapter(t, dst) && src != dst
      requires forall p: Port | PortOk(t, p) :: p in limits
      modifies this
      ensures taken == old(taken) + lost && (ok ==> lost == {})
    {
      var hops;
      ok, hops, lost := AllocPath(t, src, srcHop, dst, dstHop);
      if ok {
        FreePath(hops);
      }
    }
  }

  lemma OneRouter(t: Routers, limits: map<Port, Limits>)
    requires t == map[[] := Router(0, 2)] && Port([], 0) in limits && Port([], 1) in limits && Port([], 2) in limits
    ensures TreeOk(t) && IsAdapter(t, Port([], 1)) && IsAdapter(t, Port([], 2))
    ensures forall p: Port | PortOk(t, p) :: p in limits
  {
    assert [] + [1] != [] && [] + [2] != [];
    forall p: Port | PortOk(t, p) ensures p in limits {
      assert p == Port([], 0) || p == Port([], 1) || p == Port([], 2);
    }
  }

  /**
   A failed allocation that does lose a HopID: between two adapters of one router, the
   incoming HopID is free and the outgoing one is not.
   */
  method FailedAllocationLoses() returns (before: set<HopId>, after: set<HopId>)
    ensures before < after
  {
    var src, dst, lim := Port([], 1), Port([], 2), Limits(false, 8, 8);
    var limits := map[Port([], 0) := lim, src := lim, dst := lim];
    var t: Routers := map[[] := Router(0, 2)];
    before := {HopId(dst, false, TB_PATH_MIN_HOPID)};
    var domain := new Domain(map[], limits, map[], before);
    OneRouter(t, limits);
    var ok, hops, lost := domain.AllocPath(t, src, TB_PATH_MIN_HOPID, dst, TB_PATH_MIN_HOPID);
    after := domain.taken;
  }

  /** The hops use the ports of the tree path, from its start. */
  predicate Follows(hops: seq<PathHop>, hs: seq<Hop>) {
    |hops| <= |hs| && forall i | 0 <= i < |hops| :: hops[i].inPort == hs[i].inPort && hops[i].outPort == hs[i].outPort
  }

  /** Each hop's outgoing HopID is the next hop's incoming HopID. */
  predicate HopIdsJoin(hops: seq<PathHop>) {
    forall i | 0 < i < |hops| :: hops[i - 1].nextHop == hops[i].inHop
  }

  /** Of a path of `n` hops, all but the last lead on under a HopID outside the reserved range 0 to 7. */
  predicate Unreserved(hops: seq<PathHop>, n: nat) {
    forall i | 0 <= i < |hops| && i < n - 1 :: hops[i].nextHop >= 8
  }

  lemma OneMoreHop(hops: seq<PathHop>, h: PathHop, hs: seq<Hop>)
    requires Follows(hops, hs) && HopIdsJoin(hops) && |hops| < |hs|
    requires h.inPort == hs[|hops|].inPort && h.outPort == hs[|hops|].outPort
    requires hops != [] ==> hops[|hops| - 1].nextHop == h.inHop
    requires Unreserved(hops, |hs|) && (|hops| < |hs| - 1 ==> h.nextHop >= 8)
    ensures Follows(hops + [h], hs) && HopIdsJoin(hops + [h]) && Unreserved(hops + [h], |hs|)
  {
  }

  lemma {:induction false} FirstHeld(hops: seq<PathHop>)
    requires hops != []
    ensures HopId(hops[0].inPort, true, hops[0].inHop) in IdsOf(hops)
  {
    if |hops| > 1 {
      FirstHeld(hops[..|hops| - 1]);
    }
  }

  lemma HopPortsOk(t: Routers, src: Port, dst: Port, i: nat)
    requires TreeOk(t) && IsAdapter(t, src) && IsAdapter(t, dst) && src != dst && i <= Links(src.sw, dst.sw)
    ensures PortOk(t, Ingress(t, src, dst, i)) && PortOk(t, Egress(t, src, dst, i))
  {
    if i > 0 {
      CrossLink(t, src, dst, i - 1);
      EgressOk(t, src, dst, i - 1);
      RemoteSymmetric(t, Egress(t, src, dst, i - 1));
    }
    EgressOk(t, src, dst, i);
  }

  lemma HopsPortsOk(t: Routers, src: Port, dst: Port)
    requires TreeOk(t) && IsAdapter(t, src) && IsAdapter(t, dst) && src != dst
    ensures var hs := Hops(t, src, dst);
            hs[0].inPort == src && forall i | 0 <= i < |hs| :: PortOk(t, hs[i].inPort) && PortOk(t, hs[i].outPort)
  {
    var hs := Hops(t, src, dst);
    forall i | 0 <= i < |hs|
      ensures PortOk(t, hs[i].inPort) && PortOk(t, hs[i].outPort)
    {
      HopPortsOk(t, src, dst, i);
    }
  }

  lemma EgressOk(t: Routers, src: Port, dst: Port, i: nat)
    requires TreeOk(t) && PortOk(t, src) && PortOk(t, dst) && i <= Links(src.sw, dst.sw)
    ensures PortOk(t, Egress(t, src, dst, i))
  {
    var a, b := src.sw, dst.sw;
    if i < |a| - Common(a, b) {
      CrossLinkUp(t, src, dst, i);
      PrefixIn(t, a, |a| - i);
    } else if i < Links(a, b) {
      var k := |b| - Links(a, b) + i;
      CrossLinkDown(t, src, dst, i, k);
      DownPortLinked(t, b, k + 1);
    }
  }
}
