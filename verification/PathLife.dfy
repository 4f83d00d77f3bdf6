/**
 The life of a path: its HopIDs are allocated along the tree, its entries are
 programmed into the routers, discovery reads them back, and teardown returns
 everything (path.c). `HopIds` and `PathActivation` each model a part of it.
 */
module PathLife {
  import opened Topology
  import opened HopIds
  import PA = PathActivation

  // ----- what is in the routers' tables

  /** Each hop has an entry of its own. */
  predicate OwnEntries(hops: seq<PathHop>) {
    forall i, j | 0 <= i < j < |hops| :: hops[i].inPort != hops[j].inPort
  }

  /** The hop tables once the entries of the path hold `hw`. */
  function Written(table: HopTable, hops: seq<PathHop>, hw: seq<PA.Regs>): (t: HopTable)
    requires |hops| == |hw|
  {
    if hops == [] then table
    else
      var n := |hops| - 1;
      Written(table, hops[..n], hw[..n])[(hops[n].inPort, hops[n].inHop) :=
        HopRegs(hw[n].enable, hw[n].outPort, hw[n].nextHop)]
  }

  lemma {:induction false} WrittenAt(table: HopTable, hops: seq<PathHop>, hw: seq<PA.Regs>, i: nat)
    requires |hops| == |hw| && OwnEntries(hops) && i < |hops|
    ensures Entry(Written(table, hops, hw), hops[i].inPort, hops[i].inHop) == HopRegs(hw[i].enable, hw[i].outPort, hw[i].nextHop)
  {
    var n := |hops| - 1;
    if i < n {
      WrittenAt(table, hops[..n], hw[..n], i);
    }
  }

  lemma {:induction false} WrittenElsewhere(table: HopTable, hops: seq<PathHop>, hw: seq<PA.Regs>, p: Port, h: nat)
    requires |hops| == |hw| && (forall i | 0 <= i < |hops| :: hops[i].inPort != p || hops[i].inHop != h)
    ensures Entry(Written(table, hops, hw), p, h) == Entry(table, p, h)
  {
    if hops != [] {
      WrittenElsewhere(table, hops[..|hops| - 1], hw[..|hops| - 1], p, h);
    }
  }

  // ----- discovery of what was programmed

  /** Every entry of the path is enabled and leads where the hop says. */
  predicate Programs(table: HopTable, hops: seq<PathHop>) {
    forall i | 0 <= i < |hops| ::
      Entry(table, hops[i].inPort, hops[i].inHop) == HopRegs(true, hops[i].outPort.num, hops[i].nextHop)
  }

  /** Hops that cross one router each and leave the last by a port without a link. */
  predicate Routed(remote: Remotes, hops: seq<PathHop>) {
    && hops != [] && Linked(remote, hops) && hops[|hops| - 1].outPort !in remote
    && forall i | 0 <= i < |hops| :: hops[i].inPort.sw == hops[i].outPort.sw
  }

  /** A programmed path is described, from any of its hops on, as exactly its hops. */
  lemma {:induction false} ProgrammedDescribed(remote: Remotes, table: HopTable, hops: seq<PathHop>, k: nat, n: nat)
    requires Routed(remote, hops) && Programs(table, hops) && k < |hops| && |hops| - k <= n
    ensures Described(remote, table, hops[k].inPort, hops[k].inHop, n) == hops[k..]
    decreases |hops| - k
  {
    assert hops[k].outPort == Port(hops[k].inPort.sw, hops[k].outPort.num);
    if k + 1 < |hops| {
      ProgrammedDescribed(remote, table, hops, k + 1, n - 1);
      assert hops[k..] == [hops[k]] + hops[k + 1..];
    } else {
      assert hops[k..] == [hops[k]];
    }
  }

  // ----- the path tb_path_alloc() makes

  /** The link table is that of the tree. */
  ghost predicate Wired(t: Routers, remote: Remotes) {
    forall p: Port | PortOk(t, p) :: (p in remote <==> Remote(t, p).Some?) && (p in remote ==> remote[p] == Remote(t, p).value)
  }

  lemma TreePathRoutes(t: Routers, remote: Remotes, src: Port, dst: Port, i: nat)
    requires TreeOk(t) && IsAdapter(t, src) && IsAdapter(t, dst) && src != dst && Wired(t, remote)
    requires i <= Links(src.sw, dst.sw)
    ensures var p, q := Ingress(t, src, dst, i), Egress(t, src, dst, i);
            && p.sw == q.sw == RouterAt(src.sw, dst.sw, i) && (q in remote <==> i < Links(src.sw, dst.sw))
            && (i < Links(src.sw, dst.sw) ==> remote[q] == Ingress(t, src, dst, i + 1))
  {
    IngressPort(t, src, dst, i);
    EgressOk(t, src, dst, i);
    if i < Links(src.sw, dst.sw) {
      CrossLink(t, src, dst, i);
    } else {
      RouterDown(src.sw, dst.sw, i);
      assert dst.sw[..|dst.sw|] == dst.sw;
    }
  }

  /** An allocated path is a route with an entry of its own in each router. */
  lemma AllocatedRoutes(t: Routers, remote: Remotes, src: Port, dst: Port, hops: seq<PathHop>)
    requires TreeOk(t) && IsAdapter(t, src) && IsAdapter(t, dst) && src != dst && Wired(t, remote)
    requires |hops| == |Hops(t, src, dst)| && Follows(hops, Hops(t, src, dst)) && HopIdsJoin(hops)
    ensures Routed(remote, hops) && OwnEntries(hops) && hops[0].inPort == src
  {
    var hs := Hops(t, src, dst);
    forall i | 0 <= i < |hops|
      ensures hops[i].inPort.sw == hops[i].outPort.sw == RouterAt(src.sw, dst.sw, i)
      ensures hops[i].outPort in remote <==> i < |hops| - 1
      ensures i < |hops| - 1 ==> remote[hops[i].outPort] == hops[i + 1].inPort
    {
      assert hs[i].inPort == Ingress(t, src, dst, i);
      TreePathRoutes(t, remote, src, dst, i);
    }
    forall i, j | 0 <= i < j < |hops| ensures hops[i].inPort != hops[j].inPort {
      RoutersDistinct(src.sw, dst.sw, i, j);
    }
  }

  // ----- activation, discovery, teardown

  /** What a tunnel sets for a whole path. */
  datatype Setting = Setting(weight: nat, clearFc: bool, ingressFc: PA.FlowControl, egressFc: PA.FlowControl)

  /** What the path asks of the entry of each hop: the hop's own route, and the rest as the tunnel sets it. */
  function Asked(hops: seq<PathHop>, ask: PathHop -> PA.HopInfo): (infos: seq<PA.HopInfo>)
    ensures |infos| == |hops|
    ensures forall i | 0 <= i < |hops| :: infos[i].outPort == hops[i].outPort.num && infos[i].nextHop == hops[i].nextHop
    ensures forall i | 0 <= i < |hops| :: PA.Effective(infos[i]) == PA.Effective(ask(hops[i]))
  {
    seq(|hops|, i requires 0 <= i < |hops| => ask(hops[i]).(outPort := hops[i].outPort.num, nextHop := hops[i].nextHop))
  }

  /** The path that was allocated, with its entries and credit registers as the routers hold them. */
  ghost predicate Stands(path: PA.TbPath, hops: seq<PathHop>)
    reads path
  {
    && path.Valid() && path.wholeWrites && |path.hops| == |hops| > 0
    && forall i | 0 <= i < |hops| :: path.hops[i].outPort == hops[i].outPort.num && path.hops[i].nextHop == hops[i].nextHop
  }

  method MakePath(hops: seq<PathHop>, ask: PathHop -> PA.HopInfo, credits: PathHop -> nat, left: PathHop -> PA.Regs,
                  setting: Setting)
    returns (path: PA.TbPath)
    requires hops != [] && forall h: PathHop :: credits(h) % PA.NFC_BUFFERS + PA.Effective(ask(h)) < PA.NFC_BUFFERS
    ensures fresh(path) && Stands(path, hops) && path.state == PA.Inactive && !path.trouble
  {
    var nfc := seq(|hops|, i requires 0 <= i < |hops| => credits(hops[i]));
    var hw := seq(|hops|, i requires 0 <= i < |hops| => left(hops[i]));
    path := new PA.TbPath(Asked(hops, ask), setting.weight, setting.clearFc, setting.ingressFc, setting.egressFc,
                          true, nfc, hw);
  }

  lemma WrittenPrograms(table: HopTable, hops: seq<PathHop>, hw: seq<PA.Regs>)
    requires |hops| == |hw| && OwnEntries(hops)
    requires forall i | 0 <= i < |hops| :: hw[i].enable && hw[i].outPort == hops[i].outPort.num && hw[i].nextHop == hops[i].nextHop
    ensures Programs(Written(table, hops, hw), hops)
  {
    forall i | 0 <= i < |hops|
      ensures Entry(Written(table, hops, hw), hops[i].inPort, hops[i].inHop) == HopRegs(true, hops[i].outPort.num, hops[i].nextHop)
    {
      WrittenAt(table, hops, hw, i);
    }
  }

  lemma WrittenPortsExist(d: Domain, hops: seq<PathHop>, hw: seq<PA.Regs>)
    requires d.Valid() && |hops| == |hw| && OwnEntries(hops)
    requires forall i | 0 <= i < |hops| :: Port(hops[i].inPort.sw, hw[i].outPort) in d.limits
    ensures d.PortsExist(Written(d.table, hops, hw))
  {
    var t := Written(d.table, hops, hw);
    forall p, h: nat | p in d.limits ensures Port(p.sw, Entry(t, p, h).outPort) in d.limits {
      if i :| 0 <= i < |hops| && hops[i].inPort == p && hops[i].inHop == h {
        WrittenAt(d.table, hops, hw, i);
      } else {
        WrittenElsewhere(d.table, hops, hw, p, h);
      }
    }
  }

  /** What discovery needs of an allocated path: a route of known ports, of at most TB_PATH_MAX_HOPS hops. */
  ghost predicate Discoverable(d: Domain, hops: seq<PathHop>) {
    && d.Valid() && Routed(d.remote, hops) && OwnEntries(hops) && |hops| <= TB_PATH_MAX_HOPS
    && forall i | 0 <= i < |hops| :: hops[i].inPort in d.limits && hops[i].outPort in d.limits
  }

  /** tb_path_discover() from the first hop, with the entries of the path as they now are. */
  method Rediscover(d: Domain, hops: seq<PathHop>, path: PA.TbPath) returns (found: bool, again: seq<PathHop>)
    requires Discoverable(d, hops) && Stands(path, hops)
    requires forall i | 0 <= i < |hops| :: Port(hops[i].inPort.sw, path.hw[i].outPort) in d.limits
    ensures found ==> again == Described(d.remote, Written(d.table, hops, path.hw), hops[0].inPort, hops[0].inHop, TB_PATH_MAX_HOPS)
    ensures found ==> again != []
  {
    WrittenPortsExist(d, hops, path.hw);
    var after := new Domain(d.remote, d.limits, Written(d.table, hops, path.hw), d.taken);
    var defined;
    ghost var start;
    defined, found, again, start := after.Discover(hops[0].inPort, hops[0].inHop, None, 0, false, after.table);
  }

  /** Discovery of an active path returns it, hop by hop. */
  method DiscoverActive(d: Domain, hops: seq<PathHop>, path: PA.TbPath) returns (found: bool, again: seq<PathHop>)
    requires Discoverable(d, hops) && Stands(path, hops)
    requires forall i | 0 <= i < |hops| :: path.hw[i].enable
    requires forall i | 0 <= i < |hops| :: path.hw[i].outPort == path.hops[i].outPort && path.hw[i].nextHop == path.hops[i].nextHop
    ensures found ==> again == hops
  {
    WrittenPrograms(d.table, hops, path.hw);
    ProgrammedDescribed(d.remote, Written(d.table, hops, path.hw), hops, 0, TB_PATH_MAX_HOPS);
    assert hops[0..] == hops;
    found, again := Rediscover(d, hops, path);
  }

  /** An entry that is disabled ends discovery at once. */
  lemma ClosedDescribed(remote: Remotes, table: HopTable, hops: seq<PathHop>, hw: seq<PA.Regs>, n: nat)
    requires |hops| == |hw| > 0 && OwnEntries(hops) && !hw[0].enable
    ensures Described(remote, Written(table, hops, hw), hops[0].inPort, hops[0].inHop, n) == []
  {
    WrittenAt(table, hops, hw, 0);
  }

  /** tb_path_deactivate(), after which discovery no longer finds the path unless its first router is gone. */
  method TakeDown(d: Domain, hops: seq<PathHop>, path: PA.TbPath, polls: nat) returns (err: int, found: bool)
    requires Discoverable(d, hops) && Stands(path, hops) && path.state == PA.Active
    requires forall i | 0 <= i < |hops| :: path.hw[i].outPort == path.hops[i].outPort
    modifies path
    ensures Stands(path, hops) && (err == 0 <==> path.state == PA.Inactive) && (err != 0 ==> path.trouble)
    ensures err == 0 && !path.gone[0] ==> !found
    ensures path.state == PA.Inactive ==> PA.CreditsFrom(path.nfc, path.base, path.hops, |hops|)
  {
    err := path.Deactivate(polls);
    var again;
    found, again := Rediscover(d, hops, path);
    if err == 0 && !path.gone[0] {
      ClosedDescribed(d.remote, d.table, hops, path.hw, TB_PATH_MAX_HOPS);
    }
  }

  /** Activation, discovery of what came up, and deactivation. */
  method Serve(d: Domain, hops: seq<PathHop>, path: PA.TbPath, polls: nat)
    returns (up: int, found: bool, again: seq<PathHop>, down: int)
    requires Discoverable(d, hops) && Stands(path, hops) && path.state == PA.Inactive
    modifies path
    ensures Stands(path, hops)
    ensures up == 0 && found ==> again == hops
    ensures !path.trouble ==> up == 0 && down == 0
    ensures down == 0 <==> path.state == PA.Inactive
    ensures down == 0 ==> forall i | 0 <= i < |hops| :: PA.CreditsAt(path.nfc[i], path.base[i], path.hops[i], false)
  {
    found, again, down := false, [], 0;
    ghost var first;
    up, first := path.Activate(polls);
    if up == 0 {
      found, again := DiscoverActive(d, hops, path);
      var still;
      down, still := TakeDown(d, hops, path, polls);
    } else if path.state != PA.Inactive {
      down := path.Deactivate(polls);
    }
  }

  /**
   A path from its allocation to its release. If it was allocated and activated,
   discovery returned exactly it; once it is inactive, freeing it returns every
   HopID. If nothing went wrong in the routers, activation and deactivation succeeded.
   */
  method Live(d: Domain, t: Routers, src: Port, srcHop: nat, dst: Port, dstHop: nat, ask: PathHop -> PA.HopInfo,
              credits: PathHop -> nat, left: PathHop -> PA.Regs, setting: Setting, polls: nat)
    returns (ok: bool, lost: set<HopId>, up: int, found: bool, again: seq<PathHop>, hops: seq<PathHop>,
             down: int, ghost trouble: bool)
    requires d.Valid() && Wired(t, d.remote) && (forall p: Port | PortOk(t, p) :: p in d.limits)
    requires TreeOk(t) && IsAdapter(t, src) && IsAdapter(t, dst) && src != dst
    requires forall h: PathHop :: credits(h) % PA.NFC_BUFFERS + PA.Effective(ask(h)) < PA.NFC_BUFFERS
    modifies d
    ensures !ok ==> d.taken == old(d.taken) + lost
    ensures ok ==> Follows(hops, Hops(t, src, dst)) && hops != [] && hops[0].inHop == srcHop
    ensures ok && up == 0 && found ==> again == hops
    ensures ok && !trouble ==> up == 0 && down == 0
    ensures ok && down == 0 ==> d.taken == old(d.taken)
  {
    up, down, found, again, trouble := 0, 0, false, [], false;
    ok, hops, lost := d.AllocPath(t, src, srcHop, dst, dstHop);
    if !ok {
      return;
    }
    AllocatedRoutes(t, d.remote, src, dst, hops);
    HopsPortsOk(t, src, dst);
    var path := MakePath(hops, ask, credits, left, setting);
    up, found, again, down := Serve(d, hops, path, polls);
    trouble := path.trouble;
    if down == 0 {
      OwnsFreed(old(d.taken), d.taken, hops);
      d.FreePath(hops);
    }
  }
}
