/**
 Router topology and the port walk (tb.h, switch.c). A router is named by the
 list of downstream ports that leads to it from the host; its route string is
 the same list packed into bytes, lowest first.
 */
module Topology {

  datatype Option<+T> = None | Some(value: T)

  type Path = seq<nat>

  const MAX_PORT := 63
  const TB_SWITCH_MAX_DEPTH := 6
  const TB_PATH_MAX_HOPS := 14

  // ----- route strings

  /** tb_route() of the router at `p`. */
  function Route(p: Path): (r: nat) {
    if p == [] then 0 else p[0] + 0x100 * Route(p[1..])
  }

  /** The low `k` bytes of a route: route & ((1 << 8k) - 1). */
  function LowBytes(r: nat, k: nat): (m: nat) {
    if k == 0 then 0 else r % 0x100 + 0x100 * LowBytes(r / 0x100, k - 1)
  }

  /** route >> 8k */
  function Shifted(r: nat, k: nat): (m: nat) {
    if k == 0 then r else Shifted(r / 0x100, k - 1)
  }

  /** port << 8k */
  function Placed(port: nat, k: nat): (m: nat) {
    if k == 0 then port else 0x100 * Placed(port, k - 1)
  }

  predicate PathOk(p: Path) {
    forall i | 0 <= i < |p| :: 1 <= p[i] <= MAX_PORT
  }

  lemma RouteStep(p: Path)
    requires PathOk(p) && p != []
    ensures Route(p) % 0x100 == p[0] && Route(p) / 0x100 == Route(p[1..])
  {
  }

  /** Dropping bytes from a route drops hops from the path. */
  lemma {:induction false} ShiftedRoute(p: Path, k: nat)
    requires PathOk(p) && k <= |p|
    ensures Shifted(Route(p), k) == Route(p[k..])
  {
    if k > 0 {
      RouteStep(p);
      ShiftedRoute(p[1..], k - 1);
      assert p[1..][k - 1..] == p[k..];
    }
  }

  /** The low bytes of a route are the route of a prefix. */
  lemma {:induction false} LowRoute(p: Path, k: nat)
    requires PathOk(p)
    ensures LowBytes(Route(p), k) == Route(if k < |p| then p[..k] else p)
  {
    if k > 0 {
      if p == [] {
        LowRoute(p, k - 1);
      } else {
        RouteStep(p);
        LowRoute(p[1..], k - 1);
        if k < |p| {
          assert p[1..][..k - 1] == p[..k][1..];
        }
      }
    }
  }

  lemma {:induction false} RouteInjective(p: Path, q: Path)
    requires PathOk(p) && PathOk(q) && Route(p) == Route(q)
    ensures p == q
  {
    if p != [] && q != [] {
      RouteStep(p);
      RouteStep(q);
      RouteInjective(p[1..], q[1..]);
      assert p == [p[0]] + p[1..] && q == [q[0]] + q[1..];
    }
  }

  /** tb_downstream_route() names the router behind the port. */
  lemma {:induction false} DownstreamRoute(p: Path, port: nat)
    requires PathOk(p) && 1 <= port <= MAX_PORT
    ensures Route(p + [port]) == Route(p) + Placed(port, |p|)
  {
    if p == [] {
      assert (p + [port])[1..] == [];
    } else {
      DownstreamRoute(p[1..], port);
      assert (p + [port])[1..] == p[1..] + [port];
    }
  }

  /** tb_switch_is_reachable(): the routes agree below the depth of `parent`. */
  predicate Reachable(parent: Path, sw: Path) {
    LowBytes(Route(parent), |parent|) == LowBytes(Route(sw), |parent|)
  }

  predicate IsPrefix(p: Path, q: Path) {
    |p| <= |q| && q[..|p|] == p
  }

  /** The route test decides exactly whether `parent` is on the way to `sw`. */
  lemma ReachableIsPrefix(parent: Path, sw: Path)
    requires PathOk(parent) && PathOk(sw)
    ensures Reachable(parent, sw) <==> IsPrefix(parent, sw)
  {
    LowRoute(parent, |parent|);
    LowRoute(sw, |parent|);
    var low := if |parent| < |sw| then sw[..|parent|] else sw;
    if Reachable(parent, sw) {
      RouteInjective(parent, low);
    }
    assert |parent| == |sw| ==> sw[..|parent|] == sw;
  }

  /** tb_port_at(): the byte of the route at the depth of the router. */
  function ByteAt(route: nat, depth: nat): (port: nat) {
    Shifted(route, depth) % 0x100
  }

  lemma ByteAtIsHop(p: Path, depth: nat)
    requires PathOk(p) && depth < |p|
    ensures ByteAt(Route(p), depth) == p[depth]
  {
    ShiftedRoute(p, depth);
    RouteStep(p[depth..]);
  }

  // ----- routers, ports and links

  datatype Router = Router(upstream: nat, maxPort: nat)

  datatype Port = Port(sw: Path, num: nat)

  type Routers = map<Path, Router>

  /** A tree: every router hangs off a downstream port of its parent. */
  predicate TreeOk(t: Routers) {
    && [] in t
    && (forall p | p in t :: PathOk(p) && |p| <= TB_SWITCH_MAX_DEPTH && t[p].upstream <= t[p].maxPort <= MAX_PORT)
    && (forall p, k | p in t && 0 <= k < |p| ::
          p[..k] in t && p[k] <= t[p[..k]].maxPort && p[k] != t[p[..k]].upstream)
  }

  predicate PortOk(t: Routers, p: Port) {
    p.sw in t && p.num <= t[p.sw].maxPort
  }

  function Upstream(t: Routers, sw: Path): (p: Port) {
    Port(sw, if sw in t then t[sw].upstream else 0)
  }

  /** port->remote; links join a downstream port to the upstream port of the child. */
  function Remote(t: Routers, p: Port): (r: Option<Port>)
    requires p.sw in t
  {
    if p.num == t[p.sw].upstream then
      if p.sw == [] then None else Some(Port(p.sw[..|p.sw| - 1], p.sw[|p.sw| - 1]))
    else if p.sw + [p.num] in t then Some(Upstream(t, p.sw + [p.num]))
    else None
  }

  /** Links are symmetric. */
  lemma RemoteSymmetric(t: Routers, p: Port)
    requires TreeOk(t) && PortOk(t, p) && Remote(t, p).Some?
    ensures PortOk(t, Remote(t, p).value) && Remote(t, Remote(t, p).value) == Some(p)
  {
    var r := Remote(t, p).value;
    if p.num == t[p.sw].upstream {
      assert r.sw + [r.num] == p.sw;
    } else {
      var child := p.sw + [p.num];
      assert child[..|child| - 1] == p.sw && child[|child| - 1] == p.num;
    }
  }

  /** A protocol adapter: a port no link is attached to. */
  predicate IsAdapter(t: Routers, p: Port) {
    PortOk(t, p) && Remote(t, p).None?
  }

  // ----- the walk

  /** tb_next_port_on_path() after the first port; None ends the walk. */
  function NextPort(t: Routers, end: Port, prev: Port): (next: Option<Port>)
    requires prev.sw in t
  {
    if prev.sw == end.sw then
      if prev == end then None else Some(end)
    else if Reachable(prev.sw, end.sw) then
      var num := ByteAt(Route(end.sw), |prev.sw|);
      if num > t[prev.sw].maxPort then None
      else
        var next := Port(prev.sw, num);
        var hop := if next == prev && Remote(t, prev).Some? then Remote(t, prev).value else next;
        if hop != prev then Some(hop) else None
    else if prev.num == t[prev.sw].upstream then Remote(t, prev)
    else Some(Upstream(t, prev.sw))
  }

  /** How many hops two paths share from the host. */
  function Common(a: Path, b: Path): (n: nat)
    ensures n <= |a| && n <= |b| && a[..n] == b[..n]
    ensures n < |a| && n < |b| ==> a[n] != b[n]
  {
    if a == [] || b == [] || a[0] != b[0] then 0
    else
      var m := Common(a[1..], b[1..]);
      assert a[..m + 1] == [a[0]] + a[1..][..m] && b[..m + 1] == [b[0]] + b[1..][..m];
      m + 1
  }

  /** Links between two routers of the tree. */
  function Links(a: Path, b: Path): (n: nat) {
    |a| + |b| - 2 * Common(a, b)
  }

  /** The `i`-th router on the way from `a` to `b`: up to the meeting point, then down. */
  function RouterAt(a: Path, b: Path, i: nat): (p: Path)
    requires i <= Links(a, b)
  {
    var n := Common(a, b);
    if i <= |a| - n then a[..|a| - i] else b[..n + i - (|a| - n)]
  }

  /** Where the walk enters and leaves its `i`-th router. */
  function Ingress(t: Routers, src: Port, dst: Port, i: nat): (p: Port)
    requires i <= Links(src.sw, dst.sw)
  {
    var a := src.sw;
    var s := RouterAt(a, dst.sw, i);
    if i == 0 then src
    else if i <= |a| - Common(a, dst.sw) then Port(s, a[|a| - i])
    else Upstream(t, s)
  }

  function Egress(t: Routers, src: Port, dst: Port, i: nat): (p: Port)
    requires i <= Links(src.sw, dst.sw)
  {
    var a, b := src.sw, dst.sw;
    var up := |a| - Common(a, b);
    var s := RouterAt(a, b, i);
    if i == Links(a, b) then dst
    else if i < up then Upstream(t, s)
    else Port(s, b[|b| - Links(a, b) + i])
  }

  // ----- the tree path

  lemma PrefixIn(t: Routers, p: Path, k: nat)
    requires TreeOk(t) && p in t && k <= |p|
    ensures p[..k] in t
  {
    assert k == |p| ==> p[..k] == p;
  }

  lemma RouterAtIn(t: Routers, a: Path, b: Path, i: nat)
    requires TreeOk(t) && a in t && b in t && i <= Links(a, b)
    ensures RouterAt(a, b, i) in t
  {
    var n := Common(a, b);
    if i <= |a| - n {
      PrefixIn(t, a, |a| - i);
    } else {
      PrefixIn(t, b, n + i - (|a| - n));
    }
  }

  /** The walk visits no router twice. */
  lemma RoutersDistinct(a: Path, b: Path, i: nat, j: nat)
    requires i < j <= Links(a, b)
    ensures RouterAt(a, b, i) != RouterAt(a, b, j)
  {
    var n := Common(a, b);
    var up := |a| - n;
    var p, q := RouterAt(a, b, i), RouterAt(a, b, j);
    if j > up && i <= up && |p| == |q| {
      assert |q| > n;
      assert p[n] == a[n] && q[n] == b[n];
    }
  }

  // ----- single moves

  lemma MoveUp(t: Routers, end: Port, p: Port)
    requires TreeOk(t) && p.sw in t && end.sw in t && !IsPrefix(p.sw, end.sw) && p.num != t[p.sw].upstream
    ensures NextPort(t, end, p) == Some(Upstream(t, p.sw))
  {
    ReachableIsPrefix(p.sw, end.sw);
    assert end.sw[..|end.sw|] == end.sw;
  }

  lemma MoveUpLink(t: Routers, end: Port, sw: Path)
    requires TreeOk(t) && sw in t && end.sw in t && !IsPrefix(sw, end.sw)
    ensures sw != [] && Remote(t, Upstream(t, sw)) == Some(Port(sw[..|sw| - 1], sw[|sw| - 1]))
    ensures NextPort(t, end, Upstream(t, sw)) == Remote(t, Upstream(t, sw))
  {
    ReachableIsPrefix(sw, end.sw);
    assert end.sw[..|end.sw|] == end.sw;
  }

  lemma MoveDown(t: Routers, end: Port, p: Port, k: nat)
    requires TreeOk(t) && end.sw in t && k < |end.sw| && p.sw == end.sw[..k] && p.num != end.sw[k]
    ensures p.sw in t && NextPort(t, end, p) == Some(Port(p.sw, end.sw[k]))
  {
    ReachableIsPrefix(p.sw, end.sw);
    DownPortLinked(t, end.sw, k + 1);
    ByteAtIsHop(end.sw, k);
  }

  lemma MoveDownLink(t: Routers, end: Port, k: nat)
    requires TreeOk(t) && end.sw in t && k < |end.sw|
    ensures var p := Port(end.sw[..k], end.sw[k]);
            && p.sw in t && Remote(t, p) == Some(Upstream(t, end.sw[..k + 1]))
            && NextPort(t, end, p) == Remote(t, p)
  {
    ReachableIsPrefix(end.sw[..k], end.sw);
    DownPortLinked(t, end.sw, k + 1);
    ByteAtIsHop(end.sw, k);
    assert end.sw[..k] + [end.sw[k]] == end.sw[..k + 1];
  }

  /** The port that leads to the child `p[..k]` is a linked downstream port. */
  lemma DownPortLinked(t: Routers, p: Path, k: nat)
    requires TreeOk(t) && p in t && 0 < k <= |p|
    ensures p[..k - 1] in t && p[..k] in t
    ensures p[k - 1] != t[p[..k - 1]].upstream && p[k - 1] <= t[p[..k - 1]].maxPort
    ensures Remote(t, Port(p[..k - 1], p[k - 1])) == Some(Upstream(t, p[..k]))
  {
    PrefixIn(t, p, k);
    PrefixIn(t, p, k - 1);
    var q := p[..k];
    assert q[..|q| - 1] == p[..k - 1] && q[|q| - 1] == p[k - 1];
    assert p[..k - 1] + [p[k - 1]] == q;
  }

  // ----- the walk follows the tree path

  /** A router below the meeting point, on the way up, is not an ancestor of the destination. */
  lemma ClimbNotPrefix(a: Path, b: Path, k: nat)
    requires Common(a, b) < k <= |a|
    ensures !IsPrefix(a[..k], b)
  {
    var n := Common(a, b);
    if k <= |b| {
      assert a[..k][n] == a[n] && b[..k][n] == b[n];
    }
  }

  lemma RouterUp(a: Path, b: Path, i: nat)
    requires i <= |a| - Common(a, b)
    ensures RouterAt(a, b, i) == a[..|a| - i]
    ensures i < |a| - Common(a, b) ==> !IsPrefix(RouterAt(a, b, i), b)
  {
    if i < |a| - Common(a, b) {
      ClimbNotPrefix(a, b, |a| - i);
    }
  }

  lemma RouterDown(a: Path, b: Path, i: nat)
    requires |a| - Common(a, b) <= i <= Links(a, b)
    ensures |b| >= Links(a, b) - i && RouterAt(a, b, i) == b[..|b| - Links(a, b) + i]
  {
    if i == |a| - Common(a, b) {
      assert a[..Common(a, b)] == b[..Common(a, b)];
    }
  }

  /** Inside a router the walk crosses from its ingress to its egress port. */
  lemma CrossRouter(t: Routers, src: Port, dst: Port, i: nat)
    requires TreeOk(t) && IsAdapter(t, src) && IsAdapter(t, dst) && src != dst
    requires i <= Links(src.sw, dst.sw)
    ensures var p := Ingress(t, src, dst, i);
            p.sw in t && NextPort(t, dst, p) == Some(Egress(t, src, dst, i))
  {
    var a, b := src.sw, dst.sw;
    var up := |a| - Common(a, b);
    RouterAtIn(t, a, b, i);
    if i <= up {
      RouterUp(a, b, i);
    }
    if i < up {
      IngressPort(t, src, dst, i);
      MoveUp(t, dst, Ingress(t, src, dst, i));
    } else if i < Links(a, b) {
      RouterDown(a, b, i);
      IngressPort(t, src, dst, i);
      MoveDown(t, dst, Ingress(t, src, dst, i), |b| - Links(a, b) + i);
    } else {
      RouterDown(a, b, i);
      assert b[..|b|] == b;
      IngressPort(t, src, dst, i);
    }
  }

  /** The ingress is a port of its router, and not the port the walk leaves by. */
  predicate Enters(t: Routers, src: Port, dst: Port, i: nat)
    requires i <= Links(src.sw, dst.sw)
  {
    var p, s := Ingress(t, src, dst, i), RouterAt(src.sw, dst.sw, i);
    && p.sw == s && s in t
    && p != Egress(t, src, dst, i)
    && (i < |src.sw| - Common(src.sw, dst.sw) ==> p.num != t[s].upstream)
  }

  lemma EntersFirst(t: Routers, src: Port, dst: Port)
    requires TreeOk(t) && IsAdapter(t, src) && IsAdapter(t, dst) && src != dst
    ensures Enters(t, src, dst, 0)
  {
    var a, b := src.sw, dst.sw;
    RouterUp(a, b, 0);
    assert a[..|a|] == a;
    if |a| == Common(a, b) && 0 < Links(a, b) {
      RouterDown(a, b, 0);
      DownPortLinked(t, b, |b| - Links(a, b) + 1);
    }
  }

  lemma EntersClimbing(t: Routers, src: Port, dst: Port, i: nat)
    requires TreeOk(t) && IsAdapter(t, src) && IsAdapter(t, dst) && src != dst
    requires 0 < i <= |src.sw| - Common(src.sw, dst.sw)
    ensures Enters(t, src, dst, i)
  {
    var a, b := src.sw, dst.sw;
    RouterUp(a, b, i);
    DownPortLinked(t, a, |a| - i + 1);
  }

  lemma EntersDescending(t: Routers, src: Port, dst: Port, i: nat)
    requires TreeOk(t) && IsAdapter(t, src) && IsAdapter(t, dst) && src != dst
    requires |src.sw| - Common(src.sw, dst.sw) < i <= Links(src.sw, dst.sw)
    ensures Enters(t, src, dst, i)
  {
    var a, b := src.sw, dst.sw;
    RouterAtIn(t, a, b, i);
    RouterDown(a, b, i);
    if i < Links(a, b) {
      DownPortLinked(t, b, |b| - Links(a, b) + i + 1);
    } else {
      assert b[..|b|] == b;
    }
  }

  lemma IngressPort(t: Routers, src: Port, dst: Port, i: nat)
    requires TreeOk(t) && IsAdapter(t, src) && IsAdapter(t, dst) && src != dst
    requires i <= Links(src.sw, dst.sw)
    ensures Enters(t, src, dst, i)
  {
    if i == 0 {
      EntersFirst(t, src, dst);
    } else if i <= |src.sw| - Common(src.sw, dst.sw) {
      EntersClimbing(t, src, dst, i);
    } else {
      EntersDescending(t, src, dst, i);
    }
  }

  lemma CrossLinkUp(t: Routers, src: Port, dst: Port, i: nat)
    requires TreeOk(t) && src.sw in t && dst.sw in t && i < |src.sw| - Common(src.sw, dst.sw)
    ensures Links(src.sw, dst.sw) > i && Egress(t, src, dst, i) == Upstream(t, src.sw[..|src.sw| - i])
    ensures Ingress(t, src, dst, i + 1) == Port(src.sw[..|src.sw| - i - 1], src.sw[|src.sw| - i - 1])
  {
    RouterUp(src.sw, dst.sw, i);
    RouterUp(src.sw, dst.sw, i + 1);
  }

  lemma CrossLinkDown(t: Routers, src: Port, dst: Port, i: nat, k: nat)
    requires TreeOk(t) && src.sw in t && dst.sw in t
    requires |src.sw| - Common(src.sw, dst.sw) <= i < Links(src.sw, dst.sw) && k == |dst.sw| - Links(src.sw, dst.sw) + i
    ensures Egress(t, src, dst, i) == Port(dst.sw[..k], dst.sw[k])
    ensures Ingress(t, src, dst, i + 1) == Upstream(t, dst.sw[..k + 1])
  {
    RouterDown(src.sw, dst.sw, i);
    RouterDown(src.sw, dst.sw, i + 1);
  }

  /** Between routers the walk follows the link. */
  lemma CrossLink(t: Routers, src: Port, dst: Port, i: nat)
    requires TreeOk(t) && src.sw in t && dst.sw in t
    requires i < Links(src.sw, dst.sw)
    ensures var p := Egress(t, src, dst, i);
            && p.sw == RouterAt(src.sw, dst.sw, i) && p.sw in t
            && Remote(t, p) == Some(Ingress(t, src, dst, i + 1))
            && NextPort(t, dst, p) == Remote(t, p)
  {
    var a, b := src.sw, dst.sw;
    RouterAtIn(t, a, b, i);
    if i < |a| - Common(a, b) {
      RouterUp(a, b, i);
      CrossLinkUp(t, src, dst, i);
      MoveUpLink(t, dst, a[..|a| - i]);
      assert a[..|a| - i][..|a| - i - 1] == a[..|a| - i - 1];
    } else {
      var k := |b| - Links(a, b) + i;
      RouterDown(a, b, i);
      CrossLinkDown(t, src, dst, i, k);
      MoveDownLink(t, dst, k);
    }
  }

  // ----- the whole walk

  /** One hop of a path: it takes two ports of one router. */
  datatype Hop = Hop(inPort: Port, outPort: Port)

  /** The hops of the tree path between two adapters. */
  function Hops(t: Routers, src: Port, dst: Port): (hs: seq<Hop>)
    ensures |hs| == Links(src.sw, dst.sw) + 1
  {
    var n := Links(src.sw, dst.sw);
    seq(n + 1, i requires 0 <= i <= n => Hop(Ingress(t, src, dst, i), Egress(t, src, dst, i)))
  }

  /** tb_next_port_on_path() leads from `p` to `q`, or ends the walk. */
  predicate LeadsTo(t: Routers, dst: Port, p: Port, q: Option<Port>) {
    p.sw in t && NextPort(t, dst, p) == q
  }

  /** The walk crosses each hop and then enters the next one, or ends. */
  predicate Chained(t: Routers, dst: Port, hs: seq<Hop>) {
    && (forall i | 0 <= i < |hs| :: LeadsTo(t, dst, hs[i].inPort, Some(hs[i].outPort)))
    && (forall i | 0 <= i < |hs| - 1 :: LeadsTo(t, dst, hs[i].outPort, Some(hs[i + 1].inPort)))
    && (hs != [] ==> LeadsTo(t, dst, hs[|hs| - 1].outPort, None))
  }

  lemma HopsChained(t: Routers, src: Port, dst: Port)
    requires TreeOk(t) && IsAdapter(t, src) && IsAdapter(t, dst) && src != dst
    ensures Chained(t, dst, Hops(t, src, dst))
  {
    var hs := Hops(t, src, dst);
    forall i | 0 <= i < |hs|
      ensures LeadsTo(t, dst, hs[i].inPort, Some(hs[i].outPort))
    {
      CrossRouter(t, src, dst, i);
    }
    forall i | 0 <= i < |hs| - 1
      ensures LeadsTo(t, dst, hs[i].outPort, Some(hs[i + 1].inPort))
    {
      CrossLink(t, src, dst, i);
    }
  }

  /** The ports of a hop list in walk order. */
  function Ports(hs: seq<Hop>): (ps: seq<Port>)
    ensures |ps| == 2 * |hs|
  {
    if hs == [] then [] else Ports(hs[..|hs| - 1]) + [hs[|hs| - 1].inPort, hs[|hs| - 1].outPort]
  }

  lemma PortsSnoc(hs: seq<Hop>, i: nat)
    requires i < |hs|
    ensures Ports(hs[..i + 1]) == Ports(hs[..i]) + [hs[i].inPort, hs[i].outPort]
  {
    assert hs[..i + 1][..i] == hs[..i];
  }

  /**
   The loop of tb_for_each_port_on_path() over a chained hop list. It visits
   every port of every hop, in order, and terminates.
   */
  method WalkHops(t: Routers, src: Port, dst: Port, ghost hs: seq<Hop>) returns (ports: seq<Port>)
    requires hs != [] && hs[0].inPort == src && Chained(t, dst, hs)
    ensures ports == Ports(hs)
  {
    ports := [];
    var next := Some(src);
    ghost var i, inside := 0, false;
    while next.Some?
      invariant i <= |hs| && (inside ==> i < |hs|)
      invariant ports == Ports(hs[..i]) + if inside then [hs[i].inPort] else []
      invariant next == if i == |hs| then None else if inside then Some(hs[i].outPort) else Some(hs[i].inPort)
      decreases |hs| - i, !inside
    {
      ghost var after := if !inside then Some(hs[i].outPort) else if i + 1 < |hs| then Some(hs[i + 1].inPort) else None;
      assert LeadsTo(t, dst, next.value, after);
      ports := ports + [next.value];
      next := NextPort(t, dst, next.value);
      if inside {
        PortsSnoc(hs, i);
        i, inside := i + 1, false;
      } else {
        inside := true;
      }
    }
    assert hs[..i] == hs;
  }

  /** Between two distinct adapters the walk is the tree path, of at most TB_PATH_MAX_HOPS hops. */
  method WalkPorts(t: Routers, src: Port, dst: Port) returns (ports: seq<Port>)
    requires TreeOk(t) && IsAdapter(t, src) && IsAdapter(t, dst) && src != dst
    ensures ports == Ports(Hops(t, src, dst))
    ensures ports[0] == src && ports[|ports| - 1] == dst
    ensures |ports| / 2 <= TB_PATH_MAX_HOPS
  {
    HopsChained(t, src, dst);
    PortsEnds(Hops(t, src, dst));
    ports := WalkHops(t, src, dst, Hops(t, src, dst));
  }

  lemma {:induction false} PortsEnds(hs: seq<Hop>)
    requires hs != []
    ensures Ports(hs)[0] == hs[0].inPort && Ports(hs)[|Ports(hs)| - 1] == hs[|hs| - 1].outPort
  {
    if |hs| > 1 {
      PortsEnds(hs[..|hs| - 1]);
    }
  }

  /** Each router of the walk is entered and left once, by linked ports; no router repeats. */
  lemma WalkVisits(t: Routers, src: Port, dst: Port, i: nat, k: nat)
    requires TreeOk(t) && IsAdapter(t, src) && IsAdapter(t, dst) && src != dst
    requires i < k <= Links(src.sw, dst.sw)
    ensures Ingress(t, src, dst, i).sw == Egress(t, src, dst, i).sw == RouterAt(src.sw, dst.sw, i)
    ensures RouterAt(src.sw, dst.sw, i) in t && RouterAt(src.sw, dst.sw, k) in t
    ensures RouterAt(src.sw, dst.sw, i) != RouterAt(src.sw, dst.sw, k)
    ensures Remote(t, Egress(t, src, dst, i)) == Some(Ingress(t, src, dst, i + 1))
  {
    IngressPort(t, src, dst, i);
    CrossLink(t, src, dst, i);
    RouterAtIn(t, src.sw, dst.sw, k);
    RoutersDistinct(src.sw, dst.sw, i, k);
  }

  // ----- the way back

  lemma {:induction false} CommonSymmetric(a: Path, b: Path)
    ensures Common(a, b) == Common(b, a)
  {
    if a != [] && b != [] && a[0] == b[0] {
      CommonSymmetric(a[1..], b[1..]);
    }
  }

  lemma RouterBack(a: Path, b: Path, i: nat)
    requires i <= Links(a, b)
    ensures Links(b, a) == Links(a, b) && RouterAt(b, a, Links(a, b) - i) == RouterAt(a, b, i)
  {
    CommonSymmetric(a, b);
  }

  /** What is the ingress in one direction is the egress in the other. */
  lemma PortsBack(t: Routers, src: Port, dst: Port, i: nat)
    requires i <= Links(src.sw, dst.sw)
    ensures Links(dst.sw, src.sw) == Links(src.sw, dst.sw)
    ensures Egress(t, dst, src, Links(src.sw, dst.sw) - i) == Ingress(t, src, dst, i)
  {
    CommonSymmetric(src.sw, dst.sw);
    RouterBack(src.sw, dst.sw, i);
  }

  /** The path in the other direction takes the same hops backwards, each turned around. */
  lemma HopsReversed(t: Routers, src: Port, dst: Port, i: nat)
    requires i <= Links(src.sw, dst.sw)
    ensures Links(dst.sw, src.sw) == Links(src.sw, dst.sw)
    ensures var h, k := Hops(t, src, dst)[i], Links(src.sw, dst.sw) - i;
            Hops(t, dst, src)[k] == Hop(h.outPort, h.inPort)
  {
    PortsBack(t, src, dst, i);
    PortsBack(t, dst, src, Links(src.sw, dst.sw) - i);
  }
}
