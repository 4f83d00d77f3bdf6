/**
 The state a control request carries (ctl.h): transmission, local submission
 and peer protocol, and how replies are told apart.
 */
module CtlRequest {

  datatype Tx = TxIdle | TxQueued | TxConsumed | TxCanceled
  datatype TxEvent = EvQueued | EvConsumed | EvCanceled
  datatype Local = LocalDisabled | LocalWaiting | LocalAccepted | LocalFailed | LocalTimedOut
  datatype Peer = PeerDisabled | PeerWaiting | PeerMatched | PeerCanceled | PeerTimedOut

  datatype Event =
    | EvNone
    | EvLocalAccepted
    | EvLocalFailed
    | EvLocalTimedOut
    | EvPeerMatched
    | EvPeerTimedOut
    | EvRequestCanceled

  datatype Action = NoAction | Complete | Fail

  datatype State = State(tx: Tx, local: Local, peer: Peer)

  /** tb_cfg_request_tx_step() */
  function TxStep(s: State, ev: TxEvent): (t: State) {
    match s.tx
    case TxIdle => if ev == EvQueued then s.(tx := TxQueued) else s
    case TxQueued =>
      if ev == EvConsumed then s.(tx := TxConsumed) else if ev == EvCanceled then s.(tx := TxCanceled) else s
    case _ => s
  }

  /** tb_cfg_request_state_step() */
  function StateStep(s: State, ev: Event): (r: (State, Action)) {
    match ev
    case EvLocalAccepted => (if s.local == LocalWaiting then s.(local := LocalAccepted) else s, NoAction)
    case EvLocalFailed => (if s.local == LocalWaiting then s.(local := LocalFailed) else s, NoAction)
    case EvLocalTimedOut => (if s.local == LocalWaiting then s.(local := LocalTimedOut) else s, NoAction)
    case EvPeerMatched => if s.peer == PeerWaiting then (s.(peer := PeerMatched), Complete) else (s, NoAction)
    case EvPeerTimedOut => if s.peer == PeerWaiting then (s.(peer := PeerTimedOut), Fail) else (s, NoAction)
    case EvRequestCanceled => if s.peer == PeerWaiting then (s.(peer := PeerCanceled), Fail) else (s, NoAction)
    case EvNone => (s, NoAction)
  }

  /** tb_cfg_request_stop_state() */
  function StopState(s: State): (t: State) {
    var u := if s.local == LocalWaiting then s.(local := LocalTimedOut) else s;
    if u.peer == PeerWaiting then u.(peer := PeerCanceled) else u
  }

  /** Anything that can happen to the state of one request. */
  datatype Input = Transmit(tx: TxEvent) | Happen(ev: Event) | Stop

  function Apply(s: State, i: Input): (t: State) {
    match i
    case Transmit(ev) => TxStep(s, ev)
    case Happen(ev) => StateStep(s, ev).0
    case Stop => StopState(s)
  }

  function ApplyAll(s: State, xs: seq<Input>): (t: State)
    decreases xs
  {
    if xs == [] then s else Apply(ApplyAll(s, xs[..|xs| - 1]), xs[|xs| - 1])
  }

  function ActionOf(s: State, i: Input): (n: nat) {
    if i.Happen? && StateStep(s, i.ev).1 != NoAction then 1 else 0
  }

  /** How often the inputs made the state machine ask for completion or failure. */
  function Actions(s: State, xs: seq<Input>): (n: nat)
    decreases xs
  {
    if xs == [] then 0
    else Actions(s, xs[..|xs| - 1]) + ActionOf(ApplyAll(s, xs[..|xs| - 1]), xs[|xs| - 1])
  }

  /**
   Over any run a request asks to be completed or failed at most once, and only
   if a peer was awaited; once it did, the peer state is final.
   */
  lemma {:induction false} AtMostOneAction(s: State, xs: seq<Input>)
    ensures Actions(s, xs) <= 1
    ensures Actions(s, xs) == 1 ==> s.peer == PeerWaiting && ApplyAll(s, xs).peer != PeerWaiting
    ensures ApplyAll(s, xs).peer == PeerWaiting ==> s.peer == PeerWaiting
    decreases xs
  {
    if xs != [] {
      AtMostOneAction(s, xs[..|xs| - 1]);
    }
  }

  predicate FinalTx(t: Tx) { t == TxConsumed || t == TxCanceled }
  predicate FinalLocal(l: Local) { l != LocalWaiting }
  predicate FinalPeer(p: Peer) { p != PeerWaiting }

  /** Every terminal state is absorbing, under every further input. */
  lemma {:induction false} TerminalAbsorbing(s: State, xs: seq<Input>)
    ensures FinalTx(s.tx) ==> ApplyAll(s, xs).tx == s.tx
    ensures FinalLocal(s.local) ==> ApplyAll(s, xs).local == s.local
    ensures FinalPeer(s.peer) ==> ApplyAll(s, xs).peer == s.peer
    decreases xs
  {
    if xs != [] {
      TerminalAbsorbing(s, xs[..|xs| - 1]);
    }
  }

  /** What the first event that settles a part of the state makes of it, whatever follows. */
  predicate LocalSettledBy(first: Input, local: Local) {
    && (first == Happen(EvLocalAccepted) ==> local == LocalAccepted)
    && (first == Happen(EvLocalFailed) ==> local == LocalFailed)
    && (first == Happen(EvLocalTimedOut) || first == Stop ==> local == LocalTimedOut)
  }

  predicate PeerSettledBy(first: Input, peer: Peer) {
    && (first == Happen(EvPeerMatched) ==> peer == PeerMatched)
    && (first == Happen(EvPeerTimedOut) ==> peer == PeerTimedOut)
    && (first == Happen(EvRequestCanceled) || first == Stop ==> peer == PeerCanceled)
  }

  predicate TxSettledBy(first: Input, tx: Tx) {
    && (first == Transmit(EvConsumed) ==> tx == TxConsumed)
    && (first == Transmit(EvCanceled) ==> tx == TxCanceled)
  }

  lemma FirstEventDecides(s: State, first: Input, xs: seq<Input>)
    ensures var t := ApplyAll(Apply(s, first), xs);
            && (s.local == LocalWaiting ==> LocalSettledBy(first, t.local))
            && (s.peer == PeerWaiting ==> PeerSettledBy(first, t.peer))
            && (s.tx == TxQueued ==> TxSettledBy(first, t.tx))
  {
    TerminalAbsorbing(Apply(s, first), xs);
  }

  /** Nothing else moves: an event leaves the parts of the state it does not speak of. */
  lemma OthersUntouched(s: State, i: Input)
    ensures Apply(s, i).tx != s.tx ==> i.Transmit?
    ensures Apply(s, i).local != s.local ==>
              s.local == LocalWaiting && i in {Happen(EvLocalAccepted), Happen(EvLocalFailed), Happen(EvLocalTimedOut), Stop}
    ensures Apply(s, i).peer != s.peer ==>
              s.peer == PeerWaiting && i in {Happen(EvPeerMatched), Happen(EvPeerTimedOut), Happen(EvRequestCanceled), Stop}
    ensures i.Happen? ==> (StateStep(s, i.ev).1 == Complete <==> s.peer == PeerWaiting && i.ev == EvPeerMatched)
    ensures i.Happen? ==> (StateStep(s, i.ev).1 == Fail <==>
                             s.peer == PeerWaiting && (i.ev == EvPeerTimedOut || i.ev == EvRequestCanceled))
  {
    match i
    case Transmit(ev) =>
    case Happen(ev) => match ev { case EvNone => case _ => }
    case Stop =>
  }

  // ----- matching replies to attempts

  const SEQUENCE_COUNT := 4
  const RETRIES := 4

  datatype Address = Address(offset: nat, length: nat, space: nat, sequence: nat)

  datatype PkgType = PkgRead | PkgWrite | PkgError | PkgReset | PkgOther

  datatype Packet = Packet(kind: PkgType, route: nat, size: nat, addr: Address)

  /** tb_cfg_request_sequence(); attempt numbers are unsigned int and wrap. */
  function Sequence(attempt: nat): (n: nat) {
    attempt % 0x1_0000_0000 % SEQUENCE_COUNT
  }

  /** tb_cfg_address_matches(); the port is not compared. */
  predicate AddressMatches(a: Address, b: Address) {
    a.offset == b.offset && a.length == b.length && a.space == b.space && a.sequence == b.sequence
  }

  datatype Wanted = Wanted(kind: PkgType, route: nat, size: nat, addr: Address)

  /** tb_cfg_match() */
  predicate Matches(want: Wanted, pkg: Packet) {
    || pkg.kind == PkgError
    || (&& pkg.kind == want.kind
        && pkg.route == want.route
        && pkg.size == want.size
        && ((pkg.kind == PkgRead || pkg.kind == PkgWrite) ==> AddressMatches(want.addr, pkg.addr)))
  }

  /** A read or write reply belongs to one request only: same kind, router, size and address. */
  lemma ReplyIdentifies(a: Wanted, b: Wanted, pkg: Packet)
    requires (pkg.kind == PkgRead || pkg.kind == PkgWrite) && Matches(a, pkg)
    ensures a.route == pkg.route && a.kind == pkg.kind && a.size == pkg.size && a.addr == pkg.addr
    ensures Matches(b, pkg) <==> a == b
  {
    assert AddressMatches(a.addr, pkg.addr) ==> a.addr == pkg.addr;
    assert AddressMatches(b.addr, pkg.addr) ==> b.addr == pkg.addr;
  }

  /** An error packet matches whatever is waited for; nothing else from another router ever does. */
  lemma OtherRouterNeverMatches(want: Wanted, pkg: Packet)
    requires pkg.route != want.route
    ensures Matches(want, pkg) <==> pkg.kind == PkgError
  {
  }

  /** The request of attempt number `first + k` of one config access. */
  function Attempt(kind: PkgType, route: nat, offset: nat, length: nat, space: nat, first: nat, k: nat): (w: Wanted) {
    Wanted(kind, route, 12 + 4 * length, Address(offset, length, space, Sequence(first + k)))
  }

  lemma WrapKeepsSequence(attempt: nat)
    ensures Sequence(attempt) == attempt % SEQUENCE_COUNT
  {
    var q, r := attempt / 0x1_0000_0000, attempt % 0x1_0000_0000;
    assert attempt == 4 * (q * 0x4000_0000 + r / 4) + r % 4;
  }

  lemma SequencesDiffer(first: nat, j: nat, k: nat)
    requires j < k < RETRIES
    ensures Sequence(first + j) != Sequence(first + k)
  {
    WrapKeepsSequence(first + j);
    WrapKeepsSequence(first + k);
    NearbyDiffer(first + j, k - j);
  }

  lemma NearbyDiffer(a: nat, gap: nat)
    requires 0 < gap < SEQUENCE_COUNT
    ensures a % SEQUENCE_COUNT != (a + gap) % SEQUENCE_COUNT
  {
  }

  /**
   Within one retried access, a reply that is not an error and answers attempt
   `j` is accepted by attempt `k` only if they are the same attempt.
   */
  lemma LateReplyNeverMatches(kind: PkgType, route: nat, offset: nat, length: nat, space: nat, first: nat,
                              j: nat, k: nat, pkg: Packet)
    requires (kind == PkgRead || kind == PkgWrite) && j < RETRIES && k < RETRIES
    requires pkg.kind != PkgError && Matches(Attempt(kind, route, offset, length, space, first, j), pkg)
    ensures Matches(Attempt(kind, route, offset, length, space, first, k), pkg) <==> j == k
  {
    if j < k {
      SequencesDiffer(first, j, k);
    } else if k < j {
      SequencesDiffer(first, k, j);
    }
  }
}
