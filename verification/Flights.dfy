/** Where every datagram in flight is and where it came from: the invariant behind provenance,
    correlation and exact reachability. */
module Flights {
  import opened Wrappers
  import opened Ip
  import opened Messages
  import opened Node
  import opened Paths
  import opened World

  // ---------- the graph of next hops ----------

  /** One hop towards a stealth: where a datagram sent on from a is opened, if it is. */
  function Hop(topo: Topology, toward: string): Addr -> Option<Addr> {
    a =>
      if a !in topo then None
      else
        match NextPeer(topo[a], toward)
        case None => None
        case Some(p) => if p.addr in topo && Opens(topo[p.addr], topo[a], p) then Some(p.addr) else None
  }

  /** The nodes at which a message towards that stealth, with that inner destination, ends. */
  function Stops(topo: Topology, toward: string, inner: Option<IpAddr>): Addr -> bool {
    a => a in topo && EndsAt(topo[a], toward, inner)
  }

  function At(topo: Topology, from: Addr, toward: string, k: nat): Option<Addr> {
    Walk(Hop(topo, toward), from, k)
  }

  /** The first n nodes of the chain exist and let the message pass. */
  ghost predicate PassedBy(topo: Topology, from: Addr, toward: string, inner: Option<IpAddr>, n: nat) {
    forall k :: 1 <= k <= n ==>
      && Walk(Hop(topo, toward), from, k).Some?
      && !Stops(topo, toward, inner)(Walk(Hop(topo, toward), from, k).value)
  }

  /** The chain from that node first ends at `at`, after k hops, k at most 16. */
  ghost predicate ReachesIn(topo: Topology, from: Addr, toward: string, inner: Option<IpAddr>, at: Addr, k: nat) {
    k <= MAX_TTL && FirstMeets(Hop(topo, toward), from, Stops(topo, toward, inner), k) && At(topo, from, toward, k) == Some(at)
  }

  ghost predicate Reaches(topo: Topology, from: Addr, toward: string, inner: Option<IpAddr>, at: Addr) {
    exists k: nat :: ReachesIn(topo, from, toward, inner, at, k)
  }

  lemma {:induction false} ReachedOnce(topo: Topology, from: Addr, toward: string, inner: Option<IpAddr>, a: Addr, b: Addr)
    requires Reaches(topo, from, toward, inner, a) && Reaches(topo, from, toward, inner, b)
    ensures a == b
  {
    var k: nat :| ReachesIn(topo, from, toward, inner, a, k);
    var m: nat :| ReachesIn(topo, from, toward, inner, b, m);
    MeetingUnique(Hop(topo, toward), from, Stops(topo, toward, inner), k, m);
  }

  /** A chain that passes n nodes by and then breaks off ends nowhere beyond them. */
  lemma {:induction false} NotReachedIn(topo: Topology, from: Addr, toward: string, inner: Option<IpAddr>, n: nat, at: Addr, k: nat)
    requires PassedBy(topo, from, toward, inner, n)
    requires n >= k || At(topo, from, toward, n + 1).None?
    ensures !ReachesIn(topo, from, toward, inner, at, k)
  {
    var m := n + 1;
    if ReachesIn(topo, from, toward, inner, at, k) && k >= m {
      WalkPrefix(Hop(topo, toward), from, m, k);
    }
  }

  /** A chain that passes n nodes by and then breaks off or is out of hops reaches nothing. */
  lemma {:induction false} NotReached(topo: Topology, from: Addr, toward: string, inner: Option<IpAddr>, n: nat, at: Addr)
    requires PassedBy(topo, from, toward, inner, n)
    requires n >= MAX_TTL || At(topo, from, toward, n + 1).None?
    ensures !Reaches(topo, from, toward, inner, at)
  {
    if Reaches(topo, from, toward, inner, at) {
      var k: nat :| ReachesIn(topo, from, toward, inner, at, k);
      NotReachedIn(topo, from, toward, inner, n, at, k);
    }
  }

  lemma {:induction false} ReachedNext(topo: Topology, from: Addr, toward: string, inner: Option<IpAddr>, n: nat, at: Addr)
    requires PassedBy(topo, from, toward, inner, n) && n < MAX_TTL
    requires At(topo, from, toward, n + 1) == Some(at) && Stops(topo, toward, inner)(at)
    ensures Reaches(topo, from, toward, inner, at)
  {
    assert ReachesIn(topo, from, toward, inner, at, n + 1);
  }

  // ---------- messages on their way ----------

  /** The message has got n nodes down the chain from that node and sits between the node it has
      got to and that node's next peer; nobody it passed should have kept it. */
  ghost predicate Along(topo: Topology, f: Flight, from: Addr, n: nat) {
    var msg := f.Msg();
    && msg.Routed()
    && var here := At(topo, from, msg.Toward(), n);
    && here.Some? && here.value in topo
    && NextPeer(topo[here.value], msg.Toward()).Some?
    && f.dg == SendDirect(topo[here.value], NextPeer(topo[here.value], msg.Toward()).value, msg)
    && PassedBy(topo, from, msg.Toward(), InnerDestination(msg), n)
  }

  /** f.hops relays since f.start, every one of which cost a unit of TTL. */
  ghost predicate OnItsWay(topo: Topology, f: Flight) {
    Along(topo, f, f.start, f.hops) && f.Msg().Ttl() + f.hops == MAX_TTL
  }

  /** The next node of the chain is the receiver, if it opens the datagram. */
  lemma {:induction false} NextAlong(topo: Topology, f: Flight, from: Addr, n: nat)
    requires Along(topo, f, from, n)
    ensures At(topo, from, f.Msg().Toward(), n + 1)
            == if f.dg.to in topo && OpenFrame(topo[f.dg.to], f.dg.frame).Success? then Some(f.dg.to) else None
    ensures f.dg.to in topo && OpenFrame(topo[f.dg.to], f.dg.frame).Success? ==>
              OpenFrame(topo[f.dg.to], f.dg.frame).value == f.Msg()
  {
    var here := At(topo, from, f.Msg().Toward(), n).value;
    var peer := NextPeer(topo[here], f.Msg().Toward()).value;
    if f.dg.to in topo {
      OpensSent(topo[f.dg.to], topo[here], peer, f.Msg());
    }
  }

  lemma {:induction false} NextStop(topo: Topology, f: Flight)
    requires OnItsWay(topo, f)
    ensures At(topo, f.start, f.Msg().Toward(), f.hops + 1)
            == if f.dg.to in topo && OpenFrame(topo[f.dg.to], f.dg.frame).Success? then Some(f.dg.to) else None
    ensures f.dg.to in topo && OpenFrame(topo[f.dg.to], f.dg.frame).Success? ==>
              OpenFrame(topo[f.dg.to], f.dg.frame).value == f.Msg()
  {
    NextAlong(topo, f, f.start, f.hops);
  }

  lemma {:induction false} SentOnItsWay(topo: Topology, at: Addr, msg: Message, cause: nat)
    requires at in topo && msg.Routed() && msg.Ttl() == MAX_TTL
    requires ForwardByStealth(topo[at], msg.Toward(), msg).Success?
    ensures OnItsWay(topo, Flight(ForwardByStealth(topo[at], msg.Toward(), msg).value, cause, at, 0))
  {
    ForwardUsesNextPeer(topo[at], msg.Toward(), msg);
  }

  /** A relay takes a message one node further. */
  lemma {:induction false} RelayedAlong(topo: Topology, f: Flight, from: Addr, n: nat)
    requires Along(topo, f, from, n) && f.dg.to in topo
    requires OpenFrame(topo[f.dg.to], f.dg.frame).Success?
    requires Relays(topo[f.dg.to], f.Msg()) && f.Msg().Ttl() > 0
    requires ForwardByStealth(topo[f.dg.to], f.Msg().Toward(), f.Msg().Aged()).Success?
    ensures Along(topo, Flight(ForwardByStealth(topo[f.dg.to], f.Msg().Toward(), f.Msg().Aged()).value,
                               f.cause, f.start, f.hops + 1), from, n + 1)
  {
    NextAlong(topo, f, from, n);
    ForwardUsesNextPeer(topo[f.dg.to], f.Msg().Toward(), f.Msg().Aged());
  }

  /** A relay keeps a message on its way. */
  lemma {:induction false} RelayedOnItsWay(topo: Topology, f: Flight)
    requires OnItsWay(topo, f) && f.dg.to in topo
    requires OpenFrame(topo[f.dg.to], f.dg.frame).Success?
    requires Relays(topo[f.dg.to], f.Msg()) && f.Msg().Ttl() > 0
    requires ForwardByStealth(topo[f.dg.to], f.Msg().Toward(), f.Msg().Aged()).Success?
    ensures OnItsWay(topo, Flight(ForwardByStealth(topo[f.dg.to], f.Msg().Toward(), f.Msg().Aged()).value,
                                  f.cause, f.start, f.hops + 1))
  {
    RelayedAlong(topo, f, f.start, f.hops);
    ForwardUsesNextPeer(topo[f.dg.to], f.Msg().Toward(), f.Msg().Aged());
  }

  /** The three ways a relayed message gets stuck: each shows that the chain reaches nothing. */
  lemma {:induction false} StuckReachesNothing(topo: Topology, f: Flight, at: Addr)
    requires OnItsWay(topo, f)
    requires f.dg.to !in topo || OpenFrame(topo[f.dg.to], f.dg.frame).Failure? || f.Msg().Ttl() == 0
             || (Relays(topo[f.dg.to], f.Msg()) &&
                 (f.Msg().Ttl() == 1 || ForwardByStealth(topo[f.dg.to], f.Msg().Toward(), f.Msg().Aged()).Failure?))
    ensures !Reaches(topo, f.start, f.Msg().Toward(), InnerDestination(f.Msg()), at)
  {
    NextStop(topo, f);
    var toward, inner := f.Msg().Toward(), InnerDestination(f.Msg());
    if f.dg.to !in topo || OpenFrame(topo[f.dg.to], f.dg.frame).Failure? || f.Msg().Ttl() == 0 {
      NotReached(topo, f.start, toward, inner, f.hops, at);
    } else {
      assert PassedBy(topo, f.start, toward, inner, f.hops + 1);
      ForwardUsesNextPeer(topo[f.dg.to], toward, f.Msg().Aged());
      NotReached(topo, f.start, toward, inner, f.hops + 1, at);
    }
  }

  lemma {:induction false} EndingReaches(topo: Topology, f: Flight)
    requires OnItsWay(topo, f) && f.dg.to in topo && f.Msg().Ttl() > 0
    requires OpenFrame(topo[f.dg.to], f.dg.frame).Success? && !Relays(topo[f.dg.to], f.Msg())
    ensures Reaches(topo, f.start, f.Msg().Toward(), InnerDestination(f.Msg()), f.dg.to)
  {
    NextStop(topo, f);
    ReachedNext(topo, f.start, f.Msg().Toward(), InnerDestination(f.Msg()), f.hops, f.dg.to);
  }

  // ---------- what the flights of each cause carry ----------

  /** What made origin's node put packet, read from its TUN, on its way to dst. */
  ghost predicate ChosenBy(cfg: Config, packet: seq<Byte>, dst: string) {
    && cfg.hasTun && PacketDestination(packet).Some? && !PacketDestination(packet).value.IsMulticast()
    && cfg.routing.Lookup(PacketDestination(packet).value).Some?
    && cfg.routing.Lookup(PacketDestination(packet).value).value.stealth == dst
  }

  ghost predicate DataFlightOk(topo: Topology, f: Flight, origin: Addr, packet: seq<Byte>, dst: string) {
    && origin in topo && ChosenBy(topo[origin], packet, dst)
    && OnItsWay(topo, f) && f.start == origin
    && f.hops < MAX_TTL
    && f.Msg() == Data(topo[origin].stealth, dst, MAX_TTL - f.hops, packet)
  }

  /** r is where requests of origin for that target end up. */
  ghost predicate Responder(topo: Topology, origin: Addr, target: string, r: Addr) {
    r in topo && topo[r].stealth == target && Reaches(topo, origin, target, None, r)
  }

  ghost predicate RequestFlightOk(topo: Topology, handled: set<(Addr, nat, string)>, f: Flight,
                                  origin: Addr, id: nat, kind: Kind, target: string)
  {
    && origin in topo && OnItsWay(topo, f)
    && match f.Msg()
       case PingReq(i, src, t, _, _) =>
         kind == PingKind && f.start == origin && i == id && src == topo[origin].stealth && t == target
       case PublicClientsReq(i, src, t, _) =>
         kind == ClientsKind && f.start == origin && i == id && src == topo[origin].stealth && t == target
       case PingResp(i, src, dst, _, responderId, responderStealth) =>
         && kind == PingKind && i == id && dst == topo[origin].stealth
         && Responder(topo, origin, target, f.start)
         && src == target && responderStealth == target && responderId == topo[f.start].id
         && (f.start, id, topo[origin].stealth) in handled
       case PublicClientsResp(i, src, dst, _, gateway, _) =>
         && kind == ClientsKind && i == id && dst == topo[origin].stealth
         && Responder(topo, origin, target, f.start)
         && src == target && gateway == target
       case _ => false
  }

  /** A node that registers itself: a client whose configuration names a known home gateway. */
  predicate Registers(topo: Topology, origin: Addr) {
    origin in topo && topo[origin].role == Client && topo[origin].client.Some? && HomePeer(topo[origin]).Success?
  }

  /** The stealth a node registers at. */
  function HomeStealth(topo: Topology, origin: Addr): string
    requires Registers(topo, origin)
  {
    HomePeer(topo[origin]).value.stealth
  }

  /** Where a registration is first opened. It goes to the address of the home peer, whatever
      the forwarding tables say. */
  function Entrance(topo: Topology, origin: Addr): Option<Addr>
    requires Registers(topo, origin)
  {
    var home := HomePeer(topo[origin]).value;
    if home.addr in topo && Opens(topo[home.addr], topo[origin], home) then Some(home.addr) else None
  }

  /** A registration of origin first ends at g, after at most 16 hops: one to the entrance, and
      from there along the next hops towards the home gateway's stealth. */
  ghost predicate Enrols(topo: Topology, origin: Addr, g: Addr) {
    && Registers(topo, origin) && Entrance(topo, origin).Some?
    && var e := Entrance(topo, origin).value;
    if topo[e].stealth == HomeStealth(topo, origin) then g == e
    else exists k: nat :: k < MAX_TTL && ReachesIn(topo, e, HomeStealth(topo, origin), None, g, k)
  }

  lemma {:induction false} EnrolledOnce(topo: Topology, origin: Addr, g: Addr, h: Addr)
    requires Enrols(topo, origin, g) && Enrols(topo, origin, h)
    ensures g == h
  {
    var e := Entrance(topo, origin).value;
    if topo[e].stealth != HomeStealth(topo, origin) {
      ReachedOnce(topo, e, HomeStealth(topo, origin), None, g, h);
    }
  }

  /** The registration is on its way to the entrance, or has been let through there and is on its
      way along the chain. */
  ghost predicate RegistrationOk(topo: Topology, f: Flight, origin: Addr, id: nat) {
    && Registers(topo, origin) && f.start == origin && f.hops <= MAX_TTL
    && f.Msg() == ClientRegister(id, topo[origin].stealth, HomeStealth(topo, origin),
                                 OwnEntry(topo[origin], topo[origin].client.value), MAX_TTL - f.hops)
    && if f.hops == 0 then f.dg == SendDirect(topo[origin], HomePeer(topo[origin]).value, f.Msg())
       else
         && Entrance(topo, origin).Some? && topo[Entrance(topo, origin).value].stealth != HomeStealth(topo, origin)
         && Along(topo, f, Entrance(topo, origin).value, f.hops - 1)
  }

  function Ack(topo: Topology, origin: Addr, g: Addr, id: nat): Message
    requires origin in topo && g in topo
  {
    ClientRegisterAck(id, topo[g].stealth, topo[origin].stealth, MAX_TTL, true, "registered")
  }

  /** An acknowledgement is on its first and only hop, from the node that accepted. */
  ghost predicate AckOk(topo: Topology, f: Flight, origin: Addr, id: nat) {
    && Enrols(topo, origin, f.start) && f.start in topo && NextPeer(topo[f.start], topo[origin].stealth).Some?
    && f.dg == SendDirect(topo[f.start], NextPeer(topo[f.start], topo[origin].stealth).value, Ack(topo, origin, f.start, id))
  }

  ghost predicate RegisterFlightOk(topo: Topology, f: Flight, origin: Addr, id: nat) {
    if f.Msg().ClientRegisterAck? then AckOk(topo, f, origin, id) else RegistrationOk(topo, f, origin, id)
  }

  ghost predicate ControlFlightOk(f: Flight) {
    f.Msg() == Keepalive(4) || f.Msg().BootstrapReq? || f.Msg().BootstrapResp?
  }

  ghost predicate FlightOk(topo: Topology, causes: seq<Cause>, handled: set<(Addr, nat, string)>, f: Flight) {
    && f.cause < |causes|
    && match causes[f.cause]
       case DataFrom(origin, packet, dst) => DataFlightOk(topo, f, origin, packet, dst)
       case RequestFrom(origin, id, kind, target) => RequestFlightOk(topo, handled, f, origin, id, kind, target)
       case RegisterFrom(origin, id) => RegisterFlightOk(topo, f, origin, id)
       case ControlFrom(_) => ControlFlightOk(f)
  }

  // ---------- what the end of a flight certifies ----------

  /** The packet's chain ends within 16 hops at a node with a TUN. */
  ghost predicate Deliverable(topo: Topology, origin: Addr, packet: seq<Byte>, dst: string) {
    exists at :: at in topo && topo[at].hasTun && Reaches(topo, origin, dst, PacketDestination(packet), at)
  }

  /** The chain to the target and the chain back from where it ends both end within 16 hops. */
  ghost predicate RoundTrip(topo: Topology, origin: Addr, target: string) {
    origin in topo &&
    exists r, b :: Reaches(topo, origin, target, None, r) && Reaches(topo, r, topo[origin].stealth, None, b)
  }

  /** The first hop back from the node where registrations of origin end leads to at. */
  ghost predicate AckOpens(topo: Topology, origin: Addr, at: Addr) {
    origin in topo && exists g :: Enrols(topo, origin, g) && Hop(topo, topo[origin].stealth)(g) == Some(at)
  }

  ghost predicate EndOk(topo: Topology, causes: seq<Cause>, e: End) {
    && e.cause < |causes|
    && match causes[e.cause]
       case DataFrom(origin, packet, dst) =>
         (match e.fate
          case Written(at, bytes) =>
            && bytes == packet && origin in topo && ChosenBy(topo[origin], packet, dst)
            && at in topo && topo[at].hasTun && Reaches(topo, origin, dst, PacketDestination(packet), at)
          case Replied(_) | Acknowledged(_) => false
          case Discarded => !Deliverable(topo, origin, packet, dst)
          case Lost => true)
       case RequestFrom(origin, id, kind, target) =>
         origin in topo &&
         (match e.fate
          case Written(_, _) | Acknowledged(_) => false
          case Replied(at) => at in topo && topo[at].stealth == topo[origin].stealth && RoundTrip(topo, origin, target)
          case Discarded => !RoundTrip(topo, origin, target)
          case Lost => true)
       case RegisterFrom(origin, id) =>
         Registers(topo, origin) &&
         (match e.fate
          case Written(_, _) | Replied(_) => false
          case Acknowledged(at) => AckOpens(topo, origin, at)
          case Discarded => forall g :: Enrols(topo, origin, g) ==> Hop(topo, topo[origin].stealth)(g).None?
          case Lost => true)
       case ControlFrom(_) => e.fate == Lost || e.fate == Discarded
  }

  // ---------- one delivery ----------

  function HandledWith(cfg: Config, f: Flight, handled: set<(Addr, nat, string)>): set<(Addr, nat, string)> {
    handled + if AnswersPing(cfg, f) then {(f.dg.to, f.Msg().requestId, f.Msg().srcStealth)} else {}
  }

  ghost predicate SentOrEnded(topo: Topology, causes: seq<Cause>, handled: set<(Addr, nat, string)>, f: Flight, e: Effect)
    requires f.dg.to in topo
  {
    var cfg := topo[f.dg.to];
    && (e.sent.Some? ==> FlightOk(topo, causes, HandledWith(cfg, f, handled), NextFlight(cfg, f, e.sent.value)))
    && (e.sent.None? ==> EndOk(topo, causes, End(f.cause, FateOf(cfg, f, e))))
  }

  lemma {:induction false} StuckIsUndeliverable(topo: Topology, f: Flight, origin: Addr, packet: seq<Byte>, dst: string)
    requires DataFlightOk(topo, f, origin, packet, dst)
    requires f.dg.to !in topo || OpenFrame(topo[f.dg.to], f.dg.frame).Failure? || f.Msg().Ttl() == 0
             || (Relays(topo[f.dg.to], f.Msg()) &&
                 (f.Msg().Ttl() == 1 || ForwardByStealth(topo[f.dg.to], f.Msg().Toward(), f.Msg().Aged()).Failure?))
    ensures !Deliverable(topo, origin, packet, dst)
  {
    forall at ensures !Reaches(topo, origin, dst, PacketDestination(packet), at) {
      StuckReachesNothing(topo, f, at);
    }
  }

  lemma {:induction false} NoTunIsUndeliverable(topo: Topology, f: Flight, origin: Addr, packet: seq<Byte>, dst: string)
    requires DataFlightOk(topo, f, origin, packet, dst)
    requires f.dg.to in topo && OpenFrame(topo[f.dg.to], f.dg.frame).Success? && f.Msg().Ttl() > 0
    requires !Relays(topo[f.dg.to], f.Msg()) && !topo[f.dg.to].hasTun
    ensures !Deliverable(topo, origin, packet, dst)
  {
    EndingReaches(topo, f);
    forall at | Reaches(topo, origin, dst, PacketDestination(packet), at) ensures at == f.dg.to {
      ReachedOnce(topo, origin, dst, PacketDestination(packet), at, f.dg.to);
    }
  }

  lemma {:induction false} ReceiveData(cfg: Config, t: Tables, f: Flight, order: seq<string>)
    requires Enumerates(order, t.registered) && f.Msg().Data?
    requires OpenFrame(cfg, f.dg.frame) == Success(f.Msg())
    ensures Receive(cfg, t, f.dg.frame, order) == ProcessData(cfg, t, f.Msg())
  {
  }

  lemma {:induction false} DataEnds(topo: Topology, causes: seq<Cause>, handled: set<(Addr, nat, string)>, f: Flight, t: Tables)
    requires FlightOk(topo, causes, handled, f) && causes[f.cause].DataFrom?
    requires f.dg.to in topo && OpenFrame(topo[f.dg.to], f.dg.frame).Success? && !Relays(topo[f.dg.to], f.Msg())
    ensures SentOrEnded(topo, causes, handled, f, ProcessData(topo[f.dg.to], t, f.Msg()))
  {
    EndingReaches(topo, f);
    if !topo[f.dg.to].hasTun {
      NoTunIsUndeliverable(topo, f, causes[f.cause].origin, causes[f.cause].packet, causes[f.cause].dst);
    }
  }

  lemma {:induction false} DataPasses(topo: Topology, causes: seq<Cause>, handled: set<(Addr, nat, string)>, f: Flight, t: Tables)
    requires FlightOk(topo, causes, handled, f) && causes[f.cause].DataFrom?
    requires f.dg.to in topo && OpenFrame(topo[f.dg.to], f.dg.frame).Success? && Relays(topo[f.dg.to], f.Msg())
    ensures SentOrEnded(topo, causes, handled, f, ProcessData(topo[f.dg.to], t, f.Msg()))
  {
    if f.Msg().ttl > 1 && ForwardByStealth(topo[f.dg.to], f.Msg().Toward(), f.Msg().Aged()).Success? {
      RelayedOnItsWay(topo, f);
    } else {
      StuckIsUndeliverable(topo, f, causes[f.cause].origin, causes[f.cause].packet, causes[f.cause].dst);
    }
  }

  lemma {:induction false} DeliverData(topo: Topology, causes: seq<Cause>, handled: set<(Addr, nat, string)>, f: Flight,
                                       t: Tables, order: seq<string>)
    requires FlightOk(topo, causes, handled, f) && causes[f.cause].DataFrom?
    requires f.dg.to in topo && Enumerates(order, t.registered)
    ensures SentOrEnded(topo, causes, handled, f, Receive(topo[f.dg.to], t, f.dg.frame, order))
    ensures Receive(topo[f.dg.to], t, f.dg.frame, order).outcome != Failure(UnparsablePacket)
  {
    var cfg := topo[f.dg.to];
    NextStop(topo, f);
    if OpenFrame(cfg, f.dg.frame).Failure? {
      StuckIsUndeliverable(topo, f, causes[f.cause].origin, causes[f.cause].packet, causes[f.cause].dst);
    } else {
      ReceiveData(cfg, t, f, order);
      if Relays(cfg, f.Msg()) {
        DataPasses(topo, causes, handled, f, t);
      } else {
        DataEnds(topo, causes, handled, f, t);
      }
    }
  }

  // ---------- deliveries of requests and replies ----------

  lemma {:induction false} ReceiveRouted(cfg: Config, t: Tables, f: Flight, order: seq<string>)
    requires Enumerates(order, t.registered) && f.Msg().Routed() && !f.Msg().Data?
    requires OpenFrame(cfg, f.dg.frame) == Success(f.Msg())
    ensures Receive(cfg, t, f.dg.frame, order)
            == if f.Msg().Ttl() == 0 then Quiet(t)
               else if Relays(cfg, f.Msg()) then Emit(t, ForwardByStealth(cfg, f.Msg().Toward(), f.Msg().Aged()))
               else Consume(cfg, t, f.Msg(), order)
  {
  }

  /** Nothing gets from the origin to the target and back when the way there leads nowhere. */
  lemma {:induction false} NoWayThere(topo: Topology, origin: Addr, target: string)
    requires forall at :: !Reaches(topo, origin, target, None, at)
    ensures !RoundTrip(topo, origin, target)
  {
  }

  lemma {:induction false} NoWayBack(topo: Topology, origin: Addr, target: string, r: Addr)
    requires origin in topo && Responder(topo, origin, target, r)
    requires forall at :: !Reaches(topo, r, topo[origin].stealth, None, at)
    ensures !RoundTrip(topo, origin, target)
  {
    forall q | Reaches(topo, origin, target, None, q) ensures q == r {
      ReachedOnce(topo, origin, target, None, q, r);
    }
  }

  lemma {:induction false} StuckIsNoRoundTrip(topo: Topology, handled: set<(Addr, nat, string)>, f: Flight,
                                              origin: Addr, id: nat, kind: Kind, target: string)
    requires RequestFlightOk(topo, handled, f, origin, id, kind, target)
    requires f.dg.to !in topo || OpenFrame(topo[f.dg.to], f.dg.frame).Failure? || f.Msg().Ttl() == 0
             || (Relays(topo[f.dg.to], f.Msg()) &&
                 ForwardByStealth(topo[f.dg.to], f.Msg().Toward(), f.Msg().Aged()).Failure?)
    ensures !RoundTrip(topo, origin, target)
  {
    forall at ensures !Reaches(topo, f.start, f.Msg().Toward(), None, at) {
      StuckReachesNothing(topo, f, at);
    }
    if f.Msg().PingReq? || f.Msg().PublicClientsReq? {
      NoWayThere(topo, origin, target);
    } else {
      NoWayBack(topo, origin, target, f.start);
    }
  }

  lemma {:induction false} RelayedRequest(topo: Topology, handled: set<(Addr, nat, string)>, f: Flight,
                                          origin: Addr, id: nat, kind: Kind, target: string)
    requires RequestFlightOk(topo, handled, f, origin, id, kind, target)
    requires f.dg.to in topo && OpenFrame(topo[f.dg.to], f.dg.frame).Success? && Relays(topo[f.dg.to], f.Msg()) && f.Msg().Ttl() > 0
    requires ForwardByStealth(topo[f.dg.to], f.Msg().Toward(), f.Msg().Aged()).Success?
    ensures var g := Flight(ForwardByStealth(topo[f.dg.to], f.Msg().Toward(), f.Msg().Aged()).value, f.cause, f.start, f.hops + 1);
            g.Msg() == f.Msg().Aged() && RequestFlightOk(topo, handled, g, origin, id, kind, target)
  {
    RelayedOnItsWay(topo, f);
    ForwardUsesNextPeer(topo[f.dg.to], f.Msg().Toward(), f.Msg().Aged());
  }

  lemma {:induction false} RequestSentOn(topo: Topology, causes: seq<Cause>, handled: set<(Addr, nat, string)>, f: Flight, t: Tables)
    requires FlightOk(topo, causes, handled, f) && causes[f.cause].RequestFrom?
    requires f.dg.to in topo && OpenFrame(topo[f.dg.to], f.dg.frame).Success? && Relays(topo[f.dg.to], f.Msg())
    requires f.Msg().Ttl() > 0 && ForwardByStealth(topo[f.dg.to], f.Msg().Toward(), f.Msg().Aged()).Success?
    ensures SentOrEnded(topo, causes, handled, f, Effect(t, Some(ForwardByStealth(topo[f.dg.to], f.Msg().Toward(), f.Msg().Aged()).value),
                                                         None, None, Success(())))
  {
    var RequestFrom(origin, id, kind, target) := causes[f.cause];
    NotAnswered(topo[f.dg.to], f, handled);
    RelayedRequest(topo, handled, f, origin, id, kind, target);
  }

  /** Passing on is not answering. */
  lemma {:induction false} NotAnswered(cfg: Config, f: Flight, handled: set<(Addr, nat, string)>)
    requires Relays(cfg, f.Msg())
    ensures HandledWith(cfg, f, handled) == handled
  {
  }

  lemma {:induction false} RequestStuck(topo: Topology, causes: seq<Cause>, handled: set<(Addr, nat, string)>, f: Flight, t: Tables, e: Error)
    requires FlightOk(topo, causes, handled, f) && causes[f.cause].RequestFrom?
    requires f.dg.to in topo && Relays(topo[f.dg.to], f.Msg()) && f.Msg().Ttl() > 0
    requires ForwardByStealth(topo[f.dg.to], f.Msg().Toward(), f.Msg().Aged()).Failure?
    ensures SentOrEnded(topo, causes, handled, f, Effect(t, None, None, None, Failure(e)))
  {
    var RequestFrom(origin, id, kind, target) := causes[f.cause];
    StuckIsNoRoundTrip(topo, handled, f, origin, id, kind, target);
  }

  lemma {:induction false} RequestPasses(topo: Topology, causes: seq<Cause>, handled: set<(Addr, nat, string)>, f: Flight, t: Tables)
    requires FlightOk(topo, causes, handled, f) && causes[f.cause].RequestFrom?
    requires f.dg.to in topo && OpenFrame(topo[f.dg.to], f.dg.frame).Success? && Relays(topo[f.dg.to], f.Msg())
    requires f.Msg().Ttl() > 0
    ensures SentOrEnded(topo, causes, handled, f,
                        Emit(t, ForwardByStealth(topo[f.dg.to], f.Msg().Toward(), f.Msg().Aged())))
  {
    match ForwardByStealth(topo[f.dg.to], f.Msg().Toward(), f.Msg().Aged())
    case Success(_) => RequestSentOn(topo, causes, handled, f, t);
    case Failure(e) => RequestStuck(topo, causes, handled, f, t, e);
  }

  /** An answer starts back at the node that gave it, or proves that there is no way back. */
  lemma {:induction false} RequestAnswered(topo: Topology, causes: seq<Cause>, handled: set<(Addr, nat, string)>, f: Flight,
                                           t: Tables, order: seq<string>)
    requires FlightOk(topo, causes, handled, f) && causes[f.cause].RequestFrom?
    requires f.dg.to in topo && OpenFrame(topo[f.dg.to], f.dg.frame) == Success(f.Msg()) && !Relays(topo[f.dg.to], f.Msg())
    requires f.Msg().PingReq? || f.Msg().PublicClientsReq?
    requires f.Msg().Ttl() > 0 && Enumerates(order, t.registered)
    ensures SentOrEnded(topo, causes, handled, f, Consume(topo[f.dg.to], t, f.Msg(), order))
  {
    var RequestFrom(origin, id, kind, target) := causes[f.cause];
    var cfg := topo[f.dg.to];
    EndingReaches(topo, f);
    assert Responder(topo, origin, target, f.dg.to);
    var answer := if f.Msg().PingReq? then PingResp(id, cfg.stealth, f.Msg().srcStealth, MAX_TTL, cfg.id, cfg.stealth)
                  else PublicClientsResp(id, cfg.stealth, f.Msg().srcStealth, MAX_TTL, cfg.stealth, ClientList(cfg, t.registered, order));
    var sending := ForwardByStealth(cfg, answer.Toward(), answer);
    assert Consume(cfg, t, f.Msg(), order) == Emit(t, sending);
    ForwardUsesNextPeer(cfg, answer.Toward(), answer);
    if sending.Success? {
      SentOnItsWay(topo, f.dg.to, answer, f.cause);
    } else {
      forall at ensures !Reaches(topo, f.dg.to, topo[origin].stealth, None, at) {
        assert At(topo, f.dg.to, topo[origin].stealth, 0) == Some(f.dg.to);
        NotReached(topo, f.dg.to, topo[origin].stealth, None, 0, at);
      }
      NoWayBack(topo, origin, target, f.dg.to);
    }
  }

  lemma {:induction false} ReplyArrives(topo: Topology, causes: seq<Cause>, handled: set<(Addr, nat, string)>, f: Flight,
                                        t: Tables, order: seq<string>)
    requires FlightOk(topo, causes, handled, f) && causes[f.cause].RequestFrom?
    requires f.dg.to in topo && OpenFrame(topo[f.dg.to], f.dg.frame).Success? && !Relays(topo[f.dg.to], f.Msg())
    requires f.Msg().PingResp? || f.Msg().PublicClientsResp?
    requires f.Msg().Ttl() > 0 && Enumerates(order, t.registered)
    ensures SentOrEnded(topo, causes, handled, f, Consume(topo[f.dg.to], t, f.Msg(), order))
  {
    EndingReaches(topo, f);
  }

  lemma {:induction false} DeliverRequest(topo: Topology, causes: seq<Cause>, handled: set<(Addr, nat, string)>, f: Flight,
                                          t: Tables, order: seq<string>)
    requires FlightOk(topo, causes, handled, f) && causes[f.cause].RequestFrom?
    requires f.dg.to in topo && Enumerates(order, t.registered)
    ensures SentOrEnded(topo, causes, handled, f, Receive(topo[f.dg.to], t, f.dg.frame, order))
  {
    var RequestFrom(origin, id, kind, target) := causes[f.cause];
    var cfg := topo[f.dg.to];
    NextStop(topo, f);
    if OpenFrame(cfg, f.dg.frame).Failure? {
      StuckIsNoRoundTrip(topo, handled, f, origin, id, kind, target);
    } else {
      ReceiveRouted(cfg, t, f, order);
      if f.Msg().Ttl() == 0 {
        StuckIsNoRoundTrip(topo, handled, f, origin, id, kind, target);
      } else if Relays(cfg, f.Msg()) {
        RequestPasses(topo, causes, handled, f, t);
      } else if f.Msg().PingReq? || f.Msg().PublicClientsReq? {
        RequestAnswered(topo, causes, handled, f, t, order);
      } else {
        ReplyArrives(topo, causes, handled, f, t, order);
      }
    }
  }

  // ---------- deliveries of registrations and control messages ----------

  /** A registration that is not opened, or opened and neither accepted nor passed on, shows
      that registrations of its origin end nowhere in time. */
  lemma {:induction false} StuckEnrolsNowhere(topo: Topology, f: Flight, origin: Addr, id: nat, g: Addr)
    requires RegistrationOk(topo, f, origin, id)
    requires f.dg.to !in topo || OpenFrame(topo[f.dg.to], f.dg.frame).Failure? || f.Msg().Ttl() == 0
             || (Relays(topo[f.dg.to], f.Msg()) &&
                 ForwardByStealth(topo[f.dg.to], f.Msg().Toward(), f.Msg().Aged()).Failure?)
    ensures !Enrols(topo, origin, g)
  {
    var target := HomeStealth(topo, origin);
    if f.hops == 0 {
      if f.dg.to in topo { OpensSent(topo[f.dg.to], topo[origin], HomePeer(topo[origin]).value, f.Msg()); }
      if Entrance(topo, origin).Some? {
        ForwardUsesNextPeer(topo[f.dg.to], target, f.Msg().Aged());
        assert At(topo, f.dg.to, target, 0) == Some(f.dg.to);
        NotReached(topo, f.dg.to, target, None, 0, g);
      }
    } else {
      var e := Entrance(topo, origin).value;
      NextAlong(topo, f, e, f.hops - 1);
      var passed := f.hops - 1;
      if f.dg.to in topo && OpenFrame(topo[f.dg.to], f.dg.frame).Success? && f.Msg().Ttl() > 0 {
        ForwardUsesNextPeer(topo[f.dg.to], target, f.Msg().Aged());
        passed := f.hops;
      }
      forall k: nat | k < MAX_TTL ensures !ReachesIn(topo, e, target, None, g, k) {
        NotReachedIn(topo, e, target, None, passed, g, k);
      }
    }
  }

  /** The node that accepts a registration is where registrations of its origin end. */
  lemma {:induction false} AcceptedWhereEnrolled(topo: Topology, f: Flight, origin: Addr, id: nat)
    requires RegistrationOk(topo, f, origin, id)
    requires f.dg.to in topo && OpenFrame(topo[f.dg.to], f.dg.frame).Success? && f.Msg().Ttl() > 0
    requires !Relays(topo[f.dg.to], f.Msg())
    ensures Enrols(topo, origin, f.dg.to)
  {
    if f.hops == 0 {
      OpensSent(topo[f.dg.to], topo[origin], HomePeer(topo[origin]).value, f.Msg());
    } else {
      NextAlong(topo, f, Entrance(topo, origin).value, f.hops - 1);
      assert ReachesIn(topo, Entrance(topo, origin).value, HomeStealth(topo, origin), None, f.dg.to, f.hops);
    }
  }

  lemma {:induction false} RegistrationPasses(topo: Topology, f: Flight, origin: Addr, id: nat)
    requires RegistrationOk(topo, f, origin, id)
    requires f.dg.to in topo && OpenFrame(topo[f.dg.to], f.dg.frame).Success? && f.Msg().Ttl() > 0
    requires Relays(topo[f.dg.to], f.Msg())
    requires ForwardByStealth(topo[f.dg.to], f.Msg().Toward(), f.Msg().Aged()).Success?
    ensures RegistrationOk(topo, Flight(ForwardByStealth(topo[f.dg.to], f.Msg().Toward(), f.Msg().Aged()).value,
                                        f.cause, f.start, f.hops + 1), origin, id)
  {
    ForwardUsesNextPeer(topo[f.dg.to], f.Msg().Toward(), f.Msg().Aged());
    if f.hops == 0 {
      OpensSent(topo[f.dg.to], topo[origin], HomePeer(topo[origin]).value, f.Msg());
    } else {
      RelayedAlong(topo, f, Entrance(topo, origin).value, f.hops - 1);
    }
  }

  lemma {:induction false} RegistrationOpened(topo: Topology, f: Flight, origin: Addr, id: nat)
    requires RegistrationOk(topo, f, origin, id) && f.dg.to in topo && OpenFrame(topo[f.dg.to], f.dg.frame).Success?
    ensures OpenFrame(topo[f.dg.to], f.dg.frame) == Success(f.Msg())
  {
  }

  lemma {:induction false} DeliverRegistration(topo: Topology, causes: seq<Cause>, handled: set<(Addr, nat, string)>, f: Flight,
                                               t: Tables, order: seq<string>)
    requires f.cause < |causes| && causes[f.cause].RegisterFrom?
    requires RegistrationOk(topo, f, causes[f.cause].origin, causes[f.cause].id)
    requires f.dg.to in topo && Enumerates(order, t.registered)
    ensures SentOrEnded(topo, causes, handled, f, Receive(topo[f.dg.to], t, f.dg.frame, order))
  {
    var RegisterFrom(origin, id) := causes[f.cause];
    var cfg, msg := topo[f.dg.to], f.Msg();
    if OpenFrame(cfg, f.dg.frame).Failure? {
      forall g ensures !Enrols(topo, origin, g) { StuckEnrolsNowhere(topo, f, origin, id, g); }
    } else {
      RegistrationOpened(topo, f, origin, id);
      ReceiveRouted(cfg, t, f, order);
      if msg.Ttl() == 0 || (Relays(cfg, msg) && ForwardByStealth(cfg, msg.Toward(), msg.Aged()).Failure?) {
        forall g ensures !Enrols(topo, origin, g) { StuckEnrolsNowhere(topo, f, origin, id, g); }
      } else if Relays(cfg, msg) {
        RegistrationPasses(topo, f, origin, id);
        ForwardUsesNextPeer(cfg, msg.Toward(), msg.Aged());
      } else {
        RegistrationAccepted(topo, causes, handled, f, t, order);
      }
    }
  }

  lemma {:induction false} RegistrationAccepted(topo: Topology, causes: seq<Cause>, handled: set<(Addr, nat, string)>, f: Flight,
                                                t: Tables, order: seq<string>)
    requires f.cause < |causes| && causes[f.cause].RegisterFrom?
    requires RegistrationOk(topo, f, causes[f.cause].origin, causes[f.cause].id)
    requires f.dg.to in topo && OpenFrame(topo[f.dg.to], f.dg.frame) == Success(f.Msg()) && !Relays(topo[f.dg.to], f.Msg())
    requires f.Msg().Ttl() > 0 && Enumerates(order, t.registered)
    ensures SentOrEnded(topo, causes, handled, f, Consume(topo[f.dg.to], t, f.Msg(), order))
  {
    var RegisterFrom(origin, id) := causes[f.cause];
    AcceptedWhereEnrolled(topo, f, origin, id);
    ForwardUsesNextPeer(topo[f.dg.to], topo[origin].stealth, Ack(topo, origin, f.dg.to, id));
    forall g | Enrols(topo, origin, g) ensures g == f.dg.to {
      EnrolledOnce(topo, origin, g, f.dg.to);
    }
  }

  /** Whoever opens an acknowledgement keeps it. */
  lemma {:induction false} DeliverAck(topo: Topology, causes: seq<Cause>, handled: set<(Addr, nat, string)>, f: Flight,
                                      t: Tables, order: seq<string>)
    requires f.cause < |causes| && causes[f.cause].RegisterFrom?
    requires AckOk(topo, f, causes[f.cause].origin, causes[f.cause].id)
    requires f.dg.to in topo && Enumerates(order, t.registered)
    ensures SentOrEnded(topo, causes, handled, f, Receive(topo[f.dg.to], t, f.dg.frame, order))
  {
    AckHop(topo, f, causes[f.cause].origin, causes[f.cause].id);
  }

  lemma {:induction false} AckHop(topo: Topology, f: Flight, origin: Addr, id: nat)
    requires AckOk(topo, f, origin, id)
    ensures Hop(topo, topo[origin].stealth)(f.start)
            == if f.dg.to in topo && OpenFrame(topo[f.dg.to], f.dg.frame).Success? then Some(f.dg.to) else None
    ensures f.dg.to in topo && OpenFrame(topo[f.dg.to], f.dg.frame).Success? ==>
              OpenFrame(topo[f.dg.to], f.dg.frame).value == f.Msg()
    ensures forall g :: Enrols(topo, origin, g) ==> g == f.start
  {
    if f.dg.to in topo {
      OpensSent(topo[f.dg.to], topo[f.start], NextPeer(topo[f.start], topo[origin].stealth).value, f.Msg());
    }
    forall g | Enrols(topo, origin, g) ensures g == f.start {
      EnrolledOnce(topo, origin, g, f.start);
    }
  }

  lemma {:induction false} DeliverRegister(topo: Topology, causes: seq<Cause>, handled: set<(Addr, nat, string)>, f: Flight,
                                           t: Tables, order: seq<string>)
    requires FlightOk(topo, causes, handled, f) && causes[f.cause].RegisterFrom?
    requires f.dg.to in topo && Enumerates(order, t.registered)
    ensures SentOrEnded(topo, causes, handled, f, Receive(topo[f.dg.to], t, f.dg.frame, order))
  {
    if f.Msg().ClientRegisterAck? {
      DeliverAck(topo, causes, handled, f, t, order);
    } else {
      DeliverRegistration(topo, causes, handled, f, t, order);
    }
  }

  lemma {:induction false} DeliverControl(topo: Topology, causes: seq<Cause>, handled: set<(Addr, nat, string)>, f: Flight,
                                          t: Tables, order: seq<string>)
    requires FlightOk(topo, causes, handled, f) && causes[f.cause].ControlFrom?
    requires f.dg.to in topo && Enumerates(order, t.registered)
    ensures SentOrEnded(topo, causes, handled, f, Receive(topo[f.dg.to], t, f.dg.frame, order))
  {
  }

  lemma {:induction false} DeliverFlight(topo: Topology, causes: seq<Cause>, handled: set<(Addr, nat, string)>, f: Flight,
                                         t: Tables, order: seq<string>)
    requires FlightOk(topo, causes, handled, f)
    requires f.dg.to in topo && Enumerates(order, t.registered)
    ensures SentOrEnded(topo, causes, handled, f, Receive(topo[f.dg.to], t, f.dg.frame, order))
  {
    match causes[f.cause]
    case DataFrom(_, _, _) => DeliverData(topo, causes, handled, f, t, order);
    case RequestFrom(_, _, _, _) => DeliverRequest(topo, causes, handled, f, t, order);
    case RegisterFrom(_, _) => DeliverRegister(topo, causes, handled, f, t, order);
    case ControlFrom(_) => DeliverControl(topo, causes, handled, f, t, order);
  }

  /** A datagram to an address nobody listens on. */
  lemma {:induction false} NobodyThere(topo: Topology, causes: seq<Cause>, handled: set<(Addr, nat, string)>, f: Flight)
    requires FlightOk(topo, causes, handled, f) && f.dg.to !in topo
    ensures EndOk(topo, causes, End(f.cause, Discarded))
  {
    match causes[f.cause]
    case DataFrom(origin, packet, dst) => StuckIsUndeliverable(topo, f, origin, packet, dst);
    case RequestFrom(origin, id, kind, target) => StuckIsNoRoundTrip(topo, handled, f, origin, id, kind, target);
    case RegisterFrom(origin, id) =>
      if f.Msg().ClientRegisterAck? {
        AckHop(topo, f, origin, id);
      } else {
        forall g ensures !Enrols(topo, origin, g) { StuckEnrolsNowhere(topo, f, origin, id, g); }
      }
    case ControlFrom(_) =>
  }
}
