/** What a node decides about a packet, a datagram or an admin target, said in terms of its
    configuration and of the bytes alone. */
module Decisions {
  import opened Wrappers
  import opened Ip
  import opened Messages
  import opened Node
  import opened Routing
  import opened World

  /** The routing table was built from that configuration. */
  ghost predicate Configures(rc: RoutingConfig, cfg: Config) {
    AllParse(rc) && BuiltFrom(cfg.routing, rc)
  }

  // ---------- the next peer ----------

  /** Messages for that stealth go to that peer: the one listed with the stealth, else the one
      named by the overlay route. */
  ghost predicate GoesTo(cfg: Config, toward: string, peer: Peer) {
    if toward in cfg.peersByStealth then
      cfg.peersByStealth[toward] in cfg.peersById && peer == cfg.peersById[cfg.peersByStealth[toward]]
    else
      toward in cfg.routing.overlayRoutes && cfg.routing.overlayRoutes[toward] in cfg.peersById
      && peer == cfg.peersById[cfg.routing.overlayRoutes[toward]]
  }

  /** The datagram on the wire. The magic bytes spell STN1. */
  function Carrying(cfg: Config, peer: Peer, msg: Message): Datagram {
    Datagram(peer.addr, Frame(['S' as int, 'T' as int, 'N' as int, '1' as int], 1, cfg.id, Sealed(peer.key, cfg.id, msg)))
  }

  /** Sending on succeeds exactly when there is such a peer; otherwise the error tells whether an
      overlay route is missing or a route leads to an unknown peer. */
  lemma {:induction false} ForwardDecides(cfg: Config, toward: string, msg: Message)
    ensures forall dg :: ForwardByStealth(cfg, toward, msg) == Success(dg) <==>
                         exists peer :: GoesTo(cfg, toward, peer) && dg == Carrying(cfg, peer, msg)
    ensures ForwardByStealth(cfg, toward, msg) == Failure(NoOverlayRoute) <==>
              toward !in cfg.peersByStealth && toward !in cfg.routing.overlayRoutes
    ensures ForwardByStealth(cfg, toward, msg).Failure? ==>
              ForwardByStealth(cfg, toward, msg).error == NoOverlayRoute || ForwardByStealth(cfg, toward, msg).error == UnknownPeer
  {
    assert MAGIC == ['S' as int, 'T' as int, 'N' as int, '1' as int];
    var r := ForwardByStealth(cfg, toward, msg);
    if r.Success? {
      assert GoesTo(cfg, toward, NextPeer(cfg, toward).value);
    }
  }

  lemma {:induction false} ForwardErrors(cfg: Config, toward: string, msg: Message)
    ensures ForwardByStealth(cfg, toward, msg).Failure? ==>
              ForwardByStealth(cfg, toward, msg).error == NoOverlayRoute || ForwardByStealth(cfg, toward, msg).error == UnknownPeer
  {
  }

  // ---------- packets read from the TUN ----------

  /** The packet is for an address that route i of the static map is the best for. */
  ghost predicate RoutedBy(rc: RoutingConfig, packet: seq<Byte>, i: nat)
    requires AllParse(rc)
  {
    !MulticastBytes(packet) && PacketDestination(packet).Some? && Chosen(rc, PacketDestination(packet).value, i)
  }

  /** A packet from the TUN is ignored exactly if it is multicast, refused as unparsable exactly
      if it does not parse, and refused for want of a route exactly if it parses, is not
      multicast, and no configured route covers its destination. */
  lemma {:induction false} LocalPacketRefused(cfg: Config, rc: RoutingConfig, packet: seq<Byte>)
    requires Configures(rc, cfg)
    ensures var r := Node.HandleLocalPacket(cfg, packet);
            && (r == Success(None) <==> MulticastBytes(packet))
            && (r == Failure(UnparsablePacket) <==> PacketDestination(packet).None?)
            && (r == Failure(NoRoute) <==>
                  && !MulticastBytes(packet) && PacketDestination(packet).Some?
                  && forall i :: 0 <= i < |rc.staticMap| ==> !Covers(rc.staticMap[i], PacketDestination(packet).value))
            && ((r.Success? && r.value.Some?) || (r.Failure? && r.error != NoRoute && r.error != UnparsablePacket) ==>
                  exists i: nat :: RoutedBy(rc, packet, i))
  {
    MulticastByOctet(packet);
    DestinationValid(packet);
    if PacketDestination(packet).Some? {
      var ip := PacketDestination(packet).value;
      LookupIsChosen(cfg.routing, rc, ip);
      if !ip.IsMulticast() && cfg.routing.Lookup(ip).Some? {
        var toward := cfg.routing.Lookup(ip).value.stealth;
        ForwardErrors(cfg, toward, Data(cfg.stealth, toward, MAX_TTL, packet));
        var i: nat :| Chosen(rc, ip, i);
        assert RoutedBy(rc, packet, i);
      }
    }
  }

  /** A packet with a route is sent as DATA with TTL 16 to the stealth of the best configured one
      if that stealth has a next peer, and otherwise refused with the error that says what is
      missing. */
  lemma {:induction false} LocalPacketSent(cfg: Config, rc: RoutingConfig, packet: seq<Byte>, i: nat)
    requires Configures(rc, cfg) && RoutedBy(rc, packet, i)
    ensures var r, toward := Node.HandleLocalPacket(cfg, packet), rc.staticMap[i].stealth;
            && (forall dg :: r == Success(Some(dg)) <==>
                  exists peer :: GoesTo(cfg, toward, peer) && dg == Carrying(cfg, peer, Data(cfg.stealth, toward, 16, packet)))
            && (r == Failure(NoOverlayRoute) <==> toward !in cfg.peersByStealth && toward !in cfg.routing.overlayRoutes)
            && (r.Failure? ==> r.error == NoOverlayRoute || r.error == UnknownPeer)
  {
    var toward := rc.staticMap[i].stealth;
    MulticastByOctet(packet);
    DestinationValid(packet);
    LookupIsChosen(cfg.routing, rc, PacketDestination(packet).value);
    ForwardDecides(cfg, toward, Data(cfg.stealth, toward, MAX_TTL, packet));
  }

  ghost predicate AddsCause(w: World, v: World, c: Cause) {
    v.causes == w.causes + [c]
  }

  lemma {:induction false} AddsOne(w: World, v: World, c: Cause, d: Cause)
    requires AddsCause(w, v, c)
    ensures AddsCause(w, v, d) <==> c == d
  {
    assert v.causes[|w.causes|] == c;
  }

  /** A packet with a route towards that stealth, which has a next peer. */
  ghost predicate Departs(cfg: Config, rc: RoutingConfig, packet: seq<Byte>, dst: string)
    requires AllParse(rc)
  {
    exists i: nat, peer :: RoutedBy(rc, packet, i) && rc.staticMap[i].stealth == dst && GoesTo(cfg, dst, peer)
  }

  lemma {:induction false} DepartsIff(cfg: Config, rc: RoutingConfig, packet: seq<Byte>, dst: string)
    requires Configures(rc, cfg)
    ensures var r := Node.HandleLocalPacket(cfg, packet);
            Departs(cfg, rc, packet, dst) <==> r.Success? && r.value.Some? && r.value.value.frame.sealed.msg.dstStealth == dst
  {
    LocalPacketRefused(cfg, rc, packet);
    forall i: nat | RoutedBy(rc, packet, i) ensures SentAlong(cfg, rc, packet, i) {
      RoutedSent(cfg, rc, packet, i);
    }
  }

  /** What an injection adds to a run: at a node with a TUN, a packet with a route of whose stealth
      there is a next peer becomes a new cause to that stealth; any other changes nothing. */
  lemma {:induction false} InjectDecides(topo: Topology, w: World, at: Addr, rc: RoutingConfig, packet: seq<Byte>, dst: string)
    requires at in topo && Configures(rc, topo[at])
    ensures var v := Act(topo, w, Inject(at, packet));
            && (AddsCause(w, v, DataFrom(at, packet, dst)) <==> topo[at].hasTun && Departs(topo[at], rc, packet, dst))
            && (v != w ==> topo[at].hasTun && exists d :: Departs(topo[at], rc, packet, d))
  {
    var r, v := Node.HandleLocalPacket(topo[at], packet), Act(topo, w, Inject(at, packet));
    InjectEffect(topo, w, at, packet);
    DepartsIff(topo[at], rc, packet, dst);
    if topo[at].hasTun && r.Success? && r.value.Some? {
      var d := r.value.value.frame.sealed.msg.dstStealth;
      AddsOne(w, v, DataFrom(at, packet, d), DataFrom(at, packet, dst));
      DepartsIff(topo[at], rc, packet, d);
    }
  }

  lemma {:induction false} InjectEffect(topo: Topology, w: World, at: Addr, packet: seq<Byte>)
    requires at in topo
    ensures var r, v := Node.HandleLocalPacket(topo[at], packet), Act(topo, w, Inject(at, packet));
            if topo[at].hasTun && r.Success? && r.value.Some? then
              v.causes == w.causes + [DataFrom(at, packet, r.value.value.frame.sealed.msg.dstStealth)]
            else v == w
  {
  }

  /** The packet leaves the node, towards the stealth of route i, exactly if that has a next peer. */
  ghost predicate SentAlong(cfg: Config, rc: RoutingConfig, packet: seq<Byte>, i: nat)
    requires AllParse(rc) && i < |rc.staticMap|
  {
    var r := Node.HandleLocalPacket(cfg, packet);
    && ((exists peer :: GoesTo(cfg, rc.staticMap[i].stealth, peer)) <==> r.Success? && r.value.Some?)
    && (r.Success? && r.value.Some? ==> r.value.value.frame.sealed.msg.dstStealth == rc.staticMap[i].stealth)
  }

  lemma {:induction false} RoutedSent(cfg: Config, rc: RoutingConfig, packet: seq<Byte>, i: nat)
    requires Configures(rc, cfg) && RoutedBy(rc, packet, i)
    ensures SentAlong(cfg, rc, packet, i)
  {
    LocalPacketSent(cfg, rc, packet, i);
    LocalPacketRefused(cfg, rc, packet);
    var toward := rc.staticMap[i].stealth;
    forall peer | GoesTo(cfg, toward, peer)
      ensures Node.HandleLocalPacket(cfg, packet) == Success(Some(Carrying(cfg, peer, Data(cfg.stealth, toward, 16, packet))))
    {
    }
  }

  // ---------- DATA at a receiver ----------

  /** The node keeps what is addressed to its stealth, and what is for an address under one of
      the prefixes configured as owned. */
  ghost predicate Keeps(cfg: Config, rc: RoutingConfig, toward: string, ip: IpAddr)
    requires AllParse(rc)
  {
    toward == cfg.stealth || exists i :: 0 <= i < |rc.ownedPrefixes| && LeadingBitsAgree(rc.ownedPrefixes[i].value, ip)
  }

  /** Where a message ends is decided by the configured prefixes. */
  lemma {:induction false} EndsIffKept(cfg: Config, rc: RoutingConfig, toward: string, ip: IpAddr)
    requires Configures(rc, cfg) && ip.Valid()
    ensures EndsAt(cfg, toward, Some(ip)) <==> Keeps(cfg, rc, toward, ip)
  {
    OwnsIffConfigured(cfg.routing, rc, ip);
  }

  /** Exactly what becomes of DATA that a node has opened: written to the TUN where it is kept,
      whichever owned prefix it falls under; passed on one hop shorter as long as more than one
      hop is left; dropped. */
  lemma {:induction false} DataDecides(cfg: Config, rc: RoutingConfig, t: Tables, frame: Frame, order: seq<string>,
                                       src: string, dst: string, ttl: U8, packet: seq<Byte>)
    requires Configures(rc, cfg) && Enumerates(order, t.registered)
    requires OpenFrame(cfg, frame) == Success(Data(src, dst, ttl, packet)) && PacketDestination(packet).Some?
    ensures var e := Receive(cfg, t, frame, order);
            && e.tables == t && e.handed == None
            && if Keeps(cfg, rc, dst, PacketDestination(packet).value) then
                 e.sent == None && if cfg.hasTun then e.tun == Some(packet) && e.outcome == Success(())
                                   else e.tun == None && e.outcome == Failure(NoTun)
               else
                 && e.tun == None
                 && (ttl <= 1 ==> e.sent == None && e.outcome == Success(()))
                 && (ttl > 1 ==> (e.outcome.Success? <==> e.sent.Some?))
                 && (ttl > 1 ==> forall dg :: (e.sent == Some(dg) <==>
                       exists peer :: GoesTo(cfg, dst, peer) && dg == Carrying(cfg, peer, Data(src, dst, ttl - 1, packet))))
  {
    DestinationValid(packet);
    EndsIffKept(cfg, rc, dst, PacketDestination(packet).value);
    if ttl > 1 {
      ForwardDecides(cfg, dst, Data(src, dst, ttl - 1, packet));
    }
  }

  // ---------- admin targets ----------

  /** The stealth an admin target stands for: itself, or that of the best configured route for
      its address. */
  ghost predicate StandsFor(rc: RoutingConfig, target: Target, stealth: string)
    requires AllParse(rc)
  {
    match target
    case ByStealth(s) => stealth == s
    case ByIp(ip) => exists i: nat :: Chosen(rc, ip, i) && rc.staticMap[i].stealth == stealth
  }

  /** It stands for nothing exactly if it is an address under no configured prefix. */
  ghost predicate StandsForNothing(rc: RoutingConfig, target: Target) {
    target.ByIp? && forall i :: 0 <= i < |rc.staticMap| ==> !Covers(rc.staticMap[i], target.ip)
  }

  lemma {:induction false} TargetDecides(cfg: Config, rc: RoutingConfig, target: Target)
    requires Configures(rc, cfg)
    ensures forall s :: ResolveTarget(cfg, target) == Success(s) <==> StandsFor(rc, target, s)
    ensures ResolveTarget(cfg, target) == Failure(NoRoute) <==> StandsForNothing(rc, target)
    ensures ResolveTarget(cfg, target).Failure? ==> ResolveTarget(cfg, target) == Failure(NoRoute)
  {
    if target.ByIp? {
      LookupIsChosen(cfg.routing, rc, target.ip);
    }
  }

  /** What asking for a target adds to a run: a request for the stealth the target stands for,
      under the next id, or nothing at all, with no id taken, if it stands for nothing. */
  lemma {:induction false} AskDecides(topo: Topology, w: World, at: Addr, rc: RoutingConfig, kind: Kind, who: Target)
    requires at in topo && at in w.hosts && Configures(rc, topo[at])
    ensures var h, v := w.hosts[at], Act(topo, w, Ask(at, kind, who));
            && (StandsForNothing(rc, who) <==> v == w)
            && forall s :: StandsFor(rc, who, s) ==>
                 && v.hosts[at].tables == h.tables.(nextId := h.tables.nextId + 1)
                 && h.tables.nextId in v.hosts[at].requests
                 && v.hosts[at].requests[h.tables.nextId].kind == kind && v.hosts[at].requests[h.tables.nextId].target == s
  {
    TargetDecides(topo[at], rc, who);
    if !StandsForNothing(rc, who) {
      assert Act(topo, w, Ask(at, kind, who)).hosts[at].tables.nextId == w.hosts[at].tables.nextId + 1;
    }
  }

  // ---------- what a node says about itself and its clients ----------

  /** A registration goes out under the node's stealth with TTL 16, to the stealth of the home
      gateway, and advertises the configured public id or else the node's own, its stealth, the
      address of its TUN if it has one, its capabilities, and 300 seconds. */
  lemma {:induction false} RegistrationStates(cfg: Config, id: nat)
    requires cfg.client.Some? && HomePeer(cfg).Success?
    ensures var client, msg := cfg.client.value, Registration(cfg, id);
            && client.homeGatewayId in cfg.peersById
            && msg.ClientRegister? && msg.requestId == id && msg.srcStealth == cfg.stealth && msg.ttl == 16
            && msg.targetGatewayStealth == cfg.peersById[client.homeGatewayId].stealth
            && msg.client.clientStealth == cfg.stealth
            && msg.client.publicId == (if client.publicId.Some? then client.publicId.value else cfg.id)
            && (forall p :: p in msg.client.advertisedPrefixes <==> cfg.tunAddress == Some(p)) && |msg.client.advertisedPrefixes| <= 1
            && msg.client.capabilities == client.capabilities && msg.client.ttl == Some(300)
  {
  }

  /** The list of clients has the configured entries, if they are enabled, in configured order,
      and then every registered client once. */
  lemma {:induction false} ClientsListed(cfg: Config, table: map<string, ClientEntry>, order: seq<string>) returns (registered: seq<ClientEntry>)
    requires Enumerates(order, table)
    ensures ClientList(cfg, table, order) == (match cfg.publicClients
                                              case Some(PublicClients(true, entries)) => entries
                                              case _ => []) + registered
    ensures |registered| == |order| == |table.Keys| && forall i :: 0 <= i < |order| ==> registered[i] == table[order[i]]
  {
    registered := seq(|order|, i requires 0 <= i < |order| => table[order[i]]);
    OrderLength(table.Keys, order);
  }

  lemma {:induction false} OrderLength(keys: set<string>, order: seq<string>)
    requires forall i, j :: 0 <= i < j < |order| ==> order[i] != order[j]
    requires forall i :: 0 <= i < |order| ==> order[i] in keys
    requires forall k :: k in keys ==> k in order
    ensures |order| == |keys|
  {
    if order == [] {
      assert keys == {};
    } else {
      forall k | k in keys - {order[0]} ensures k in order[1..] {
        assert k in [order[0]] + order[1..] && order == [order[0]] + order[1..];
      }
      OrderLength(keys - {order[0]}, order[1..]);
    }
  }
}
