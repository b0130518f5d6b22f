/** The daemon's shared state as the object it is (src/daemon.rs:36-48), with the methods that
    update it. Each is proved against the functions in Node.dfy that the network model is made of. */
module Daemon {
  import opened Wrappers
  import opened Ip
  import opened Messages
  import opened Node
  import opened Decisions
  import Routing

  datatype PingError = Unresolved | Unsent(error: Error) | TimedOut

  /** rtt_ms is left out. */
  datatype PingResult = PingResult(target: Target, ok: bool, responderStealth: Option<string>, responderId: Option<string>,
                                   error: Option<PingError>)

  datatype ClientsAnswer = ClientsResult(gatewayStealth: string, clients: seq<ClientEntry>) | ClientsError(error: PingError)

  /** What the world does with one request: whether the socket takes the datagram, and the reply
      the UDP thread hands over before the timeout, if any. */
  datatype Attempt = Attempt(socketOk: bool, reply: Option<Reply>)

  /** The results of a ping request: one per attempt, in order. */
  function PingOutcome(cfg: Config, target: Target, id: nat, attempt: Attempt): PingResult {
    match ResolveTarget(cfg, target)
    case Failure(_) => PingResult(target, false, None, None, Some(Unresolved))
    case Success(stealth) =>
      var ip := if target.ByIp? then Some(target.ip) else None;
      match ForwardByStealth(cfg, stealth, RequestMessage(cfg, PingKind, id, stealth, ip))
      case Failure(e) => PingResult(ByStealth(stealth), false, None, None, Some(Unsent(e)))
      case Success(_) =>
        if !attempt.socketOk then PingResult(ByStealth(stealth), false, None, None, Some(Unsent(SocketFailure)))
        else if attempt.reply.Some? && attempt.reply.value.PingReply? then
          PingResult(ByStealth(attempt.reply.value.target), true, Some(attempt.reply.value.responderStealth),
                     Some(attempt.reply.value.responderId), None)
        else PingResult(ByStealth(stealth), false, None, None, Some(TimedOut))
  }

  /** The datagram an attempt sends, if it gets that far. */
  function PingSent(cfg: Config, target: Target, id: nat, attempt: Attempt): Option<Datagram> {
    match ResolveTarget(cfg, target)
    case Failure(_) => None
    case Success(stealth) =>
      var ip := if target.ByIp? then Some(target.ip) else None;
      match ForwardByStealth(cfg, stealth, RequestMessage(cfg, PingKind, id, stealth, ip))
      case Success(dg) => if attempt.socketOk then Some(dg) else None
      case Failure(_) => None
  }

  /** The ping is for the stealth that the target stands for. */
  ghost predicate PingsAsAsked(cfg: Config, rc: Routing.RoutingConfig, target: Target, id: nat, attempt: Attempt,
                               r: PingResult, sent: Option<Datagram>)
    requires Routing.AllParse(rc)
  {
    forall s :: StandsFor(rc, target, s) ==> PingsFor(cfg, s, id, attempt, if target.ByIp? then Some(target.ip) else None, r, sent)
  }

  /** What the result of an attempt says, by case: the target stands for nothing; there is no next
      peer for what it stands for; the socket refuses; a reply came; none came. */
  lemma {:induction false} PingDecides(cfg: Config, rc: Routing.RoutingConfig, target: Target, id: nat, attempt: Attempt)
    requires Configures(rc, cfg)
    ensures var r, sent := PingOutcome(cfg, target, id, attempt), PingSent(cfg, target, id, attempt);
            && (r.error == Some(Unresolved) <==> StandsForNothing(rc, target))
            && (StandsForNothing(rc, target) ==> r == PingResult(target, false, None, None, Some(Unresolved)) && sent == None)
            && PingsAsAsked(cfg, rc, target, id, attempt, r, sent)
  {
    TargetDecides(cfg, rc, target);
    var ip: Option<IpAddr> := if target.ByIp? then Some(target.ip) else None;
    forall s | StandsFor(rc, target, s) ensures PingsFor(cfg, s, id, attempt, ip, PingOutcome(cfg, target, id, attempt), PingSent(cfg, target, id, attempt)) {
      ForwardDecides(cfg, s, PingReq(id, cfg.stealth, s, 16, ip));
    }
  }

  /** The result of a ping of that stealth, and the datagram sent. */
  ghost predicate PingsFor(cfg: Config, stealth: string, id: nat, attempt: Attempt, ip: Option<IpAddr>, r: PingResult, sent: Option<Datagram>) {
    if peer :| GoesTo(cfg, stealth, peer) then
      && sent == (if attempt.socketOk then Some(Carrying(cfg, peer, PingReq(id, cfg.stealth, stealth, 16, ip))) else None)
      && if !attempt.socketOk then r == PingResult(ByStealth(stealth), false, None, None, Some(Unsent(SocketFailure)))
         else
           match attempt.reply
           case Some(PingReply(t, responderStealth, responderId)) =>
             r == PingResult(ByStealth(t), true, Some(responderStealth), Some(responderId), None)
           case _ => r == PingResult(ByStealth(stealth), false, None, None, Some(TimedOut))
    else
      && sent == None
      && r == PingResult(ByStealth(stealth), false, None, None,
                         Some(Unsent(if stealth !in cfg.peersByStealth && stealth !in cfg.routing.overlayRoutes then NoOverlayRoute
                                     else UnknownPeer)))
  }

  /** One result and at most one datagram per attempt, in order, each under an id of its own if
      the target stands for something, so that ids are taken. */
  ghost predicate AttemptsMade(cfg: Config, target: Target, first: nat, taken: bool, attempts: seq<Attempt>,
                               results: seq<PingResult>, sent: seq<Option<Datagram>>)
    requires |results| == |sent| == |attempts|
  {
    forall i :: 0 <= i < |attempts| ==>
      && results[i] == PingOutcome(cfg, target, first + if taken then i else 0, attempts[i])
      && sent[i] == PingSent(cfg, target, first + if taken then i else 0, attempts[i])
  }

  lemma {:induction false} OneMoreAttempt(cfg: Config, target: Target, first: nat, taken: bool, attempts: seq<Attempt>, attempt: Attempt,
                                          results: seq<PingResult>, result: PingResult, sent: seq<Option<Datagram>>, dg: Option<Datagram>)
    requires |results| == |sent| == |attempts| && AttemptsMade(cfg, target, first, taken, attempts, results, sent)
    requires result == PingOutcome(cfg, target, first + if taken then |attempts| else 0, attempt)
    requires dg == PingSent(cfg, target, first + if taken then |attempts| else 0, attempt)
    ensures AttemptsMade(cfg, target, first, taken, attempts + [attempt], results + [result], sent + [dg])
  {
  }

  /** The answer to a clients request. */
  function ClientsOutcome(cfg: Config, target: Target, id: nat, attempt: Attempt): ClientsAnswer {
    match ResolveTarget(cfg, target)
    case Failure(_) => ClientsError(Unresolved)
    case Success(stealth) =>
      match OnSocket(ForwardByStealth(cfg, stealth, RequestMessage(cfg, ClientsKind, id, stealth, None)), attempt.socketOk)
      case Failure(e) => ClientsError(Unsent(e))
      case Success(_) =>
        if attempt.reply.Some? && attempt.reply.value.ClientsReply? then
          ClientsResult(attempt.reply.value.gatewayStealth, attempt.reply.value.clients)
        else ClientsError(TimedOut)
  }

  function ClientsSent(cfg: Config, target: Target, id: nat, attempt: Attempt): Option<Datagram> {
    match ResolveTarget(cfg, target)
    case Failure(_) => None
    case Success(stealth) =>
      match OnSocket(ForwardByStealth(cfg, stealth, RequestMessage(cfg, ClientsKind, id, stealth, None)), attempt.socketOk)
      case Success(dg) => Some(dg)
      case Failure(_) => None
  }

  /** What the answer says, by the same cases. */
  lemma {:induction false} ClientsDecides(cfg: Config, rc: Routing.RoutingConfig, target: Target, id: nat, attempt: Attempt)
    requires Configures(rc, cfg)
    ensures var r, sent := ClientsOutcome(cfg, target, id, attempt), ClientsSent(cfg, target, id, attempt);
            && (r == ClientsError(Unresolved) <==> StandsForNothing(rc, target))
            && (StandsForNothing(rc, target) ==> sent == None)
            && forall s :: StandsFor(rc, target, s) ==> ListsFor(cfg, s, id, attempt, r, sent)
  {
    TargetDecides(cfg, rc, target);
    forall s | StandsFor(rc, target, s) ensures ListsFor(cfg, s, id, attempt, ClientsOutcome(cfg, target, id, attempt), ClientsSent(cfg, target, id, attempt)) {
      ForwardDecides(cfg, s, PublicClientsReq(id, cfg.stealth, s, 16));
    }
  }

  /** The answer to a clients request to that stealth, and the datagram sent. */
  ghost predicate ListsFor(cfg: Config, stealth: string, id: nat, attempt: Attempt, answer: ClientsAnswer, sent: Option<Datagram>) {
    if peer :| GoesTo(cfg, stealth, peer) then
      && sent == (if attempt.socketOk then Some(Carrying(cfg, peer, PublicClientsReq(id, cfg.stealth, stealth, 16))) else None)
      && if !attempt.socketOk then answer == ClientsError(Unsent(SocketFailure))
         else
           match attempt.reply
           case Some(ClientsReply(gateway, clients)) => answer == ClientsResult(gateway, clients)
           case _ => answer == ClientsError(TimedOut)
    else
      && sent == None
      && answer == ClientsError(Unsent(if stealth !in cfg.peersByStealth && stealth !in cfg.routing.overlayRoutes then NoOverlayRoute
                                       else UnknownPeer))
  }

  /** The first k entries of a table in the given order. */
  function Listed(table: map<string, ClientEntry>, order: seq<string>, k: nat): seq<ClientEntry>
    requires Enumerates(order, table) && k <= |order|
  {
    seq(k, i requires 0 <= i < k => table[order[i]])
  }

  class Shared {
    const cfg: Config
    const routingConfig: Routing.RoutingConfig
    var pendingPings: map<nat, nat>
    var pendingClients: map<nat, nat>
    var registeredClients: map<string, ClientEntry>
    var nextRequestId: nat

    function State(): Tables
      reads this
    {
      Tables(nextRequestId, pendingPings, pendingClients, registeredClients)
    }

    /** Ids not yet handed out are not in use, the peer index is keyed by peer id, and the routing
        table was built from the routing configuration. */
    ghost predicate Valid()
      reads this
    {
      && (forall k :: k in cfg.peersById ==> cfg.peersById[k].id == k)
      && Configures(routingConfig, cfg)
      && (forall k :: k in pendingPings ==> k < nextRequestId)
      && (forall k :: k in pendingClients ==> k < nextRequestId)
    }

    constructor (cfg: Config, routingConfig: Routing.RoutingConfig)
      requires Configures(routingConfig, cfg)
      requires forall k :: k in cfg.peersById ==> cfg.peersById[k].id == k
      ensures this.cfg == cfg && this.routingConfig == routingConfig && State() == FRESH_TABLES && Valid()
    {
      this.cfg, this.routingConfig := cfg, routingConfig;
      pendingPings, pendingClients, registeredClients := map[], map[], map[];
      nextRequestId := 1;
    }

    /** Every send ends here; the socket may refuse the datagram. */
    method SendTo(peerId: string, msg: Message, socketOk: bool) returns (sent: Option<Datagram>, outcome: Result<(), Error>)
      ensures Emit(State(), OnSocket(SendToPeer(cfg, peerId, msg), socketOk)) == Effect(State(), sent, None, None, outcome)
    {
      if peerId !in cfg.peersById {
        return None, Failure(UnknownPeer);
      }
      if !socketOk {
        return None, Failure(SocketFailure);
      }
      return Some(SendDirect(cfg, cfg.peersById[peerId], msg)), Success(());
    }

    method Forward(target: string, msg: Message, socketOk: bool) returns (sent: Option<Datagram>, outcome: Result<(), Error>)
      ensures Emit(State(), OnSocket(ForwardByStealth(cfg, target, msg), socketOk)) == Effect(State(), sent, None, None, outcome)
    {
      if target in cfg.peersByStealth {
        sent, outcome := SendTo(cfg.peersByStealth[target], msg, socketOk);
        return;
      }
      match cfg.routing.NextHopVia(target) {
        case Some(via) => sent, outcome := SendTo(via, msg, socketOk);
        case None => return None, Failure(NoOverlayRoute);
      }
    }

    method HandleLocalPacket(packet: seq<Byte>, socketOk: bool) returns (sent: Option<Datagram>, outcome: Result<(), Error>)
      ensures match Node.HandleLocalPacket(cfg, packet)
              case Success(None) => sent == None && outcome == Success(())
              case Success(Some(dg)) =>
                if socketOk then sent == Some(dg) && outcome == Success(()) else sent == None && outcome == Failure(SocketFailure)
              case Failure(e) => sent == None && outcome == Failure(e)
    {
      match PacketDestination(packet) {
        case None => return None, Failure(UnparsablePacket);
        case Some(ip) =>
          if ip.IsMulticast() {
            return None, Success(());
          }
          match cfg.routing.Lookup(ip) {
            case None => return None, Failure(NoRoute);
            case Some(route) =>
              sent, outcome := Forward(route.stealth, Data(cfg.stealth, route.stealth, MAX_TTL, packet), socketOk);
          }
      }
    }

    /** The list a PublicClientsReq is answered with: configured entries, then the table. */
    method PublicClientList(order: seq<string>) returns (clients: seq<ClientEntry>)
      requires Enumerates(order, registeredClients)
      ensures clients == ClientList(cfg, registeredClients, order)
    {
      clients := [];
      if cfg.publicClients.Some? && cfg.publicClients.value.enabled {
        clients := cfg.publicClients.value.entries;
      }
      var table := registeredClients;
      for k := 0 to |order|
        invariant clients == StaticEntries(cfg) + Listed(table, order, k)
      {
        clients := clients + [table[order[k]]];
      }
    }

    /** handle_datagram. ttl counts down in place as in the source. */
    method HandleDatagram(packet: Packet, order: seq<string>, socketOk: bool)
        returns (sent: Option<Datagram>, tun: Option<seq<Byte>>, handed: Option<Handed>, outcome: Result<(), Error>)
      requires Enumerates(order, registeredClients)
      modifies this`pendingPings, this`pendingClients, this`registeredClients
      ensures Effect(State(), sent, tun, handed, outcome) == ReceivePacket(cfg, old(State()), packet, order, socketOk)
      ensures old(Valid()) ==> Valid()
    {
      sent, tun, handed, outcome := None, None, None, Success(());
      if packet.NoFrame? {
        return None, None, None, Failure(InvalidFrame);
      }
      var frame := packet.frame;
      if frame.magic != MAGIC {
        return None, None, None, Failure(BadMagic);
      }
      if frame.version != VERSION {
        return None, None, None, Failure(UnsupportedVersion);
      }
      if frame.senderId !in cfg.peersById {
        return None, None, None, Failure(UnknownSender);
      }
      var peer := cfg.peersById[frame.senderId];
      if frame.sealed.key != peer.key || frame.sealed.aad != frame.senderId {
        return None, None, None, Failure(DecryptionFailed);
      }
      if !packet.readable {
        return None, None, None, Failure(InvalidMessage);
      }
      match frame.sealed.msg {
        case BootstrapReq(id, _, stealth, ip, _, target) =>
          if cfg.role == Gateway && target == cfg.stealth {
            sent, outcome := SendTo(peer.id, BootstrapResp(id, stealth, ip, cfg.stealth, cfg.mtu, true, "ok"), socketOk);
          }
        case ClientRegister(id, src, target, client, ttl0) =>
          var ttl := ttl0;
          if ttl == 0 {
            return;
          }
          if target == cfg.stealth {
            registeredClients := registeredClients[client.clientStealth := client];
            sent, outcome := Forward(src, ClientRegisterAck(id, cfg.stealth, src, MAX_TTL, true, "registered"), socketOk);
          } else {
            ttl := ttl - 1;
            sent, outcome := Forward(target, ClientRegister(id, src, target, client, ttl), socketOk);
          }
        case Data(src, dst, ttl0, bytes) =>
          var ttl := ttl0;
          var inner := PacketDestination(bytes);
          if inner.None? {
            return None, None, None, Failure(UnparsablePacket);
          }
          if dst == cfg.stealth || cfg.routing.OwnsIp(inner.value) {
            if !cfg.hasTun {
              return None, None, None, Failure(NoTun);
            }
            tun := Some(bytes);
          } else if ttl > 1 {
            ttl := ttl - 1;
            sent, outcome := Forward(dst, Data(src, dst, ttl, bytes), socketOk);
          }
        case PingReq(id, src, target, ttl0, ip) =>
          var ttl := ttl0;
          if ttl == 0 {
            return;
          }
          if target == cfg.stealth {
            sent, outcome := Forward(src, PingResp(id, cfg.stealth, src, MAX_TTL, cfg.id, cfg.stealth), socketOk);
          } else {
            ttl := ttl - 1;
            sent, outcome := Forward(target, PingReq(id, src, target, ttl, ip), socketOk);
          }
        case PingResp(id, src, dst, ttl0, responderId, responderStealth) =>
          var ttl := ttl0;
          if ttl == 0 {
            return;
          }
          if dst == cfg.stealth {
            if id in pendingPings {
              var sender := pendingPings[id];
              pendingPings := pendingPings - {id};
              handed := Some(Handed(sender, PingReply(src, responderStealth, responderId)));
            }
          } else {
            ttl := ttl - 1;
            sent, outcome := Forward(dst, PingResp(id, src, dst, ttl, responderId, responderStealth), socketOk);
          }
        case PublicClientsReq(id, src, target, ttl0) =>
          var ttl := ttl0;
          if ttl == 0 {
            return;
          }
          if target == cfg.stealth {
            var clients := PublicClientList(order);
            sent, outcome := Forward(src, PublicClientsResp(id, cfg.stealth, src, MAX_TTL, cfg.stealth, clients), socketOk);
          } else {
            ttl := ttl - 1;
            sent, outcome := Forward(target, PublicClientsReq(id, src, target, ttl), socketOk);
          }
        case PublicClientsResp(id, src, dst, ttl0, gateway, clients) =>
          var ttl := ttl0;
          if ttl == 0 {
            return;
          }
          if dst == cfg.stealth {
            if id in pendingClients {
              var sender := pendingClients[id];
              pendingClients := pendingClients - {id};
              handed := Some(Handed(sender, ClientsReply(gateway, clients)));
            }
          } else {
            ttl := ttl - 1;
            sent, outcome := Forward(dst, PublicClientsResp(id, src, dst, ttl, gateway, clients), socketOk);
          }
        case _ =>
      }
    }

    method SendClientRegister(socketOk: bool) returns (sent: Option<Datagram>, outcome: Result<(), Error>)
      requires Valid()
      modifies this`nextRequestId
      ensures match HomePeer(cfg)
              case Failure(e) => sent == None && outcome == Failure(e) && State() == old(State())
              case Success(home) =>
                && (if socketOk then sent == Some(SendDirect(cfg, home, Registration(cfg, old(nextRequestId)))) && outcome == Success(())
                    else sent == None && outcome == Failure(SocketFailure))
                && State() == old(State()).(nextId := old(nextRequestId) + 1)
    {
      if cfg.client.None? {
        return None, Failure(NoClientConfig);
      }
      var client := cfg.client.value;
      if client.homeGatewayId !in cfg.peersById {
        return None, Failure(UnknownPeer);
      }
      var home := cfg.peersById[client.homeGatewayId];
      var msg := Registration(cfg, nextRequestId);
      nextRequestId := nextRequestId + 1;
      sent, outcome := SendTo(home.id, msg, socketOk);
    }

    /** One iteration of a ping request: allocate, insert, send, wait, clean up. atSend is the
        state in which the datagram goes out: a reply finds the entry however early it comes. */
    method PingOnce(target: Target, attempt: Attempt)
        returns (result: PingResult, sent: Option<Datagram>, ghost atSend: Tables)
      requires Valid()
      modifies this`pendingPings, this`nextRequestId
      ensures Valid() && pendingPings == old(pendingPings)
      ensures nextRequestId == old(nextRequestId) + if StandsForNothing(routingConfig, target) then 0 else 1
      ensures result == PingOutcome(cfg, target, old(nextRequestId), attempt)
      ensures sent == PingSent(cfg, target, old(nextRequestId), attempt)
      ensures result.error == Some(Unresolved) <==> StandsForNothing(routingConfig, target)
      ensures PingsAsAsked(cfg, routingConfig, target, old(nextRequestId), attempt, result, sent)
      ensures !StandsForNothing(routingConfig, target) ==>
                atSend == WithPending(old(State()).(nextId := old(nextRequestId) + 1), PingKind, old(nextRequestId))
    {
      PingDecides(cfg, routingConfig, target, nextRequestId, attempt);
      TargetDecides(cfg, routingConfig, target);
      var resolved := ResolveTarget(cfg, target);
      if resolved.Failure? {
        return PingResult(target, false, None, None, Some(Unresolved)), None, State();
      }
      var stealth := resolved.value;
      var id := nextRequestId;
      nextRequestId := nextRequestId + 1;
      pendingPings := pendingPings[id := id];
      assert pendingPings - {id} == old(pendingPings);
      atSend := State();
      var outcome: Result<(), Error>;
      sent, outcome := Forward(stealth, RequestMessage(cfg, PingKind, id, stealth, if target.ByIp? then Some(target.ip) else None),
                               attempt.socketOk);
      if outcome.Failure? {
        pendingPings := pendingPings - {id};
        result := PingResult(ByStealth(stealth), false, None, None, Some(Unsent(outcome.error)));
      } else if attempt.reply.Some? && attempt.reply.value.PingReply? {
        pendingPings := pendingPings - {id};  // taken out by the UDP thread, which then sends the reply
        var reply := attempt.reply.value;
        result := PingResult(ByStealth(reply.target), true, Some(reply.responderStealth), Some(reply.responderId), None);
      } else {
        pendingPings := pendingPings - {id};
        result := PingResult(ByStealth(stealth), false, None, None, Some(TimedOut));
      }
    }

    /** A ping request: as many results as were asked for, in order, each under an id of its own,
        and the table as it was. */
    method Ping(target: Target, attempts: seq<Attempt>) returns (results: seq<PingResult>, sent: seq<Option<Datagram>>)
      requires Valid()
      modifies this`pendingPings, this`nextRequestId
      ensures Valid() && pendingPings == old(pendingPings)
      ensures nextRequestId == old(nextRequestId) + if StandsForNothing(routingConfig, target) then 0 else |attempts|
      ensures |results| == |sent| == |attempts|
      ensures AttemptsMade(cfg, target, old(nextRequestId), !StandsForNothing(routingConfig, target), attempts, results, sent)
    {
      results, sent := [], [];
      ghost var taken := !StandsForNothing(routingConfig, target);
      for k := 0 to |attempts|
        invariant Valid() && pendingPings == old(pendingPings) && |results| == |sent| == k
        invariant nextRequestId == old(nextRequestId) + if taken then k else 0
        invariant AttemptsMade(cfg, target, old(nextRequestId), taken, attempts[..k], results, sent)
      {
        var result, dg, _ := PingOnce(target, attempts[k]);
        OneMoreAttempt(cfg, target, old(nextRequestId), taken, attempts[..k], attempts[k], results, result, sent, dg);
        assert attempts[..k+1] == attempts[..k] + [attempts[k]];
        results, sent := results + [result], sent + [dg];
      }
      assert attempts[..|attempts|] == attempts;
    }

    /** A clients request, with atSend as for a ping. */
    method Clients(target: Target, attempt: Attempt)
        returns (answer: ClientsAnswer, sent: Option<Datagram>, ghost atSend: Tables)
      requires Valid()
      modifies this`pendingClients, this`nextRequestId
      ensures Valid() && pendingClients == old(pendingClients)
      ensures nextRequestId == old(nextRequestId) + if StandsForNothing(routingConfig, target) then 0 else 1
      ensures answer == ClientsOutcome(cfg, target, old(nextRequestId), attempt)
      ensures sent == ClientsSent(cfg, target, old(nextRequestId), attempt)
      ensures answer == ClientsError(Unresolved) <==> StandsForNothing(routingConfig, target)
      ensures forall s :: StandsFor(routingConfig, target, s) ==> ListsFor(cfg, s, old(nextRequestId), attempt, answer, sent)
      ensures !StandsForNothing(routingConfig, target) ==>
                atSend == WithPending(old(State()).(nextId := old(nextRequestId) + 1), ClientsKind, old(nextRequestId))
    {
      ClientsDecides(cfg, routingConfig, target, nextRequestId, attempt);
      TargetDecides(cfg, routingConfig, target);
      var resolved := ResolveTarget(cfg, target);
      if resolved.Failure? {
        return ClientsError(Unresolved), None, State();
      }
      var stealth := resolved.value;
      var id := nextRequestId;
      nextRequestId := nextRequestId + 1;
      pendingClients := pendingClients[id := id];
      atSend := State();
      var outcome: Result<(), Error>;
      sent, outcome := Forward(stealth, RequestMessage(cfg, ClientsKind, id, stealth, None), attempt.socketOk);
      pendingClients := pendingClients - {id};
      if outcome.Failure? {
        answer := ClientsError(Unsent(outcome.error));
      } else if attempt.reply.Some? && attempt.reply.value.ClientsReply? {
        answer := ClientsResult(attempt.reply.value.gatewayStealth, attempt.reply.value.clients);
      } else {
        answer := ClientsError(TimedOut);
      }
    }
  }
}
