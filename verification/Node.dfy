/** One node: its static configuration, its mutable tables, and what it does with a datagram,
    as functions of those (src/daemon.rs). The class in Daemon.dfy is proved against them. */
module Node {
  import opened Wrappers
  import opened Ip
  import opened Messages
  import Routing

  /** A socket address. */
  type Addr = nat

  /** A 32-byte link key. */
  type Key = k: seq<Byte> | |k| == 32 witness seq(32, _ => 0)

  datatype Peer = Peer(id: string, stealth: string, addr: Addr, key: Key)

  datatype Role = Gateway | Client | OtherRole

  datatype PublicClients = PublicClients(enabled: bool, entries: seq<ClientEntry>)

  datatype ClientConfig = ClientConfig(homeGatewayId: string, publicId: Option<string>,
                                       requestedOverlayIp: Option<string>, requestedStealth: Option<string>,
                                       capabilities: seq<string>)

  /** The immutable part of the daemon's Shared state. */
  datatype Config = Config(id: string, role: Role, stealth: string, mtu: nat,
                           hasTun: bool, tunAddress: Option<string>,
                           routing: Routing.RoutingTable,
                           peersById: map<string, Peer>, peersByStealth: map<string, string>,
                           publicClients: Option<PublicClients>, client: Option<ClientConfig>)

  /** The mutable part: the two pending tables hold the sending half of the channel of the
      request that inserted it, identified by that request's id. */
  datatype Tables = Tables(nextId: nat, pendingPings: map<nat, nat>, pendingClients: map<nat, nat>,
                           registered: map<string, ClientEntry>)

  const FRESH_TABLES := Tables(1, map[], map[], map[])

  datatype Error = InvalidFrame | InvalidMessage | BadMagic | UnsupportedVersion | UnknownSender | DecryptionFailed | UnknownPeer
                 | NoOverlayRoute | UnparsablePacket | NoRoute | NoTun | NoClientConfig | SocketFailure

  // ---------- frames ----------

  const MAGIC: seq<Byte> := [83, 84, 78, 49]
  const VERSION: U8 := 1
  const MAX_TTL: U8 := 16

  /** An ideal AEAD box: it opens under the same key and associated data only. */
  datatype Sealed = Sealed(key: Key, aad: string, msg: Message)

  datatype Frame = Frame(magic: seq<Byte>, version: U8, senderId: string, sealed: Sealed)

  datatype Datagram = Datagram(to: Addr, frame: Frame)

  function SendDirect(cfg: Config, peer: Peer, msg: Message): Datagram {
    Datagram(peer.addr, Frame(MAGIC, VERSION, cfg.id, Sealed(peer.key, cfg.id, msg)))
  }

  function SendToPeer(cfg: Config, peerId: string, msg: Message): Result<Datagram, Error> {
    if peerId in cfg.peersById then Success(SendDirect(cfg, cfg.peersById[peerId], msg)) else Failure(UnknownPeer)
  }

  function ForwardByStealth(cfg: Config, target: string, msg: Message): Result<Datagram, Error> {
    if target in cfg.peersByStealth then SendToPeer(cfg, cfg.peersByStealth[target], msg)
    else
      match cfg.routing.NextHopVia(target)
      case Some(via) => SendToPeer(cfg, via, msg)
      case None => Failure(NoOverlayRoute)
  }

  /** The peer that ForwardByStealth picks, if any: it depends on the target alone. */
  function NextPeer(cfg: Config, target: string): Option<Peer> {
    if target in cfg.peersByStealth then
      var id := cfg.peersByStealth[target];
      if id in cfg.peersById then Some(cfg.peersById[id]) else None
    else
      match cfg.routing.NextHopVia(target)
      case Some(via) => if via in cfg.peersById then Some(cfg.peersById[via]) else None
      case None => None
  }

  lemma ForwardUsesNextPeer(cfg: Config, target: string, msg: Message)
    ensures ForwardByStealth(cfg, target, msg).Success? <==> NextPeer(cfg, target).Some?
    ensures NextPeer(cfg, target).Some? ==>
              ForwardByStealth(cfg, target, msg) == Success(SendDirect(cfg, NextPeer(cfg, target).value, msg))
  {
  }

  /** Whether the node at the other end opens what cfg seals for peer. */
  predicate Opens(receiver: Config, cfg: Config, peer: Peer) {
    cfg.id in receiver.peersById && receiver.peersById[cfg.id].key == peer.key
  }

  lemma OpensSent(receiver: Config, cfg: Config, peer: Peer, msg: Message)
    ensures OpenFrame(receiver, SendDirect(cfg, peer, msg).frame)
            == if Opens(receiver, cfg, peer) then Success(msg)
               else if cfg.id in receiver.peersById then Failure(DecryptionFailed) else Failure(UnknownSender)
  {
  }

  function OpenFrame(cfg: Config, frame: Frame): Result<Message, Error> {
    if frame.magic != MAGIC then Failure(BadMagic)
    else if frame.version != VERSION then Failure(UnsupportedVersion)
    else if frame.senderId !in cfg.peersById then Failure(UnknownSender)
    else if frame.sealed.key != cfg.peersById[frame.senderId].key || frame.sealed.aad != frame.senderId
    then Failure(DecryptionFailed)
    else Success(frame.sealed.msg)
  }

  // ---------- packets read from the TUN, registrations, admin targets ----------

  function HandleLocalPacket(cfg: Config, packet: seq<Byte>): (r: Result<Option<Datagram>, Error>)
    ensures r.Success? && r.value.Some? ==> r.value.value.frame.sealed.msg.Data?
  {
    match PacketDestination(packet)
    case None => Failure(UnparsablePacket)
    case Some(ip) =>
      if ip.IsMulticast() then Success(None)
      else
        match cfg.routing.Lookup(ip)
        case None => Failure(NoRoute)
        case Some(route) =>
          match ForwardByStealth(cfg, route.stealth, Data(cfg.stealth, route.stealth, MAX_TTL, packet))
          case Success(dg) => Success(Some(dg))
          case Failure(e) => Failure(e)
  }

  function OwnEntry(cfg: Config, client: ClientConfig): ClientEntry {
    ClientEntry(match client.publicId case Some(p) => p case None => cfg.id,
                cfg.stealth,
                match cfg.tunAddress case Some(a) => [a] case None => [],
                client.capabilities,
                Some(300))
  }

  /** The home gateway a client registers with, when its configuration names a known one. */
  function HomePeer(cfg: Config): Result<Peer, Error> {
    match cfg.client
    case None => Failure(NoClientConfig)
    case Some(client) =>
      if client.homeGatewayId in cfg.peersById then Success(cfg.peersById[client.homeGatewayId])
      else Failure(UnknownPeer)
  }

  function Registration(cfg: Config, id: nat): Message
    requires cfg.client.Some? && HomePeer(cfg).Success?
  {
    ClientRegister(id, cfg.stealth, HomePeer(cfg).value.stealth, OwnEntry(cfg, cfg.client.value), MAX_TTL)
  }

  /** An admin target: the text of an IP address, or anything else, taken as a stealth. */
  datatype Target = ByIp(ip: Address) | ByStealth(stealth: string)

  function ResolveTarget(cfg: Config, target: Target): Result<string, Error> {
    match target
    case ByStealth(stealth) => Success(stealth)
    case ByIp(ip) =>
      match cfg.routing.Lookup(ip)
      case Some(route) => Success(route.stealth)
      case None => Failure(NoRoute)
  }

  datatype Kind = PingKind | ClientsKind

  /** The request message of either admin query. */
  function RequestMessage(cfg: Config, kind: Kind, id: nat, target: string, ip: Option<IpAddr>): Message {
    match kind
    case PingKind => PingReq(id, cfg.stealth, target, MAX_TTL, ip)
    case ClientsKind => PublicClientsReq(id, cfg.stealth, target, MAX_TTL)
  }

  // ---------- the pending tables ----------

  function WithPending(t: Tables, kind: Kind, id: nat): Tables {
    match kind
    case PingKind => t.(pendingPings := t.pendingPings[id := id])
    case ClientsKind => t.(pendingClients := t.pendingClients[id := id])
  }

  function WithoutPending(t: Tables, kind: Kind, id: nat): Tables {
    match kind
    case PingKind => t.(pendingPings := t.pendingPings - {id})
    case ClientsKind => t.(pendingClients := t.pendingClients - {id})
  }

  function Pending(t: Tables, kind: Kind): map<nat, nat> {
    match kind
    case PingKind => t.pendingPings
    case ClientsKind => t.pendingClients
  }

  // ---------- datagrams ----------

  /** What travels over a request's channel. */
  datatype Reply =
    | PingReply(target: string, responderStealth: string, responderId: string)
    | ClientsReply(gatewayStealth: string, clients: seq<ClientEntry>)

  /** A channel taken out of a pending table together with the value to send on it. */
  datatype Handed = Handed(id: nat, reply: Reply)

  /** Everything one handled datagram does: the new tables, at most one datagram sent, at most
      one packet handed to a TUN write, at most one reply to send on a channel. */
  datatype Effect = Effect(tables: Tables, sent: Option<Datagram>, tun: Option<seq<Byte>>, handed: Option<Handed>,
                           outcome: Result<(), Error>)

  function Quiet(t: Tables): Effect {
    Effect(t, None, None, None, Success(()))
  }

  function Emit(t: Tables, sending: Result<Datagram, Error>): Effect {
    match sending
    case Success(dg) => Effect(t, Some(dg), None, None, Success(()))
    case Failure(e) => Effect(t, None, None, None, Failure(e))
  }

  /** order lists the keys of a table once each: the order a hash map iterates in is arbitrary. */
  predicate Enumerates(order: seq<string>, table: map<string, ClientEntry>) {
    && (forall i, j :: 0 <= i < j < |order| ==> order[i] != order[j])
    && (forall i :: 0 <= i < |order| ==> order[i] in table)
    && (forall k :: k in table ==> k in order)
  }

  function StaticEntries(cfg: Config): seq<ClientEntry> {
    match cfg.publicClients
    case Some(pc) => if pc.enabled then pc.entries else []
    case None => []
  }

  function ClientList(cfg: Config, table: map<string, ClientEntry>, order: seq<string>): seq<ClientEntry>
    requires Enumerates(order, table)
  {
    StaticEntries(cfg) + seq(|order|, i requires 0 <= i < |order| => table[order[i]])
  }

  /** A live message that has reached the stealth it was on its way to. */
  function Consume(cfg: Config, t: Tables, msg: Message, order: seq<string>): Effect
    requires msg.Routed() && !msg.Data? && Enumerates(order, t.registered)
  {
    match msg
    case ClientRegister(id, src, _, client, _) =>
      Emit(t.(registered := t.registered[client.clientStealth := client]),
           ForwardByStealth(cfg, src, ClientRegisterAck(id, cfg.stealth, src, MAX_TTL, true, "registered")))
    case PingReq(id, src, _, _, _) =>
      Emit(t, ForwardByStealth(cfg, src, PingResp(id, cfg.stealth, src, MAX_TTL, cfg.id, cfg.stealth)))
    case PublicClientsReq(id, src, _, _) =>
      Emit(t, ForwardByStealth(cfg, src, PublicClientsResp(id, cfg.stealth, src, MAX_TTL, cfg.stealth,
                                                           ClientList(cfg, t.registered, order))))
    case PingResp(id, src, _, _, responderId, responderStealth) =>
      if id in t.pendingPings then
        Effect(t.(pendingPings := t.pendingPings - {id}), None, None,
               Some(Handed(t.pendingPings[id], PingReply(src, responderStealth, responderId))), Success(()))
      else Quiet(t)
    case PublicClientsResp(id, _, _, _, gateway, clients) =>
      if id in t.pendingClients then
        Effect(t.(pendingClients := t.pendingClients - {id}), None, None,
               Some(Handed(t.pendingClients[id], ClientsReply(gateway, clients))), Success(()))
      else Quiet(t)
  }

  /** The address a DATA message carries inside; nothing for the other kinds. */
  function InnerDestination(msg: Message): Option<IpAddr> {
    if msg.Data? then PacketDestination(msg.innerPacket) else None
  }

  /** A message ends at a node whose stealth it is addressed to; DATA also ends where the
      inner destination is owned. */
  predicate EndsAt(cfg: Config, toward: string, inner: Option<IpAddr>) {
    toward == cfg.stealth || (inner.Some? && cfg.routing.OwnsIp(inner.value))
  }

  function ProcessData(cfg: Config, t: Tables, msg: Message): Effect
    requires msg.Data?
  {
    if PacketDestination(msg.innerPacket).None? then Effect(t, None, None, None, Failure(UnparsablePacket))
    else if EndsAt(cfg, msg.dstStealth, InnerDestination(msg)) then
      if cfg.hasTun then Effect(t, None, Some(msg.innerPacket), None, Success(()))
      else Effect(t, None, None, None, Failure(NoTun))
    else if msg.ttl > 1 then Emit(t, ForwardByStealth(cfg, msg.dstStealth, msg.Aged()))
    else Quiet(t)
  }

  function Process(cfg: Config, t: Tables, sender: string, msg: Message, order: seq<string>): Effect
    requires sender in cfg.peersById && Enumerates(order, t.registered)
  {
    match msg
    case Keepalive(_) | BootstrapResp(_, _, _, _, _, _, _) | ClientRegisterAck(_, _, _, _, _, _)
      | ProtocolError(_, _) => Quiet(t)
    case BootstrapReq(id, _, stealth, ip, _, target) =>
      if cfg.role == Gateway && target == cfg.stealth then
        Emit(t, SendToPeer(cfg, cfg.peersById[sender].id,
                           BootstrapResp(id, stealth, ip, cfg.stealth, cfg.mtu, true, "ok")))
      else Quiet(t)
    case Data(_, _, _, _) => ProcessData(cfg, t, msg)
    case _ =>
      if msg.Ttl() == 0 then Quiet(t)
      else if msg.Toward() == cfg.stealth then Consume(cfg, t, msg, order)
      else Emit(t, ForwardByStealth(cfg, msg.Toward(), msg.Aged()))
  }

  function Receive(cfg: Config, t: Tables, frame: Frame, order: seq<string>): Effect
    requires Enumerates(order, t.registered)
  {
    match OpenFrame(cfg, frame)
    case Failure(e) => Effect(t, None, None, None, Failure(e))
    case Success(msg) => Process(cfg, t, frame.senderId, msg, order)
  }

  // ---------- what comes off the socket, and what goes onto it ----------

  /** What recv_from returns: bytes that are no frame, or a frame whose plaintext, once it
      decrypts, is readable as a message or not. */
  datatype Packet = NoFrame | Framed(frame: Frame, readable: bool)

  /** A datagram that the socket does not take is an error in its place. */
  function OnSocket(sending: Result<Datagram, Error>, socketOk: bool): Result<Datagram, Error> {
    if sending.Success? && !socketOk then Failure(SocketFailure) else sending
  }

  function WithSocket(e: Effect, socketOk: bool): Effect {
    if e.sent.Some? && !socketOk then e.(sent := None, outcome := Failure(SocketFailure)) else e
  }

  function ReceivePacket(cfg: Config, t: Tables, packet: Packet, order: seq<string>, socketOk: bool): Effect
    requires Enumerates(order, t.registered)
  {
    match packet
    case NoFrame => Effect(t, None, None, None, Failure(InvalidFrame))
    case Framed(frame, readable) =>
      if OpenFrame(cfg, frame).Success? && !readable then Effect(t, None, None, None, Failure(InvalidMessage))
      else WithSocket(Receive(cfg, t, frame, order), socketOk)
  }
}
