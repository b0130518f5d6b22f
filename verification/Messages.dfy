/** The protocol messages (src/frame.rs). Timestamps are left out: they only feed the RTT. */
module Messages {
  import opened Wrappers
  import opened Ip

  type U8 = x: nat | x < 256

  datatype ClientEntry = ClientEntry(publicId: string, clientStealth: string, advertisedPrefixes: seq<string>,
                                     capabilities: seq<string>, ttl: Option<nat>)

  datatype Message =
    | Keepalive(ttl: U8)
    | BootstrapReq(requestId: nat, nodeId: string, requestedStealth: string, requestedOverlayIp: Option<string>,
                   capabilities: seq<string>, targetGatewayStealth: string)
    | BootstrapResp(requestId: nat, assignedStealth: string, assignedOverlayIp: Option<string>,
                    homeGatewayStealth: string, mtu: nat, ok: bool, text: string)
    | ClientRegister(requestId: nat, srcStealth: string, targetGatewayStealth: string, client: ClientEntry, ttl: U8)
    | ClientRegisterAck(requestId: nat, srcStealth: string, dstStealth: string, ttl: U8, ok: bool, text: string)
    | Data(srcStealth: string, dstStealth: string, ttl: U8, innerPacket: seq<Byte>)
    | PingReq(requestId: nat, srcStealth: string, targetStealth: string, ttl: U8, optionalInnerIp: Option<IpAddr>)
    | PingResp(requestId: nat, srcStealth: string, dstStealth: string, ttl: U8, responderId: string,
               responderStealth: string)
    | PublicClientsReq(requestId: nat, srcStealth: string, targetStealth: string, ttl: U8)
    | PublicClientsResp(requestId: nat, srcStealth: string, dstStealth: string, ttl: U8, gatewayStealth: string,
                        clients: seq<ClientEntry>)
    | ProtocolError(code: nat, text: string)
  {
    /** The kinds a node relays when they are addressed to another stealth. */
    predicate Routed() {
      ClientRegister? || Data? || PingReq? || PingResp? || PublicClientsReq? || PublicClientsResp?
    }

    /** The stealth a routed message is on its way to. */
    function Toward(): string
      requires Routed()
    {
      match this
      case ClientRegister(_, _, target, _, _) => target
      case Data(_, dst, _, _) => dst
      case PingReq(_, _, target, _, _) => target
      case PingResp(_, _, dst, _, _, _) => dst
      case PublicClientsReq(_, _, target, _) => target
      case PublicClientsResp(_, _, dst, _, _, _) => dst
    }

    function Ttl(): U8
      requires Routed()
    {
      ttl
    }

    /** The same message with one hop less to live. */
    function Aged(): (m: Message)
      requires Routed() && Ttl() > 0
    {
      match this
      case ClientRegister(id, src, target, client, t) => ClientRegister(id, src, target, client, t - 1)
      case Data(src, dst, t, packet) => Data(src, dst, t - 1, packet)
      case PingReq(id, src, target, t, ip) => PingReq(id, src, target, t - 1, ip)
      case PingResp(id, src, dst, t, responderId, stealth) => PingResp(id, src, dst, t - 1, responderId, stealth)
      case PublicClientsReq(id, src, target, t) => PublicClientsReq(id, src, target, t - 1)
      case PublicClientsResp(id, src, dst, t, gateway, clients) => PublicClientsResp(id, src, dst, t - 1, gateway, clients)
    }
  }
}
