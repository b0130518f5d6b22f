/** The bootstrap a client performs before its daemon starts (src/daemon.rs:245-336). */
module Bootstrap {
  import opened Wrappers
  import opened Messages
  import opened Node

  /** The part of a client's configuration that bootstrap reads or fills in. tun is None without
      a [tun] section; its address may be missing. */
  datatype Settings = Settings(id: string, stealth: string, tun: Option<Option<string>>, ownedPrefixes: seq<string>,
                               client: Option<ClientConfig>)

  datatype BootError = NoClientSection | UnknownGateway | SendFailed | CannotDecrypt | CannotRead | GatewayError(text: string) | Rejected(text: string)
                     | ReceiveFailed

  datatype Reading = Ignored | Aborts(error: BootError) | Answers(resp: Message)

  predicate GatewayAnswers(r: Reading) {
    r.Answers? ==> r.resp.BootstrapResp?
  }

  function RequestedStealth(s: Settings, client: ClientConfig): string {
    match client.requestedStealth case Some(x) => x case None => s.stealth
  }

  function RequestedIp(s: Settings, client: ClientConfig): Option<string> {
    match client.requestedOverlayIp
    case Some(ip) => Some(ip)
    case None => match s.tun case Some(address) => address case None => None
  }

  function BootstrapRequest(s: Settings, client: ClientConfig, home: Peer, requestId: nat): Message {
    BootstrapReq(requestId, s.id, RequestedStealth(s, client), RequestedIp(s, client), client.capabilities, home.stealth)
  }

  /** decode_bootstrap_response: everything unexpected is skipped, except that a frame of a known
      peer that does not decrypt or cannot be read, and a protocol error, abort. */
  function Decode(peers: map<string, Peer>, packet: Packet, expected: nat): (r: Reading)
    ensures GatewayAnswers(r)
  {
    if packet.NoFrame? then Ignored
    else
      var f := packet.frame;
      if f.magic != MAGIC || f.version != VERSION || f.senderId !in peers then Ignored
      else if f.sealed.key != peers[f.senderId].key || f.sealed.aad != f.senderId then Aborts(CannotDecrypt)
      else if !packet.readable then Aborts(CannotRead)
      else
        match f.sealed.msg
        case BootstrapResp(id, _, _, _, _, _, _) => if id == expected then Answers(f.sealed.msg) else Ignored
        case ProtocolError(_, text) => Aborts(GatewayError(text))
        case _ => Ignored
  }

  // ---------- packets, in the protocol's terms ----------

  /** A frame of the protocol from a known peer that opens under that peer's key. */
  ghost predicate Opened(peers: map<string, Peer>, packet: Packet) {
    packet.Framed? &&
    var f := packet.frame;
    && f.magic == ['S' as int, 'T' as int, 'N' as int, '1' as int] && f.version == 1 && f.senderId in peers
    && f.sealed.key == peers[f.senderId].key && f.sealed.aad == f.senderId
  }

  /** An answer to the request of that id. */
  ghost predicate AnswersRequest(peers: map<string, Peer>, packet: Packet, requestId: nat) {
    Opened(peers, packet) && packet.readable && packet.frame.sealed.msg.BootstrapResp? && packet.frame.sealed.msg.requestId == requestId
  }

  /** A packet that a bootstrapping client takes no notice of: no frame of the protocol from a
      known peer, or a message that is neither a protocol error nor an answer to this request. */
  ghost predicate Skipped(peers: map<string, Peer>, packet: Packet, requestId: nat) {
    || packet.NoFrame?
    || packet.frame.magic != ['S' as int, 'T' as int, 'N' as int, '1' as int] || packet.frame.version != 1
    || packet.frame.senderId !in peers
    || (Opened(peers, packet) && packet.readable && !packet.frame.sealed.msg.ProtocolError? && !AnswersRequest(peers, packet, requestId))
  }

  /** The first packet that is not skipped. */
  ghost predicate StopsAt(peers: map<string, Peer>, packets: seq<Packet>, requestId: nat, k: nat) {
    && k < |packets| && !Skipped(peers, packets[k], requestId)
    && forall i :: 0 <= i < k ==> Skipped(peers, packets[i], requestId)
  }

  /** The client ends up with the settings of an answer that says ok. */
  ghost predicate Adopted(s: Settings, resp: Message, v: Settings)
    requires resp.BootstrapResp?
  {
    && resp.ok && v.id == s.id && v.client == s.client && v.stealth == resp.assignedStealth
    && v.tun == (if s.tun == Some(None) && resp.assignedOverlayIp.Some? then Some(resp.assignedOverlayIp) else s.tun)
    && v.ownedPrefixes == (if s.ownedPrefixes == [] && resp.assignedOverlayIp.Some? then [resp.assignedOverlayIp.value] else s.ownedPrefixes)
  }

  /** Why a packet that is not skipped ends the bootstrap. */
  ghost predicate FailsWith(peers: map<string, Peer>, packet: Packet, requestId: nat, e: BootError) {
    if !Opened(peers, packet) then e == CannotDecrypt
    else if !packet.readable then e == CannotRead
    else
      match packet.frame.sealed.msg
      case ProtocolError(_, text) => e == GatewayError(text)
      case BootstrapResp(_, _, _, _, _, ok, text) => !ok && e == Rejected(text)
      case _ => false
  }

  /** The verdict of the first packet that is not skipped. */
  function FirstVerdict(peers: map<string, Peer>, packets: seq<Packet>, expected: nat): (r: Reading)
    ensures GatewayAnswers(r) && !r.Ignored?
  {
    if packets == [] then Aborts(ReceiveFailed)
    else
      match Decode(peers, packets[0], expected)
      case Ignored => FirstVerdict(peers, packets[1..], expected)
      case Aborts(e) => Aborts(e)
      case Answers(resp) => Answers(resp)
  }

  function Adopt(s: Settings, resp: Message): Result<Settings, BootError>
    requires resp.BootstrapResp?
  {
    if !resp.ok then Failure(Rejected(resp.text))
    else
      match resp.assignedOverlayIp
      case None => Success(s.(stealth := resp.assignedStealth))
      case Some(ip) =>
        Success(s.(stealth := resp.assignedStealth,
                   tun := (if s.tun == Some(None) then Some(Some(ip)) else s.tun),
                   ownedPrefixes := (if s.ownedPrefixes == [] then [ip] else s.ownedPrefixes)))
  }

  lemma {:induction false} DecodeIs(peers: map<string, Peer>, packet: Packet, requestId: nat)
    ensures Decode(peers, packet, requestId).Ignored? <==> Skipped(peers, packet, requestId)
    ensures Decode(peers, packet, requestId).Answers? <==> AnswersRequest(peers, packet, requestId)
    ensures Decode(peers, packet, requestId).Answers? ==> Decode(peers, packet, requestId).resp == packet.frame.sealed.msg
    ensures !Skipped(peers, packet, requestId) && !AnswersRequest(peers, packet, requestId) ==>
              Decode(peers, packet, requestId)
              == Aborts(if !Opened(peers, packet) then CannotDecrypt else if !packet.readable then CannotRead
                        else GatewayError(packet.frame.sealed.msg.text))
  {
    assert MAGIC == ['S' as int, 'T' as int, 'N' as int, '1' as int];
  }

  /** The client stops at the first packet it does not skip, or for want of one. */
  lemma {:induction false} VerdictIs(peers: map<string, Peer>, packets: seq<Packet>, requestId: nat)
    ensures forall k: nat :: StopsAt(peers, packets, requestId, k) ==>
              FirstVerdict(peers, packets, requestId) == Decode(peers, packets[k], requestId)
    ensures (forall k: nat :: !StopsAt(peers, packets, requestId, k)) ==> FirstVerdict(peers, packets, requestId) == Aborts(ReceiveFailed)
  {
    if packets != [] {
      DecodeIs(peers, packets[0], requestId);
      VerdictIs(peers, packets[1..], requestId);
      if Skipped(peers, packets[0], requestId) {
        forall k: nat ensures StopsAt(peers, packets, requestId, k + 1) <==> StopsAt(peers, packets[1..], requestId, k) {
          assert forall i :: 0 <= i < |packets| - 1 ==> packets[1..][i] == packets[i + 1];
        }
      } else {
        assert StopsAt(peers, packets, requestId, 0);
      }
    }
  }

  /** What the packets received make of the settings. */
  function Outcome(s: Settings, peers: map<string, Peer>, packets: seq<Packet>, requestId: nat): Result<Settings, BootError> {
    match FirstVerdict(peers, packets, requestId)
    case Answers(resp) => Adopt(s, resp)
    case Aborts(e) => Failure(e)
  }

  /** Exactly which packet settles it: the first that is not skipped. The client starts with the
      settings of an answer to this request that says ok, and with no other. */
  lemma {:induction false} OutcomeDecides(s: Settings, peers: map<string, Peer>, packets: seq<Packet>, requestId: nat)
    ensures Outcome(s, peers, packets, requestId).Success? <==>
            exists k: nat :: StopsAt(peers, packets, requestId, k) && AnswersRequest(peers, packets[k], requestId)
                             && packets[k].frame.sealed.msg.ok
    ensures forall k: nat :: StopsAt(peers, packets, requestId, k) ==>
              match Outcome(s, peers, packets, requestId)
              case Success(v) => AnswersRequest(peers, packets[k], requestId) && Adopted(s, packets[k].frame.sealed.msg, v)
              case Failure(e) => FailsWith(peers, packets[k], requestId, e)
    ensures Outcome(s, peers, packets, requestId) == Failure(ReceiveFailed) <==>
            forall i :: 0 <= i < |packets| ==> Skipped(peers, packets[i], requestId)
  {
    VerdictIs(peers, packets, requestId);
    if i :| 0 <= i < |packets| && !Skipped(peers, packets[i], requestId) {
      var k := FirstUnskipped(peers, packets, requestId, i);
      DecodeIs(peers, packets[k], requestId);
    }
    forall k: nat | StopsAt(peers, packets, requestId, k)
      ensures match Outcome(s, peers, packets, requestId)
              case Success(v) => AnswersRequest(peers, packets[k], requestId) && Adopted(s, packets[k].frame.sealed.msg, v)
              case Failure(e) => FailsWith(peers, packets[k], requestId, e)
    {
      DecodeIs(peers, packets[k], requestId);
    }
  }

  lemma {:induction false} FirstUnskipped(peers: map<string, Peer>, packets: seq<Packet>, requestId: nat, i: nat) returns (k: nat)
    requires i < |packets| && !Skipped(peers, packets[i], requestId)
    ensures StopsAt(peers, packets, requestId, k)
  {
    k := 0;
    while Skipped(peers, packets[k], requestId)
      invariant k <= i && forall j :: 0 <= j < k ==> Skipped(peers, packets[j], requestId)
      decreases i - k
    {
      k := k + 1;
    }
  }

  /** A packet of another request, wherever it turns up, changes nothing. */
  lemma {:induction false} StrayAnswerHarmless(s: Settings, peers: map<string, Peer>, before: seq<Packet>, stray: Packet, after: seq<Packet>,
                                               requestId: nat)
    requires Skipped(peers, stray, requestId)
             || (Opened(peers, stray) && stray.readable && stray.frame.sealed.msg.BootstrapResp?
                 && stray.frame.sealed.msg.requestId != requestId)
    ensures Outcome(s, peers, before + [stray] + after, requestId) == Outcome(s, peers, before + after, requestId)
  {
    assert Skipped(peers, stray, requestId);
    DecodeIs(peers, stray, requestId);
    StrayVerdict(peers, before, stray, after, requestId);
  }

  lemma {:induction false} StrayVerdict(peers: map<string, Peer>, before: seq<Packet>, stray: Packet, after: seq<Packet>, requestId: nat)
    requires Decode(peers, stray, requestId).Ignored?
    ensures FirstVerdict(peers, before + [stray] + after, requestId) == FirstVerdict(peers, before + after, requestId)
  {
    var long, short := before + [stray] + after, before + after;
    if before == [] {
      assert long[1..] == after == short;
    } else {
      StrayVerdict(peers, before[1..], stray, after, requestId);
      assert long[1..] == before[1..] + [stray] + after && short[1..] == before[1..] + after;
    }
  }

  method PerformBootstrap(s: Settings, peers: map<string, Peer>, requestId: nat, socketOk: bool, packets: seq<Packet>)
      returns (r: Result<Settings, BootError>, sent: Option<Datagram>)
    ensures r.Success? <==>
              && s.client.Some? && s.client.value.homeGatewayId in peers && socketOk
              && exists k: nat :: StopsAt(peers, packets, requestId, k) && AnswersRequest(peers, packets[k], requestId)
                                  && packets[k].frame.sealed.msg.ok
    ensures r.Success? ==> exists k: nat :: StopsAt(peers, packets, requestId, k) && AnswersRequest(peers, packets[k], requestId)
                                            && Adopted(s, packets[k].frame.sealed.msg, r.value)
    ensures s.client.None? ==> r == Failure(NoClientSection) && sent == None
    ensures s.client.Some? && s.client.value.homeGatewayId !in peers ==> r == Failure(UnknownGateway) && sent == None
    ensures s.client.Some? && s.client.value.homeGatewayId in peers ==>
              var home := peers[s.client.value.homeGatewayId];
              if !socketOk then r == Failure(SendFailed) && sent == None
              else
              && sent == Some(Datagram(home.addr, Frame(MAGIC, VERSION, s.id,
                                Sealed(home.key, s.id, BootstrapRequest(s, s.client.value, home, requestId)))))
              && r == Outcome(s, peers, packets, requestId)
  {
    sent := None;
    OutcomeDecides(s, peers, packets, requestId);
    if s.client.None? {
      return Failure(NoClientSection), None;
    }
    var client := s.client.value;
    if client.homeGatewayId !in peers {
      return Failure(UnknownGateway), None;
    }
    var home := peers[client.homeGatewayId];
    var msg := BootstrapRequest(s, client, home, requestId);
    if !socketOk {
      return Failure(SendFailed), None;
    }
    sent := Some(Datagram(home.addr, Frame(MAGIC, VERSION, s.id, Sealed(home.key, s.id, msg))));
    var k, response := 0, Ignored;
    while response.Ignored?
      invariant k <= |packets| && GatewayAnswers(response)
      invariant response.Ignored? ==> FirstVerdict(peers, packets, requestId) == FirstVerdict(peers, packets[k..], requestId)
      invariant !response.Ignored? ==> FirstVerdict(peers, packets, requestId) == response
      decreases |packets| - k, response.Ignored?
    {
      if k == |packets| {
        return Failure(ReceiveFailed), sent;
      }
      response := Decode(peers, packets[k], requestId);
      assert packets[k..][1..] == packets[k+1..];
      k := k + 1;
    }
    if response.Aborts? {
      return Failure(response.error), sent;
    }
    var settings := s;
    if !response.resp.ok {
      return Failure(Rejected(response.resp.text)), sent;
    }
    settings := settings.(stealth := response.resp.assignedStealth);
    if response.resp.assignedOverlayIp.Some? {
      var ip := response.resp.assignedOverlayIp.value;
      if settings.tun.Some? && settings.tun.value.None? {
        settings := settings.(tun := Some(Some(ip)));
      }
      if settings.ownedPrefixes == [] {
        settings := settings.(ownedPrefixes := [ip]);
      }
    }
    r := Success(settings);
  }

  /** The request names the node, asks for the configured stealth or else the node's own and for
      the configured address or else that of its TUN, and is for the home gateway's stealth. */
  lemma {:induction false} RequestStates(s: Settings, client: ClientConfig, home: Peer, requestId: nat)
    ensures var msg := BootstrapRequest(s, client, home, requestId);
            && msg.BootstrapReq? && msg.requestId == requestId && msg.nodeId == s.id && msg.capabilities == client.capabilities
            && msg.targetGatewayStealth == home.stealth
            && msg.requestedStealth == (if client.requestedStealth.Some? then client.requestedStealth.value else s.stealth)
            && (client.requestedOverlayIp.Some? ==> msg.requestedOverlayIp == client.requestedOverlayIp)
            && (client.requestedOverlayIp.None? && s.tun.Some? ==> msg.requestedOverlayIp == s.tun.value)
            && (client.requestedOverlayIp.None? && s.tun.None? ==> msg.requestedOverlayIp == None)
  {
  }

  /** Nothing the operator configured is overwritten but the stealth; what is missing is filled in. */
  lemma {:induction false} OnlyMissingFilled(s: Settings, resp: Message)
    requires resp.BootstrapResp? && Adopt(s, resp).Success?
    ensures var v := Adopt(s, resp).value;
            && v.id == s.id && v.client == s.client && v.stealth == resp.assignedStealth
            && (s.tun.None? ==> v.tun.None?)
            && (s.tun.Some? && s.tun.value.Some? ==> v.tun == s.tun)
            && (s.ownedPrefixes != [] ==> v.ownedPrefixes == s.ownedPrefixes)
            && (v.tun != s.tun || v.ownedPrefixes != s.ownedPrefixes ==> resp.assignedOverlayIp.Some?)
            && (resp.assignedOverlayIp.Some? && s.tun == Some(None) ==> v.tun == Some(resp.assignedOverlayIp))
            && (resp.assignedOverlayIp.Some? && s.ownedPrefixes == [] ==> v.ownedPrefixes == [resp.assignedOverlayIp.value])
  {
  }

  lemma {:induction false} SkippedPrefix(peers: map<string, Peer>, skipped: seq<Packet>, rest: seq<Packet>, expected: nat)
    requires forall i :: 0 <= i < |skipped| ==> Decode(peers, skipped[i], expected).Ignored?
    ensures FirstVerdict(peers, skipped + rest, expected) == FirstVerdict(peers, rest, expected)
  {
    if skipped == [] {
      assert skipped + rest == rest;
    } else {
      assert (skipped + rest)[1..] == skipped[1..] + rest;
      SkippedPrefix(peers, skipped[1..], rest, expected);
    }
  }

  /** A client whose request is opened by its home gateway, and that receives the gateway's answer
      after any number of packets it skips, ends up with exactly the stealth it asked for, and
      with the address it asked for wherever it had none. */
  lemma {:induction false} GatewayGrantsRequest(s: Settings, peers: map<string, Peer>, requestId: nat, gateway: Config,
                                                t: Tables, order: seq<string>, skipped: seq<Packet>, rest: seq<Packet>)
    requires s.client.Some? && s.client.value.homeGatewayId in peers && Enumerates(order, t.registered)
    requires gateway.role == Gateway && gateway.stealth == peers[s.client.value.homeGatewayId].stealth
    requires s.id in gateway.peersById && gateway.peersById[s.id].id == s.id
    requires gateway.id in peers
    requires gateway.peersById[s.id].key == peers[s.client.value.homeGatewayId].key == peers[gateway.id].key
    requires forall i :: 0 <= i < |skipped| ==> Skipped(peers, skipped[i], requestId)
    ensures var client := s.client.value;
            var home := peers[client.homeGatewayId];
            var frame := Frame(MAGIC, VERSION, s.id, Sealed(home.key, s.id, BootstrapRequest(s, client, home, requestId)));
            var e := Receive(gateway, t, frame, order);
            && e.sent.Some? && e.sent.value.to == gateway.peersById[s.id].addr
            && var verdict := FirstVerdict(peers, skipped + [Framed(e.sent.value.frame, true)] + rest, requestId);
            && verdict.Answers? && Adopt(s, verdict.resp).Success?
            && var v := Adopt(s, verdict.resp).value;
            && v.stealth == (if client.requestedStealth.Some? then client.requestedStealth.value else s.stealth)
            && (s.tun == Some(None) && client.requestedOverlayIp.Some? ==> v.tun == Some(client.requestedOverlayIp))
            && (s.ownedPrefixes == [] && client.requestedOverlayIp.Some? ==> v.ownedPrefixes == [client.requestedOverlayIp.value])
            && (s.ownedPrefixes == [] && client.requestedOverlayIp.None? && s.tun.Some? && s.tun.value.Some? ==>
                  v.ownedPrefixes == [s.tun.value.value])
  {
    forall i | 0 <= i < |skipped| ensures Decode(peers, skipped[i], requestId).Ignored? {
      DecodeIs(peers, skipped[i], requestId);
    }
    var home := peers[s.client.value.homeGatewayId];
    var frame := Frame(MAGIC, VERSION, s.id, Sealed(home.key, s.id, BootstrapRequest(s, s.client.value, home, requestId)));
    var e := Receive(gateway, t, frame, order);
    assert e.sent.Some?;
    var answer := Framed(e.sent.value.frame, true);
    assert skipped + [answer] + rest == skipped + ([answer] + rest);
    SkippedPrefix(peers, skipped, [answer] + rest, requestId);
  }
}
