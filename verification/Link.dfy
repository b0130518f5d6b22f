/** One hop over one link: what send_direct puts into a UDP datagram is what handle_datagram
    takes out of it (src/daemon.rs:409-423, 637-658; src/crypto.rs:53-100). The primitives are
    parameters; what is used of them is stated as laws. */
module Link {
  import opened Wrappers
  import opened Ip
  import opened Messages
  import opened Node
  import opened KeyContext
  import opened World
  import Flights
  import Peers

  type Bytes = seq<Byte>

  datatype OuterFrame = OuterFrame(magic: Bytes, version: U8, senderId: string, nonce: Bytes, ciphertext: Bytes)

  /** X25519, HKDF, ChaCha20-Poly1305 and bincode. */
  datatype Primitives = Primitives(
    publicKey: Bytes -> Key,
    exchange: (Bytes, Key) -> Bytes,
    expand: (Bytes, string) -> Key,
    encrypt: (Key, Bytes, string, Bytes) -> Bytes,
    decrypt: (Key, Bytes, string, Bytes) -> Option<Bytes>,
    encodeMessage: Message -> Bytes,
    decodeMessage: Bytes -> Option<Message>,
    encodeFrame: OuterFrame -> Bytes,
    decodeFrame: Bytes -> Option<OuterFrame>)
  {
    /** Key agreement commutes, the encodings are undone by their inverses, and what is encrypted
        opens under the same key and associated data and no other. */
    ghost predicate Laws() {
      && (forall a, b :: exchange(a, publicKey(b)) == exchange(b, publicKey(a)))
      && (forall k, n, aad, m, j, bad :: decrypt(j, n, bad, encrypt(k, n, aad, m)) == if j == k && bad == aad then Some(m) else None)
      && (forall m :: decodeMessage(encodeMessage(m)) == Some(m))
      && (forall f :: decodeFrame(encodeFrame(f)) == Some(f))
    }

    /** Identity::derive_shared_key with this secret. */
    function Derive(secret: Bytes): Peers.Agreement {
      (public: Key, context: string) => expand(exchange(secret, public), context)
    }
  }

  /** send_direct: the bytes handed to the socket. */
  function SendBytes(p: Primitives, nodeId: string, key: Key, nonce: Bytes, msg: Message): Bytes {
    p.encodeFrame(OuterFrame(MAGIC, VERSION, nodeId, nonce, p.encrypt(key, nonce, nodeId, p.encodeMessage(msg))))
  }

  /** The head of handle_datagram, up to the protocol message. */
  function ReceiveBytes(p: Primitives, peersById: map<string, Peer>, packet: Bytes): Result<Message, Error> {
    match p.decodeFrame(packet)
    case None => Failure(InvalidFrame)
    case Some(frame) =>
      if frame.magic != MAGIC then Failure(BadMagic)
      else if frame.version != VERSION then Failure(UnsupportedVersion)
      else if frame.senderId !in peersById then Failure(UnknownSender)
      else
        match p.decrypt(peersById[frame.senderId].key, frame.nonce, frame.senderId, frame.ciphertext)
        case None => Failure(DecryptionFailed)
        case Some(plaintext) =>
          match p.decodeMessage(plaintext)
          case None => Failure(InvalidMessage)
          case Some(msg) => Success(msg)
  }

  /** peer is how a node with this id and secret knows the node with that id and secret. */
  ghost predicate Knows(p: Primitives, id: string, secret: Bytes, peer: Peer, otherId: string, otherSecret: Bytes) {
    peer.id == otherId && peer.key == p.Derive(secret)(p.publicKey(otherSecret), SymmetricContext(id, otherId))
  }

  /** Each end derives the key the other end derives. */
  lemma {:induction false} KeysAgree(p: Primitives, a: string, secretA: Bytes, b: string, secretB: Bytes, peerB: Peer, peerA: Peer)
    requires p.Laws()
    requires Knows(p, a, secretA, peerB, b, secretB) && Knows(p, b, secretB, peerA, a, secretA)
    ensures peerA.key == peerB.key
  {
    ContextCommutes(a, b);
    assert p.exchange(secretA, p.publicKey(secretB)) == p.exchange(secretB, p.publicKey(secretA));
  }

  /** Hop round trip: between nodes that list each other with the right id and public key, the
      message that goes in at one end comes out at the other. */
  lemma {:induction false} HopRoundTrip(p: Primitives, a: string, secretA: Bytes, b: string, secretB: Bytes,
                                        peerB: Peer, peersOfB: map<string, Peer>, nonce: Bytes, msg: Message)
    requires p.Laws() && Knows(p, a, secretA, peerB, b, secretB)
    requires a in peersOfB && Knows(p, b, secretB, peersOfB[a], a, secretA)
    ensures ReceiveBytes(p, peersOfB, SendBytes(p, a, peerB.key, nonce, msg)) == Success(msg)
  {
    KeysAgree(p, a, secretA, b, secretB, peerB, peersOfB[a]);
    assert p.decrypt(peerB.key, nonce, a, p.encrypt(peerB.key, nonce, a, p.encodeMessage(msg))) == Some(p.encodeMessage(msg));
  }

  /** Start-up gives a node, for each id, the address and stealth of the last entry listed with it
      and the key agreed with that entry's public key. */
  lemma {:induction false} ListedPeerKnown(p: Primitives, nodeId: string, secret: Bytes, peers: seq<Peers.PeerConfig>,
                                           byId: map<string, Peer>, byStealth: map<string, string>, i: nat, otherSecret: Bytes)
    requires Peers.Indexes(nodeId, p.Derive(secret), peers, byId, byStealth)
    requires Peers.LastWithId(peers, i) && peers[i].publicKey == Some(p.publicKey(otherSecret))
    ensures peers[i].id in byId
    ensures var peer := byId[peers[i].id];
            && Some(peer.addr) == peers[i].addr && peer.stealth == peers[i].stealth
            && peer.key == p.expand(p.exchange(secret, p.publicKey(otherSecret)), SymmetricContext(nodeId, peers[i].id))
            && Knows(p, nodeId, secret, peer, peers[i].id, otherSecret)
  {
    Peers.IndexesHoldLast(nodeId, p.Derive(secret), peers, byId, byStealth);
  }

  /** From the two configurations to the message: nodes a and b each list the other, last under
      its id, with its public key; then what a sends to b is opened by b as it was. */
  lemma {:induction false} ListedHopRoundTrip(p: Primitives, a: string, secretA: Bytes, b: string, secretB: Bytes,
                                              peersA: seq<Peers.PeerConfig>, peersB: seq<Peers.PeerConfig>,
                                              byIdA: map<string, Peer>, byStealthA: map<string, string>,
                                              byIdB: map<string, Peer>, byStealthB: map<string, string>,
                                              i: nat, j: nat, nonce: Bytes, msg: Message)
    requires p.Laws()
    requires Peers.Indexes(a, p.Derive(secretA), peersA, byIdA, byStealthA)
    requires Peers.Indexes(b, p.Derive(secretB), peersB, byIdB, byStealthB)
    requires Peers.LastWithId(peersA, i) && peersA[i].id == b && peersA[i].publicKey == Some(p.publicKey(secretB))
    requires Peers.LastWithId(peersB, j) && peersB[j].id == a && peersB[j].publicKey == Some(p.publicKey(secretA))
    ensures b in byIdA && ReceiveBytes(p, byIdB, SendBytes(p, a, byIdA[b].key, nonce, msg)) == Success(msg)
  {
    ListedPeerKnown(p, a, secretA, peersA, byIdA, byStealthA, i, secretB);
    ListedPeerKnown(p, b, secretB, peersB, byIdB, byStealthB, j, secretA);
    Peers.IndexesHoldLast(a, p.Derive(secretA), peersA, byIdA, byStealthA);
    Peers.IndexesHoldLast(b, p.Derive(secretB), peersB, byIdB, byStealthB);
    HopRoundTrip(p, a, secretA, b, secretB, byIdA[b], byIdB, nonce, msg);
  }

  /** The bytes of a frame of the network model, whoever made it. */
  function FrameBytes(p: Primitives, frame: Frame, nonce: Bytes): Bytes {
    p.encodeFrame(OuterFrame(frame.magic, frame.version, frame.senderId, nonce,
                             p.encrypt(frame.sealed.key, nonce, frame.sealed.aad, p.encodeMessage(frame.sealed.msg))))
  }

  /** The network model's ideal box is what the bytes do: whatever frame they spell, whatever node
      they reach and whatever it knows of the sender, they are opened, or refused for the same
      reason, as the frame of the model is; and a node sends the bytes of the frame that the
      model has it send. */
  lemma {:induction false} BytesOpenAsFrames(p: Primitives, frame: Frame, nonce: Bytes, receiver: Config,
                                             sender: Config, peer: Peer, msg: Message)
    requires p.Laws()
    ensures ReceiveBytes(p, receiver.peersById, FrameBytes(p, frame, nonce)) == OpenFrame(receiver, frame)
    ensures SendBytes(p, sender.id, peer.key, nonce, msg) == FrameBytes(p, SendDirect(sender, peer, msg).frame, nonce)
  {
    var sealed := frame.sealed;
    var outer := OuterFrame(frame.magic, frame.version, frame.senderId, nonce,
                            p.encrypt(sealed.key, nonce, sealed.aad, p.encodeMessage(sealed.msg)));
    assert p.decodeFrame(p.encodeFrame(outer)) == Some(outer);
    if frame.senderId in receiver.peersById {
      var j := receiver.peersById[frame.senderId].key;
      assert p.decrypt(j, nonce, frame.senderId, outer.ciphertext)
             == if j == sealed.key && frame.senderId == sealed.aad then Some(p.encodeMessage(sealed.msg)) else None;
    }
  }

  /** Bytes that are no frame, and plaintext that is no message, are refused as such. */
  lemma {:induction false} UnreadableRefused(p: Primitives, peersById: map<string, Peer>, packet: Bytes)
    ensures ReceiveBytes(p, peersById, packet) == Failure(InvalidFrame) <==> p.decodeFrame(packet).None?
    ensures ReceiveBytes(p, peersById, packet) == Failure(InvalidMessage) <==>
            && p.decodeFrame(packet).Some?
            && var f := p.decodeFrame(packet).value;
            && f.magic == ['S' as int, 'T' as int, 'N' as int, '1' as int] && f.version == 1 && f.senderId in peersById
            && p.decrypt(peersById[f.senderId].key, f.nonce, f.senderId, f.ciphertext).Some?
            && p.decodeMessage(p.decrypt(peersById[f.senderId].key, f.nonce, f.senderId, f.ciphertext).value).None?
  {
    assert MAGIC == ['S' as int, 'T' as int, 'N' as int, '1' as int];
  }

  /** The entry for id at a names the node that listens at its address, and that node lists a's
      node; each has the other's public key. */
  ghost predicate AccurateEntry(p: Primitives, topo: Topology, secrets: map<Addr, Bytes>, a: Addr, id: string)
    requires a in topo && a in secrets && id in topo[a].peersById
  {
    var peer := topo[a].peersById[id];
    && peer.addr in topo && peer.addr in secrets && topo[peer.addr].id == id
    && Knows(p, topo[a].id, secrets[a], peer, id, secrets[peer.addr])
    && topo[a].id in topo[peer.addr].peersById
    && Knows(p, id, secrets[peer.addr], topo[peer.addr].peersById[topo[a].id], topo[a].id, secrets[a])
  }

  /** A network whose peer entries are accurate and mutual. */
  ghost predicate Accurate(p: Primitives, topo: Topology, secrets: map<Addr, Bytes>) {
    && secrets.Keys == topo.Keys
    && forall a, id :: a in topo && id in topo[a].peersById ==> AccurateEntry(p, topo, secrets, a, id)
  }

  lemma {:induction false} AccurateOpens(p: Primitives, topo: Topology, secrets: map<Addr, Bytes>, a: Addr, id: string)
    requires p.Laws() && a in topo && a in secrets && id in topo[a].peersById && AccurateEntry(p, topo, secrets, a, id)
    ensures Opens(topo[topo[a].peersById[id].addr], topo[a], topo[a].peersById[id])
  {
    var peer := topo[a].peersById[id];
    KeysAgree(p, topo[a].id, secrets[a], id, secrets[peer.addr], peer, topo[peer.addr].peersById[topo[a].id]);
  }

  lemma {:induction false} NextPeerListed(cfg: Config, toward: string) returns (id: string)
    requires NextPeer(cfg, toward).Some?
    ensures id in cfg.peersById && NextPeer(cfg, toward) == Some(cfg.peersById[id])
  {
    id := if toward in cfg.peersByStealth then cfg.peersByStealth[toward] else cfg.routing.NextHopVia(toward).value;
  }

  /** In such a network every link works: the next hop is simply the next peer's address. */
  lemma {:induction false} AccurateLinksWork(p: Primitives, topo: Topology, secrets: map<Addr, Bytes>, toward: string, a: Addr)
    requires p.Laws() && Accurate(p, topo, secrets) && a in topo
    ensures Flights.Hop(topo, toward)(a)
            == match NextPeer(topo[a], toward) case Some(peer) => Some(peer.addr) case None => None
  {
    if NextPeer(topo[a], toward).Some? {
      var id := NextPeerListed(topo[a], toward);
      assert AccurateEntry(p, topo, secrets, a, id);
      AccurateOpens(p, topo, secrets, a, id);
    }
  }
}
