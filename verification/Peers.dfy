/** The two peer indexes a daemon builds at start-up (src/daemon.rs:60-78). */
module Peers {
  import opened Wrappers
  import opened Node
  import opened KeyContext
  import LastWriter

  /** A configured peer; addr and publicKey are None when their text does not parse. */
  datatype PeerConfig = PeerConfig(id: string, stealth: string, addr: Option<Addr>, publicKey: Option<Key>)

  datatype IndexError = InvalidAddr | InvalidKey

  /** The node's half of the key agreement: a peer's public key and a context give a link key. */
  type Agreement = (Key, string) -> Key

  predicate Parses(p: PeerConfig) {
    p.addr.Some? && p.publicKey.Some?
  }

  ghost predicate AllParse(peers: seq<PeerConfig>) {
    forall i :: 0 <= i < |peers| ==> Parses(peers[i])
  }

  function Runtime(nodeId: string, derive: Agreement, p: PeerConfig): Peer
    requires Parses(p)
  {
    Peer(p.id, p.stealth, p.addr.value, derive(p.publicKey.value, SymmetricContext(nodeId, p.id)))
  }

  function ById(nodeId: string, derive: Agreement, peers: seq<PeerConfig>): (pairs: seq<(string, Peer)>)
    requires AllParse(peers)
    ensures |pairs| == |peers|
  {
    seq(|peers|, i requires 0 <= i < |peers| => (peers[i].id, Runtime(nodeId, derive, peers[i])))
  }

  function ByStealth(peers: seq<PeerConfig>): (pairs: seq<(string, string)>)
    ensures |pairs| == |peers|
  {
    seq(|peers|, i requires 0 <= i < |peers| => (peers[i].stealth, peers[i].id))
  }

  /** byId and byStealth are the indexes of this peer list. */
  ghost predicate Indexes(nodeId: string, derive: Agreement, peers: seq<PeerConfig>,
                          byId: map<string, Peer>, byStealth: map<string, string>)
  {
    && AllParse(peers)
    && byId == LastWriter.Inserted(ById(nodeId, derive, peers))
    && byStealth == LastWriter.Inserted(ByStealth(peers))
  }

  method IndexPeers(nodeId: string, derive: Agreement, peers: seq<PeerConfig>)
      returns (r: Result<(map<string, Peer>, map<string, string>), IndexError>)
    ensures r.Success? <==> AllParse(peers)
    ensures r.Success? ==> Indexes(nodeId, derive, peers, r.value.0, r.value.1)
    ensures r.Failure? ==> exists i :: && 0 <= i < |peers| && AllParse(peers[..i])
                                       && r.error == (if peers[i].addr.None? then InvalidAddr else InvalidKey)
                                       && !Parses(peers[i])
  {
    var byId: map<string, Peer>, byStealth: map<string, string> := map[], map[];
    for i := 0 to |peers|
      invariant AllParse(peers[..i])
      invariant byId == LastWriter.Inserted(ById(nodeId, derive, peers[..i]))
      invariant byStealth == LastWriter.Inserted(ByStealth(peers[..i]))
    {
      var p := peers[i];
      if p.addr.None? {
        return Failure(InvalidAddr);
      }
      if p.publicKey.None? {
        return Failure(InvalidKey);
      }
      byStealth := byStealth[p.stealth := p.id];
      byId := byId[p.id := Runtime(nodeId, derive, p)];
      assert peers[..i+1] == peers[..i] + [p];
      assert ById(nodeId, derive, peers[..i+1]) == ById(nodeId, derive, peers[..i]) + [(p.id, Runtime(nodeId, derive, p))];
      assert ByStealth(peers[..i+1]) == ByStealth(peers[..i]) + [(p.stealth, p.id)];
      LastWriter.InsertedSnoc(ById(nodeId, derive, peers[..i]), (p.id, Runtime(nodeId, derive, p)));
      LastWriter.InsertedSnoc(ByStealth(peers[..i]), (p.stealth, p.id));
    }
    assert peers[..|peers|] == peers;
    r := Success((byId, byStealth));
  }

  ghost predicate LastWithStealth(peers: seq<PeerConfig>, i: nat) {
    i < |peers| && forall j :: i < j < |peers| ==> peers[j].stealth != peers[i].stealth
  }

  ghost predicate LastWithId(peers: seq<PeerConfig>, i: nat) {
    i < |peers| && forall j :: i < j < |peers| ==> peers[j].id != peers[i].id
  }

  /** Both indexes hold the last entry given for their key, whatever ids and stealths repeat,
      and every id in the stealth index is a key of the id index. */
  lemma {:induction false} IndexesHoldLast(nodeId: string, derive: Agreement, peers: seq<PeerConfig>,
                                           byId: map<string, Peer>, byStealth: map<string, string>)
    requires Indexes(nodeId, derive, peers, byId, byStealth)
    ensures forall i: nat :: LastWithStealth(peers, i) ==> peers[i].stealth in byStealth && byStealth[peers[i].stealth] == peers[i].id
    ensures forall i: nat :: LastWithId(peers, i) ==> peers[i].id in byId && byId[peers[i].id] == Runtime(nodeId, derive, peers[i])
    ensures forall s :: s in byStealth ==>
              byStealth[s] in byId && exists i: nat :: LastWithStealth(peers, i) && peers[i].stealth == s && peers[i].id == byStealth[s]
    ensures forall k :: k in byId ==> byId[k].id == k && exists i: nat :: LastWithId(peers, i) && peers[i].id == k
  {
    var ids, stealths := ById(nodeId, derive, peers), ByStealth(peers);
    forall i: nat | LastWithStealth(peers, i) ensures peers[i].stealth in byStealth && byStealth[peers[i].stealth] == peers[i].id {
      LastWriter.InsertedContains(stealths, i);
    }
    forall i: nat | LastWithId(peers, i) ensures peers[i].id in byId && byId[peers[i].id] == Runtime(nodeId, derive, peers[i]) {
      LastWriter.InsertedContains(ids, i);
    }
    forall s | s in byStealth
      ensures byStealth[s] in byId && exists i: nat :: LastWithStealth(peers, i) && peers[i].stealth == s && peers[i].id == byStealth[s]
    {
      var i := LastWriter.InsertedHasLast(stealths, s);
      assert stealths[i] == (peers[i].stealth, peers[i].id);
      assert forall j :: i < j < |peers| ==> stealths[j].0 == peers[j].stealth;
      assert LastWithStealth(peers, i);
      LastWriter.InsertedContains(ids, i);
    }
    forall k | k in byId ensures byId[k].id == k && exists i: nat :: LastWithId(peers, i) && peers[i].id == k {
      var i := LastWriter.InsertedHasLast(ids, k);
      assert forall j :: i < j < |peers| ==> ids[j].0 == peers[j].id;
      assert LastWithId(peers, i);
    }
  }

  /** A node whose indexes were built that way never reports an unknown peer for a stealth it
      knows directly; the error is left to overlay routes through unconfigured peers. */
  lemma {:induction false} DirectPeerIsKnown(nodeId: string, derive: Agreement, peers: seq<PeerConfig>, cfg: Config,
                                             target: string)
    requires Indexes(nodeId, derive, peers, cfg.peersById, cfg.peersByStealth)
    ensures target in cfg.peersByStealth ==> NextPeer(cfg, target).Some?
    ensures NextPeer(cfg, target).None? <==>
              target !in cfg.peersByStealth &&
              (cfg.routing.NextHopVia(target).None? || cfg.routing.NextHopVia(target).value !in cfg.peersById)
  {
    IndexesHoldLast(nodeId, derive, peers, cfg.peersById, cfg.peersByStealth);
  }

  /** Following the stealth index and then the id index comes back to the same stealth. */
  ghost predicate Agree(byId: map<string, Peer>, byStealth: map<string, string>) {
    forall s :: s in byStealth ==> byStealth[s] in byId && byId[byStealth[s]].stealth == s
  }

  /** The indexes agree exactly when the last entry of each stealth is overridden by none for
      another stealth under the same id. */
  lemma {:induction false} IndexesAgreeIff(nodeId: string, derive: Agreement, peers: seq<PeerConfig>,
                                           byId: map<string, Peer>, byStealth: map<string, string>)
    requires Indexes(nodeId, derive, peers, byId, byStealth)
    ensures Agree(byId, byStealth) <==>
            forall i: nat, j: nat :: LastWithStealth(peers, i) && LastWithId(peers, j) && peers[i].id == peers[j].id ==>
              peers[i].stealth == peers[j].stealth
  {
    IndexesHoldLast(nodeId, derive, peers, byId, byStealth);
    if Agree(byId, byStealth) {
      forall i: nat, j: nat | LastWithStealth(peers, i) && LastWithId(peers, j) && peers[i].id == peers[j].id
        ensures peers[i].stealth == peers[j].stealth
      {
        assert byId[byStealth[peers[i].stealth]].stealth == peers[i].stealth;
      }
    }
  }

  /** In particular they agree when the ids are distinct. */
  lemma {:induction false} DistinctIdsAgree(nodeId: string, derive: Agreement, peers: seq<PeerConfig>,
                                            byId: map<string, Peer>, byStealth: map<string, string>)
    requires Indexes(nodeId, derive, peers, byId, byStealth)
    requires forall i, j :: 0 <= i < j < |peers| ==> peers[i].id != peers[j].id
    ensures Agree(byId, byStealth)
  {
    IndexesAgreeIff(nodeId, derive, peers, byId, byStealth);
  }

  /** With a repeated id they can disagree: traffic for the first stealth goes to the second peer. */
  lemma {:induction false} RepeatedIdDisagrees(derive: Agreement, key: Key)
    ensures var peers := [PeerConfig("gw", "stl:1", Some(1), Some(key)), PeerConfig("gw", "stl:2", Some(2), Some(key))];
            && AllParse(peers)
            && !Agree(LastWriter.Inserted(ById("me", derive, peers)), LastWriter.Inserted(ByStealth(peers)))
  {
    var peers := [PeerConfig("gw", "stl:1", Some(1), Some(key)), PeerConfig("gw", "stl:2", Some(2), Some(key))];
    var byId, byStealth := LastWriter.Inserted(ById("me", derive, peers)), LastWriter.Inserted(ByStealth(peers));
    assert peers[0].stealth != peers[1].stealth by {
      assert "stl:1"[4] != "stl:2"[4];
    }
    assert LastWithStealth(peers, 0) && LastWithId(peers, 1);
    IndexesAgreeIff("me", derive, peers, byId, byStealth);
  }
}
