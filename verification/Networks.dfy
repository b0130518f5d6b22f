/** Networks to show a bound or a failure with: nodes as start-up builds them, their peer indexes
    from a peer list, their routing table from a configuration, whatever the keys are. */
module Networks {
  import opened Wrappers
  import opened Node
  import opened KeyContext
  import LastWriter
  import Peers
  import Routing
  import World

  /** The public key of each node, and the key of each link as a function of its context: with
      distinct contexts this is any assignment of keys to links. */
  datatype Keys = Keys(public: Addr -> Key, link: string -> Key) {
    function Derive(): Peers.Agreement {
      (public: Key, context: string) => link(context)
    }

    function Listed(id: string, stealth: string, addr: Addr): Peers.PeerConfig {
      Peers.PeerConfig(id, stealth, Some(addr), Some(public(addr)))
    }

    /** How a node knows the peer with that entry. */
    function Known(nodeId: string, id: string, stealth: string, addr: Addr): Peer {
      Peer(id, stealth, addr, link(SymmetricContext(nodeId, id)))
    }
  }

  /** Start-up can build this node: its indexes come from a list of peers, its routing table
      from a configuration. */
  ghost predicate Startable(cfg: Config) {
    && (exists derive, peers :: Peers.Indexes(cfg.id, derive, peers, cfg.peersById, cfg.peersByStealth))
    && (exists routing :: Routing.AllParse(routing) && Routing.BuiltFrom(cfg.routing, routing))
  }

  /** A network of n nodes that start-up can build. */
  ghost predicate Buildable(topo: World.Topology, n: nat) {
    |topo| == n && forall a :: a in topo ==> Startable(topo[a])
  }

  /** Two insertions under different keys. */
  lemma {:induction false} InsertedPair<K, V>(x: (K, V), y: (K, V))
    requires x.0 != y.0
    ensures LastWriter.Inserted([x, y]) == map[x.0 := x.1, y.0 := y.1]
  {
    assert [x, y] == ([] + [x]) + [y] && [] + [x] == [x];
    LastWriter.InsertedSnoc([], x);
    LastWriter.InsertedSnoc([x], y);
  }

  /** The indexes of a list of two different peers. */
  lemma {:induction false} TwoPeers(keys: Keys, nodeId: string, p: Peers.PeerConfig, q: Peers.PeerConfig)
    requires Peers.Parses(p) && Peers.Parses(q) && p.id != q.id && p.stealth != q.stealth
    ensures Peers.Indexes(nodeId, keys.Derive(), [p, q],
                          map[p.id := keys.Known(nodeId, p.id, p.stealth, p.addr.value),
                              q.id := keys.Known(nodeId, q.id, q.stealth, q.addr.value)],
                          map[p.stealth := p.id, q.stealth := q.id])
  {
    var ids := ((p.id, keys.Known(nodeId, p.id, p.stealth, p.addr.value)), (q.id, keys.Known(nodeId, q.id, q.stealth, q.addr.value)));
    assert Peers.ById(nodeId, keys.Derive(), [p, q]) == [ids.0, ids.1];
    assert Peers.ByStealth([p, q]) == [(p.stealth, p.id), (q.stealth, q.id)];
    InsertedPair(ids.0, ids.1);
    InsertedPair((p.stealth, p.id), (q.stealth, q.id));
  }

  /** The table of at most one route, at most one overlay route and owned prefixes. */
  function Table(route: Option<Routing.RouteEntry>, overlay: Option<Routing.OverlayRoute>, owned: seq<Routing.Net>): Routing.RoutingTable {
    Routing.RoutingTable(if route.Some? then [route.value] else [],
                         if overlay.Some? then map[overlay.value.destination := overlay.value.via] else map[], owned)
  }

  /** A list of at most one route is its own stable sort. */
  lemma {:induction false} SortedAlready(routes: seq<Routing.RouteEntry>)
    requires |routes| <= 1
    ensures Routing.StableSortOf(routes, routes)
  {
  }

  lemma {:induction false} OneOverlay(overlay: Option<Routing.OverlayRoute>)
    ensures LastWriter.Inserted(Routing.OverlayPairs(if overlay.Some? then [overlay.value] else []))
            == if overlay.Some? then map[overlay.value.destination := overlay.value.via] else map[]
  {
    if overlay.Some? {
      var pair := (overlay.value.destination, overlay.value.via);
      assert Routing.OverlayPairs([overlay.value]) == [] + [pair];
      LastWriter.InsertedSnoc([], pair);
    }
  }

  function StaticMap(route: Option<Routing.RouteEntry>): seq<Routing.StaticRoute> {
    match route
    case Some(r) => [Routing.StaticRoute(Some(r.prefix), r.stealth, r.metric, r.mode)]
    case None => []
  }

  lemma {:induction false} TableBuilt(route: Option<Routing.RouteEntry>, overlay: Option<Routing.OverlayRoute>, owned: seq<Routing.Net>)
    ensures exists routing :: Routing.AllParse(routing) && Routing.BuiltFrom(Table(route, overlay, owned), routing)
  {
    var routing := Routing.RoutingConfig(StaticMap(route), if overlay.Some? then [overlay.value] else [],
                                         seq(|owned|, i requires 0 <= i < |owned| => Some(owned[i])));
    OneOverlay(overlay);
    assert Routing.Configured(routing) == Table(route, overlay, owned).routes;
    SortedAlready(Table(route, overlay, owned).routes);
    assert Routing.AllParse(routing) && Routing.BuiltFrom(Table(route, overlay, owned), routing);
  }

  /** A node with two peers and that table; it has a TUN. */
  function Member(keys: Keys, id: string, role: Role, stealth: string, p: Peers.PeerConfig, q: Peers.PeerConfig,
                  table: Routing.RoutingTable, client: Option<ClientConfig>): Config
    requires Peers.Parses(p) && Peers.Parses(q)
  {
    Config(id, role, stealth, 1300, true, None, table,
           map[p.id := keys.Known(id, p.id, p.stealth, p.addr.value), q.id := keys.Known(id, q.id, q.stealth, q.addr.value)],
           map[p.stealth := p.id, q.stealth := q.id], None, client)
  }

  lemma {:induction false} MemberStartable(keys: Keys, id: string, role: Role, stealth: string,
                                           p: Peers.PeerConfig, q: Peers.PeerConfig, route: Option<Routing.RouteEntry>,
                                           overlay: Option<Routing.OverlayRoute>, owned: seq<Routing.Net>, client: Option<ClientConfig>)
    requires Peers.Parses(p) && Peers.Parses(q) && p.id != q.id && p.stealth != q.stealth
    ensures Startable(Member(keys, id, role, stealth, p, q, Table(route, overlay, owned), client))
  {
    TwoPeers(keys, id, p, q);
    TableBuilt(route, overlay, owned);
  }
}
