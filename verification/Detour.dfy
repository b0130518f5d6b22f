/** A client that can be pinged and is registered, but never hears so: the way back to it from
    its gateway takes two hops, and acknowledgements make one only. */
module Detour {
  import opened Wrappers
  import opened Messages
  import opened Node
  import opened Networks
  import opened Paths
  import opened Sums
  import opened World
  import opened Flights
  import Accounts
  import Delivery
  import KeyContext
  import Peers
  import Provenance
  import Requests
  import Registrations
  import Routing

  const CLIENT: Addr := 0
  const RELAY: Addr := 1
  const GATEWAY: Addr := 2

  const REGISTERING := ClientConfig("gw", None, None, Some("new"), [])

  /** The gateway lists the client under the stealth it had before it asked for another one, and
      has an overlay route to the new stealth through the relay. */
  function Network(keys: Keys): Topology {
    map[CLIENT := Member(keys, "client", Client, "new", keys.Listed("gw", "home", GATEWAY), keys.Listed("relay", "half", RELAY),
                         Table(None, None, []), Some(REGISTERING)),
        RELAY := Member(keys, "relay", Gateway, "half", keys.Listed("client", "new", CLIENT), keys.Listed("gw", "home", GATEWAY),
                        Table(None, None, []), None),
        GATEWAY := Member(keys, "gw", Gateway, "home", keys.Listed("client", "old", CLIENT), keys.Listed("relay", "half", RELAY),
                          Table(None, Some(Routing.OverlayRoute("new", "relay")), []), None)]
  }

  lemma {:induction false} Different()
    ensures "gw" != "relay" && "client" != "gw" && "client" != "relay"
    ensures "home" != "half" && "new" != "home" && "new" != "half" && "old" != "half" && "new" != "old" && "old" != "home"
  {
    assert |"gw"| == 2 && |"relay"| == 5 && |"client"| == 6;
    assert "home"[1] != "half"[1] && "new"[0] != "old"[0] && |"new"| == |"old"| == 3 && |"home"| == |"half"| == 4;
  }

  lemma {:induction false} ClientStartable(keys: Keys)
    ensures Startable(Network(keys)[CLIENT])
  {
    Different();
    MemberStartable(keys, "client", Client, "new", keys.Listed("gw", "home", GATEWAY), keys.Listed("relay", "half", RELAY),
                    None, None, [], Some(REGISTERING));
  }

  lemma {:induction false} RelayStartable(keys: Keys)
    ensures Startable(Network(keys)[RELAY])
  {
    Different();
    MemberStartable(keys, "relay", Gateway, "half", keys.Listed("client", "new", CLIENT), keys.Listed("gw", "home", GATEWAY),
                    None, None, [], None);
  }

  lemma {:induction false} GatewayStartable(keys: Keys)
    ensures Startable(Network(keys)[GATEWAY])
  {
    Different();
    MemberStartable(keys, "gw", Gateway, "home", keys.Listed("client", "old", CLIENT), keys.Listed("relay", "half", RELAY),
                    None, Some(Routing.OverlayRoute("new", "relay")), [], None);
  }

  lemma {:induction false} ThreeBuildable(topo: Topology)
    requires topo.Keys == {CLIENT, RELAY, GATEWAY}
    requires Startable(topo[CLIENT]) && Startable(topo[RELAY]) && Startable(topo[GATEWAY])
    ensures Buildable(topo, 3)
  {
    assert |topo| == |topo.Keys|;
  }

  lemma {:induction false} NetworkBuildable(keys: Keys)
    ensures Buildable(Network(keys), 3)
  {
    ClientStartable(keys);
    RelayStartable(keys);
    GatewayStartable(keys);
    ThreeBuildable(Network(keys));
  }

  lemma {:induction false} WayThere(keys: Keys)
    ensures Registers(Network(keys), CLIENT) && Entrance(Network(keys), CLIENT) == Some(GATEWAY)
    ensures HomeStealth(Network(keys), CLIENT) == "home" == Network(keys)[GATEWAY].stealth
    ensures Hop(Network(keys), "home")(CLIENT) == Some(GATEWAY)
  {
    Different();
    KeyContext.ContextCommutes("client", "gw");
  }

  lemma {:induction false} HalfWayBack(keys: Keys)
    ensures Hop(Network(keys), "new")(GATEWAY) == Some(RELAY)
  {
    Different();
    KeyContext.ContextCommutes("relay", "gw");
  }

  lemma {:induction false} RestOfWayBack(keys: Keys)
    ensures Hop(Network(keys), "new")(RELAY) == Some(CLIENT)
  {
    Different();
    KeyContext.ContextCommutes("client", "relay");
  }

  lemma {:induction false} StealthsUnique(keys: Keys)
    ensures Requests.UniqueStealths(Network(keys))
  {
    Different();
  }

  /** Registrations of the client end at the gateway, one hop away; the first hop back leads to
      the relay, and a second one would lead to the client. */
  lemma {:induction false} Ways(keys: Keys)
    ensures Enrols(Network(keys), CLIENT, GATEWAY)
    ensures Hop(Network(keys), "new")(GATEWAY) == Some(RELAY) && Hop(Network(keys), "new")(RELAY) == Some(CLIENT)
    ensures Hop(Network(keys), "home")(CLIENT) == Some(GATEWAY)
  {
    WayThere(keys);
    HalfWayBack(keys);
    RestOfWayBack(keys);
  }

  /** What can be sent comes back: requests of the client to the gateway are answered. */
  lemma {:induction false} PingsReturn(topo: Topology)
    requires {CLIENT, RELAY, GATEWAY} <= topo.Keys
    requires topo[CLIENT].stealth == "new" && topo[GATEWAY].stealth == "home" && topo[RELAY].stealth == "half"
    requires Hop(topo, "home")(CLIENT) == Some(GATEWAY)
    requires Hop(topo, "new")(GATEWAY) == Some(RELAY) && Hop(topo, "new")(RELAY) == Some(CLIENT)
    ensures RoundTrip(topo, CLIENT, "home")
  {
    Different();
    var there, back := Hop(topo, "home"), Hop(topo, "new");
    assert Walk(there, CLIENT, 0) == Some(CLIENT) && Walk(there, CLIENT, 1) == Some(GATEWAY);
    assert Walk(back, GATEWAY, 0) == Some(GATEWAY) && Walk(back, GATEWAY, 1) == Some(RELAY) && Walk(back, GATEWAY, 2) == Some(CLIENT);
    assert ReachesIn(topo, CLIENT, "home", None, GATEWAY, 1);
    assert ReachesIn(topo, GATEWAY, "new", None, CLIENT, 2);
    assert Reaches(topo, CLIENT, "home", None, GATEWAY) && Reaches(topo, GATEWAY, "new", None, CLIENT);
  }

  /** In no run of this network does the client open an acknowledgement. */
  lemma {:induction false} NeverAcknowledged(keys: Keys, steps: seq<Step>, i: nat)
    requires i < |Run(Network(keys), steps).ends|
    ensures Run(Network(keys), steps).ends[i].fate != Acknowledged(CLIENT)
  {
    var topo := Network(keys);
    Ways(keys);
    Provenance.RunKeepsFlights(topo, steps);
    var w := Run(topo, steps);
    assert EndOk(topo, w.causes, w.ends[i]);
    forall origin, g | Enrols(topo, origin, g) ensures origin == CLIENT && g == GATEWAY {
      OnlyClient(keys, origin);
      EnrolledOnce(topo, CLIENT, g, GATEWAY);
    }
  }

  lemma {:induction false} OnlyClient(keys: Keys, origin: Addr)
    requires Registers(Network(keys), origin)
    ensures origin == CLIENT
  {
  }

  // ---------- a run ----------

  /** What the run needs to know of a network. */
  ghost predicate Detours(topo: Topology) {
    && topo.Keys == {CLIENT, RELAY, GATEWAY}
    && Registers(topo, CLIENT) && HomePeer(topo[CLIENT]).value.addr == GATEWAY && Opens(topo[GATEWAY], topo[CLIENT], HomePeer(topo[CLIENT]).value)
    && topo[GATEWAY].stealth == HomeStealth(topo, CLIENT)
    && NextPeer(topo[GATEWAY], topo[CLIENT].stealth).Some?
    && NextPeer(topo[GATEWAY], topo[CLIENT].stealth).value.addr == RELAY
    && Opens(topo[RELAY], topo[GATEWAY], NextPeer(topo[GATEWAY], topo[CLIENT].stealth).value)
  }

  function Registered(topo: Topology): World
    requires Detours(topo)
  {
    Next(topo, Start(topo), Register(CLIENT))
  }

  lemma {:induction false} Registering(topo: Topology)
    requires Detours(topo)
    ensures var w := Registered(topo);
            && w.net == [Flight(SendDirect(topo[CLIENT], HomePeer(topo[CLIENT]).value, Registration(topo[CLIENT], 1)), 0, CLIENT, 0)]
            && w.causes == [RegisterFrom(CLIENT, 1)] && w.ends == [] && w.hosts.Keys == topo.Keys
            && forall a :: a in w.hosts ==> w.hosts[a].hand.None? && w.hosts[a].tables.registered == map[]
  {
  }

  ghost predicate Acknowledging(topo: Topology, w: World)
    requires Detours(topo)
  {
    && w.net == [Flight(SendDirect(topo[GATEWAY], NextPeer(topo[GATEWAY], topo[CLIENT].stealth).value, Ack(topo, CLIENT, GATEWAY, 1)), 0, GATEWAY, 0)]
    && w.causes == [RegisterFrom(CLIENT, 1)] && w.ends == [] && w.hosts.Keys == topo.Keys
    && topo[CLIENT].stealth in w.hosts[GATEWAY].tables.registered
    && w.hosts[RELAY].hand.None? && w.hosts[RELAY].tables.registered == map[]
  }

  /** The gateway accepts the registration and answers to the relay. */
  lemma {:induction false} GatewayAnswers(topo: Topology, f: Flight, t: Tables)
    requires Detours(topo) && t.registered == map[]
    requires f.dg == SendDirect(topo[CLIENT], HomePeer(topo[CLIENT]).value, Registration(topo[CLIENT], 1))
    ensures var e := Receive(topo[GATEWAY], t, f.dg.frame, []);
            && topo[CLIENT].stealth in e.tables.registered && !Relays(topo[GATEWAY], f.Msg())
            && e.sent == Some(SendDirect(topo[GATEWAY], NextPeer(topo[GATEWAY], topo[CLIENT].stealth).value, Ack(topo, CLIENT, GATEWAY, 1)))
  {
    OpensSent(topo[GATEWAY], topo[CLIENT], HomePeer(topo[CLIENT]).value, f.Msg());
    ForwardUsesNextPeer(topo[GATEWAY], topo[CLIENT].stealth, Ack(topo, CLIENT, GATEWAY, 1));
    ReceiveRouted(topo[GATEWAY], t, f, []);
  }

  lemma {:induction false} Accepting(topo: Topology)
    requires Detours(topo)
    ensures Acknowledging(topo, Next(topo, Registered(topo), Deliver(0, [])))
  {
    Registering(topo);
    AcceptingFrom(topo, Registered(topo));
  }

  lemma {:induction false} AcceptingFrom(topo: Topology, w: World)
    requires Detours(topo)
    requires w.net == [Flight(SendDirect(topo[CLIENT], HomePeer(topo[CLIENT]).value, Registration(topo[CLIENT], 1)), 0, CLIENT, 0)]
    requires w.causes == [RegisterFrom(CLIENT, 1)] && w.ends == [] && w.hosts.Keys == topo.Keys
    requires forall a :: a in w.hosts ==> w.hosts[a].hand.None? && w.hosts[a].tables.registered == map[]
    ensures Acknowledging(topo, Next(topo, w, Deliver(0, [])))
  {
    GatewayAnswers(topo, w.net[0], w.hosts[GATEWAY].tables);
    assert CanReceive(topo, w, 0, []);
    assert Without(w.net, 0) == [];
  }

  lemma {:induction false} Stopping(topo: Topology, w: World)
    requires Detours(topo) && Acknowledging(topo, w)
    ensures var v := Next(topo, w, Deliver(0, []));
            && v.net == [] && v.causes == w.causes && v.ends == [End(0, Acknowledged(RELAY))]
            && v.hosts.Keys == topo.Keys && topo[CLIENT].stealth in v.hosts[GATEWAY].tables.registered
  {
    OpensSent(topo[RELAY], topo[GATEWAY], NextPeer(topo[GATEWAY], topo[CLIENT].stealth).value, w.net[0].Msg());
    assert CanReceive(topo, w, 0, []);
    assert Without(w.net, 0) == [];
  }

  lemma {:induction false} NetworkDetours(keys: Keys)
    ensures Detours(Network(keys))
  {
    Different();
    Ways(keys);
    KeyContext.ContextCommutes("client", "gw");
    KeyContext.ContextCommutes("relay", "gw");
  }

  lemma {:induction false} StoppingRun(topo: Topology) returns (steps: seq<Step>)
    requires Detours(topo)
    ensures var w := Run(topo, steps);
            Unheard(topo, w)
  {
    StartReachable(topo);
    NextReachable(topo, Start(topo), Register(CLIENT));
    var w := Next(topo, Registered(topo), Deliver(0, []));
    NextReachable(topo, Registered(topo), Deliver(0, []));
    Accepting(topo);
    NextReachable(topo, w, Deliver(0, []));
    Stopping(topo, w);
    steps :| Next(topo, w, Deliver(0, [])) == Run(topo, steps);
  }

  /** Start-up can build the network, its stealths are unique, and a request of the client to
      the gateway would come back. */
  ghost predicate WellSetUp(topo: Topology) {
    Buildable(topo, 3) && Requests.UniqueStealths(topo) && GATEWAY in topo && RoundTrip(topo, CLIENT, topo[GATEWAY].stealth)
  }

  lemma {:induction false} NetworkWellSetUp(keys: Keys)
    ensures WellSetUp(Network(keys))
  {
    NetworkBuildable(keys);
    StealthsUnique(keys);
    Ways(keys);
    Stealths(keys);
    PingsReturn(Network(keys));
  }

  lemma {:induction false} Stealths(keys: Keys)
    ensures {CLIENT, RELAY, GATEWAY} <= Network(keys).Keys
    ensures Network(keys)[CLIENT].stealth == "new" && Network(keys)[GATEWAY].stealth == "home" && Network(keys)[RELAY].stealth == "half"
  {
  }

  /** The run has settled without loss, the client is entered at its gateway, and the
      acknowledgement has ended at the relay. */
  ghost predicate Unheard(topo: Topology, w: World) {
    && w.causes == [RegisterFrom(CLIENT, 1)] && Delivery.SettledWithoutLoss(w, 0)
    && CLIENT in topo && GATEWAY in w.hosts && topo[CLIENT].stealth in w.hosts[GATEWAY].tables.registered
    && w.ends == [End(0, Acknowledged(RELAY))]
  }

  /** In some run of this network a registration succeeds without the client hearing of it; in
      no run does the client ever open an acknowledgement. */
  lemma {:induction false} AckNeverArrives(keys: Keys) returns (steps: seq<Step>)
    ensures WellSetUp(Network(keys)) && Unheard(Network(keys), Run(Network(keys), steps))
    ensures forall other: seq<Step>, i: nat :: i < |Run(Network(keys), other).ends| ==>
              Run(Network(keys), other).ends[i].fate != Acknowledged(CLIENT)
  {
    NetworkWellSetUp(keys);
    NetworkDetours(keys);
    steps := StoppingRun(Network(keys));
    forall other: seq<Step>, i: nat | i < |Run(Network(keys), other).ends|
      ensures Run(Network(keys), other).ends[i].fate != Acknowledged(CLIENT)
    {
      NeverAcknowledged(keys, other, i);
    }
  }
}
