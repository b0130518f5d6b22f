/** Long rows and rings of nodes, each sending a packet for "far" on to the next, in which a
    packet runs out of hops. The bounds that Bounds.dfy shows to be exact cannot be moved
    because of them. */
module Line {
  import opened Wrappers
  import opened Ip
  import opened Messages
  import opened Node
  import opened Paths
  import opened Sums
  import opened World
  import opened Networks
  import KeyContext
  import Accounts
  import Delivery
  import Flights
  import Peers
  import Routing

  const LAST: nat := 16
  const FAR := "far"

  /** A version 4 header for 0.0.0.0. */
  const PACKET: seq<Byte> := [64, 0, 0, 0, 0, 0, 0, 0, 0, 0, 0, 0, 0, 0, 0, 0, 0, 0, 0, 0]

  lemma {:induction false} PacketForZero()
    ensures PacketDestination(PACKET) == Some(IpAddr(V4, 0)) && !IpAddr(V4, 0).IsMulticast()
  {
    var field := PACKET[16..20];
    assert field == [0, 0, 0, 0];
    assert field[..3] == [0, 0, 0] && [0, 0, 0][..2] == [0, 0] && [0, 0][..1] == [0] && [0][..0] == [];
    assert FromOctets([0 as Byte]) == 0;
    assert FromOctets([0 as Byte, 0]) == 0;
    assert FromOctets([0 as Byte, 0, 0]) == 0;
    assert FromOctets(field) == 0;
  }

  // ---------- what a row is ----------

  function MessageAt(topo: Topology, k: nat): Message
    requires k < LAST && 0 in topo
  {
    Data(topo[0].stealth, FAR, 16 - k, PACKET)
  }

  /** Node k sends everything for "far" to node k + 1, which opens it and passes it on. */
  ghost predicate Joined(topo: Topology, k: nat) {
    && k in topo && k + 1 in topo
    && NextPeer(topo[k], FAR).Some? && NextPeer(topo[k], FAR).value.addr == k + 1
    && Opens(topo[k + 1], topo[k], NextPeer(topo[k], FAR).value)
    && !EndsAt(topo[k + 1], FAR, PacketDestination(PACKET))
  }

  ghost predicate IsRow(topo: Topology) {
    0 in topo && forall k: nat :: k < LAST ==> Joined(topo, k)
  }

  function ForwardedFirst(topo: Topology): Result<Option<Datagram>, Error>
    requires 0 in topo
  {
    match ForwardByStealth(topo[0], FAR, MessageAt(topo, 0))
    case Success(dg) => Success(Some(dg))
    case Failure(e) => Failure(e)
  }

  // ---------- one packet along a row ----------

  lemma {:induction false} SumOfZeros(s: seq<nat>)
    requires forall i :: 0 <= i < |s| ==> s[i] == 0
    ensures Sum(s, Accounts.Same(0)) == |s|
  {
    if s != [] {
      SumOfZeros(s[..|s|-1]);
    }
  }

  /** The packet is the only datagram in flight, between nodes k and k + 1. */
  ghost predicate Alone(topo: Topology, w: World, k: nat)
    requires k < LAST && Joined(topo, k) && 0 in topo
  {
    && w.net == [Flight(SendDirect(topo[k], NextPeer(topo[k], FAR).value, MessageAt(topo, k)), 0, 0, k)]
    && |w.emitted| == k + 1 && (forall i :: 0 <= i <= k ==> w.emitted[i] == 0)
    && w.dups == [] && |w.causes| == 1 && w.causes[0].DataFrom?
    && w.hosts.Keys == topo.Keys
    && forall a :: a in w.hosts ==> w.hosts[a].hand.None? && w.hosts[a].tables.registered == map[]
  }

  lemma {:induction false} Injected(topo: Topology)
    requires IsRow(topo) && Joined(topo, 0) && topo[0].hasTun && HandleLocalPacket(topo[0], PACKET) == ForwardedFirst(topo)
    ensures Alone(topo, Next(topo, Start(topo), Inject(0, PACKET)), 0)
  {
    ForwardUsesNextPeer(topo[0], FAR, MessageAt(topo, 0));
  }

  lemma {:induction false} PassedOn(topo: Topology, w: World, k: nat)
    requires k + 1 < LAST && Joined(topo, k) && Joined(topo, k + 1) && 0 in topo && Alone(topo, w, k)
    ensures Alone(topo, Next(topo, w, Deliver(0, [])), k + 1)
  {
    var f, cfg, t := w.net[0], topo[k + 1], w.hosts[k + 1].tables;
    PacketForZero();
    OpensSent(cfg, topo[k], NextPeer(topo[k], FAR).value, MessageAt(topo, k));
    ForwardUsesNextPeer(cfg, FAR, MessageAt(topo, k + 1));
    assert f.Msg().Aged() == MessageAt(topo, k + 1);
    assert CanReceive(topo, w, 0, []);
    Flights.ReceiveData(cfg, t, f, []);
    assert Without(w.net, 0) == [];
  }

  /** Some run has brought the packet between nodes k and k + 1. */
  ghost predicate Got(topo: Topology, k: nat) {
    k < LAST && 0 in topo && Joined(topo, k) && exists w :: Reachable(topo, w) && Alone(topo, w, k)
  }

  lemma {:induction false} FirstGot(topo: Topology)
    requires IsRow(topo) && Joined(topo, 0) && topo[0].hasTun && HandleLocalPacket(topo[0], PACKET) == ForwardedFirst(topo)
    ensures Got(topo, 0)
  {
    StartReachable(topo);
    NextReachable(topo, Start(topo), Inject(0, PACKET));
    Injected(topo);
  }

  lemma {:induction false} NextGot(topo: Topology, k: nat)
    requires Got(topo, k) && k + 1 < LAST && Joined(topo, k + 1)
    ensures Got(topo, k + 1)
  {
    var v :| Reachable(topo, v) && Alone(topo, v, k);
    NextReachable(topo, v, Deliver(0, []));
    PassedOn(topo, v, k);
  }

  /** Plain induction up to k. */
  lemma {:induction false} UpTo(holds: nat -> bool, k: nat)
    requires holds(0) && forall j: nat :: j < k && holds(j) ==> holds(j + 1)
    ensures holds(k)
  {
    if k > 0 {
      UpTo(holds, k - 1);
    }
  }

  // ---------- rows and rings ----------

  function Name(i: nat): string {
    seq(i + 1, _ => 'n')
  }

  lemma {:induction false} NamesDiffer(i: nat, j: nat)
    ensures Name(i) == Name(j) <==> i == j
    ensures Name(i) != FAR
  {
    assert |Name(i)| == i + 1 && |Name(j)| == j + 1;
    assert Name(i)[0] == 'n' && FAR[0] == 'f';
  }

  const EVERYWHERE: Routing.RouteEntry := Routing.RouteEntry(Routing.Prefix(V4, 0, 0), FAR, 10, "subnet")

  /** size nodes around a circle, each a peer of its two neighbours. Everything is routed to
      "far", and that stealth to the node after; in a row the last node does not know the way.
      The owner, if there is one, owns every address. */
  datatype Circle = Circle(size: nat, ring: bool, owner: Option<nat>, keys: Keys) {
    function After(i: nat): nat {
      if i + 1 == size then 0 else i + 1
    }

    function Before(i: nat): nat
      requires size > 0
    {
      if i == 0 then size - 1 else i - 1
    }

    predicate Sends(i: nat) {
      i < size && (ring || i + 1 < size)
    }

    function Link(i: nat, j: nat): Peer {
      keys.Known(Name(i), Name(j), Name(j), j)
    }

    function Listed(i: nat): Peers.PeerConfig {
      keys.Listed(Name(i), Name(i), i)
    }

    function Way(i: nat): Option<Routing.OverlayRoute> {
      if Sends(i) then Some(Routing.OverlayRoute(FAR, Name(After(i)))) else None
    }

    function Owned(i: nat): seq<Routing.Net> {
      if owner == Some(i) then [EVERYWHERE.prefix] else []
    }

    function Member(i: nat): Config
      requires 3 <= size && i < size
    {
      Networks.Member(keys, Name(i), Gateway, Name(i), Listed(Before(i)), Listed(After(i)),
                      Table(Some(EVERYWHERE), Way(i), Owned(i)), None)
    }

    function Network(): Topology
      requires 3 <= size
    {
      map i: nat | i < size :: Member(i)
    }
  }

  /** Every node of a circle is one that start-up can build. */
  lemma {:induction false} MembersStartable(c: Circle, i: nat)
    requires 3 <= c.size && i < c.size
    ensures Startable(c.Member(i))
  {
    NamesDiffer(c.Before(i), c.After(i));
    MemberStartable(c.keys, Name(i), Gateway, Name(i), c.Listed(c.Before(i)), c.Listed(c.After(i)),
                    Some(EVERYWHERE), c.Way(i), c.Owned(i), None);
  }

  lemma {:induction false} MemberSends(c: Circle, i: nat)
    requires 3 <= c.size && c.Sends(i)
    ensures NextPeer(c.Member(i), FAR) == Some(c.Link(i, c.After(i)))
    ensures Opens(c.Member(c.After(i)), c.Member(i), c.Link(i, c.After(i)))
  {
    var a, b := c.Before(i), c.After(i);
    NamesDiffer(a, b);
    NamesDiffer(b, i);
    NamesDiffer(i, c.After(b));
    KeyContext.ContextCommutes(Name(i), Name(b));
  }

  lemma {:induction false} MemberEnds(c: Circle, i: nat)
    requires 3 <= c.size && i < c.size
    ensures EndsAt(c.Member(i), FAR, PacketDestination(PACKET)) <==> c.owner == Some(i)
  {
    NamesDiffer(i, i);
    PacketForZero();
    Routing.OwnAddressInside(EVERYWHERE.prefix);
    if c.owner == Some(i) {
      assert c.Member(i).routing.ownedPrefixes[0].Contains(IpAddr(V4, 0));
    }
  }

  lemma {:induction false} MemberHops(c: Circle, i: nat)
    requires 3 <= c.size && c.Sends(i)
    ensures Flights.Hop(c.Network(), FAR)(i) == Some(c.After(i))
  {
    MemberSends(c, i);
    HopBy(c.Network(), i, c.Member(i), c.Member(c.After(i)), c.Link(i, c.After(i)));
  }

  lemma {:induction false} HopBy(topo: Topology, i: nat, here: Config, there: Config, p: Peer)
    requires i in topo && p.addr in topo && topo[i] == here && topo[p.addr] == there
    requires NextPeer(here, FAR) == Some(p) && Opens(there, here, p)
    ensures Flights.Hop(topo, FAR)(i) == Some(p.addr)
  {
  }

  lemma {:induction false} WalkOn<A>(next: A -> Option<A>, start: A, k: nat)
    ensures Walk(next, start, k + 1) == match Walk(next, start, k) case Some(a) => next(a) case None => None
  {
  }

  /** Each of the first n nodes leads to the one after it. */
  ghost predicate LeadsOn(next: Addr -> Option<Addr>, n: nat) {
    forall i: nat :: i < n ==> next(i) == Some(i + 1)
  }

  lemma {:induction false} WalkUp(next: Addr -> Option<Addr>, n: nat, k: nat)
    requires LeadsOn(next, n) && k <= n
    ensures Walk(next, 0, k) == Some(k)
  {
    if k > 0 {
      WalkUp(next, n, k - 1);
    }
  }

  /** Node k sends everything for "far" to node k + 1, which opens it. */
  ghost predicate Linked(topo: Topology, k: nat) {
    && k in topo && k + 1 in topo
    && NextPeer(topo[k], FAR).Some? && NextPeer(topo[k], FAR).value.addr == k + 1
    && Opens(topo[k + 1], topo[k], NextPeer(topo[k], FAR).value)
  }

  lemma {:induction false} LinkedLeadsOn(topo: Topology, n: nat)
    requires forall k: nat :: k < n ==> Linked(topo, k)
    ensures LeadsOn(Flights.Hop(topo, FAR), n)
  {
    forall k: nat | k < n ensures Flights.Hop(topo, FAR)(k) == Some(k + 1) {
      assert Linked(topo, k);
    }
  }

  lemma {:induction false} LinkedBy(topo: Topology, k: nat, here: Config, there: Config, p: Peer)
    requires k in topo && k + 1 in topo && topo[k] == here && topo[k + 1] == there
    requires NextPeer(here, FAR) == Some(p) && p.addr == k + 1 && Opens(there, here, p)
    ensures Linked(topo, k)
  {
  }

  lemma {:induction false} MembersLinked(c: Circle, k: nat)
    requires 3 <= c.size && k + 1 < c.size
    ensures Linked(c.Network(), k)
  {
    MemberSends(c, k);
    LinkedBy(c.Network(), k, c.Member(k), c.Member(k + 1), c.Link(k, k + 1));
  }

  lemma {:induction false} RowLeadsOn(c: Circle)
    requires 3 <= c.size
    ensures LeadsOn(Flights.Hop(c.Network(), FAR), c.size - 1)
  {
    forall k: nat | k < c.size - 1 ensures Linked(c.Network(), k) {
      MembersLinked(c, k);
    }
    LinkedLeadsOn(c.Network(), c.size - 1);
  }

  /** The chain from node 0 visits the nodes one after the other, and a ring closes. */
  lemma {:induction false} WalkRow(c: Circle, k: nat)
    requires 3 <= c.size && k < c.size
    ensures Walk(Flights.Hop(c.Network(), FAR), 0, k) == Some(k)
  {
    RowLeadsOn(c);
    WalkUp(Flights.Hop(c.Network(), FAR), c.size - 1, k);
  }

  lemma {:induction false} WalkAround(c: Circle)
    requires 3 <= c.size
    ensures Walk(Flights.Hop(c.Network(), FAR), 0, c.size) == if c.ring then Some(0) else None
  {
    WalkRow(c, c.size - 1);
    WalkOn(Flights.Hop(c.Network(), FAR), 0, c.size - 1);
    if c.ring {
      MemberHops(c, c.size - 1);
    } else {
      LastIsStuck(c);
    }
  }

  lemma {:induction false} StuckBy(topo: Topology, i: nat, here: Config)
    requires i in topo && topo[i] == here && NextPeer(here, FAR).None?
    ensures Flights.Hop(topo, FAR)(i) == None
  {
  }

  lemma {:induction false} LastMemberStuck(c: Circle)
    requires 3 <= c.size && !c.ring
    ensures NextPeer(c.Member(c.size - 1), FAR).None?
  {
    NamesDiffer(c.Before(c.size - 1), 0);
    NamesDiffer(0, 0);
  }

  lemma {:induction false} LastIsStuck(c: Circle)
    requires 3 <= c.size && !c.ring
    ensures Flights.Hop(c.Network(), FAR)(c.size - 1) == None
  {
    LastMemberStuck(c);
    StuckBy(c.Network(), c.size - 1, c.Member(c.size - 1));
  }

  function Below(n: nat): set<nat> {
    if n == 0 then {} else Below(n - 1) + {n - 1}
  }

  lemma {:induction false} BelowExact(n: nat)
    ensures |Below(n)| == n && forall i: nat :: i in Below(n) <==> i < n
  {
    if n > 0 {
      BelowExact(n - 1);
    }
  }

  /** A circle is a network of that many nodes. */
  lemma {:induction false} CircleBuildable(c: Circle)
    requires 3 <= c.size
    ensures Buildable(c.Network(), c.size)
  {
    forall i: nat | i < c.size ensures Startable(c.Member(i)) {
      MembersStartable(c, i);
    }
    BelowExact(c.size);
    assert c.Network().Keys == Below(c.size);
    assert |c.Network()| == |c.Network().Keys|;
  }

  // ---------- a run that exhausts the TTL ----------

  /** Sixteen hops and nobody on the way that keeps the packet. */
  predicate Exhausting(c: Circle) {
    c.size > LAST && (c.owner.Some? ==> c.owner.value == 0 || c.owner.value > LAST)
  }

  lemma {:induction false} JoinedBy(topo: Topology, k: nat, here: Config, there: Config, p: Peer)
    requires k in topo && k + 1 in topo && topo[k] == here && topo[k + 1] == there
    requires NextPeer(here, FAR) == Some(p) && p.addr == k + 1 && Opens(there, here, p)
    requires !EndsAt(there, FAR, PacketDestination(PACKET))
    ensures Joined(topo, k)
  {
  }

  lemma {:induction false} MembersJoined(c: Circle, k: nat)
    requires Exhausting(c) && k < LAST
    ensures Joined(c.Network(), k)
  {
    MemberSends(c, k);
    MemberEnds(c, k + 1);
    JoinedBy(c.Network(), k, c.Member(k), c.Member(k + 1), c.Link(k, k + 1));
  }

  lemma {:induction false} NetworkInjects(c: Circle)
    requires Exhausting(c)
    ensures c.Network()[0].hasTun && HandleLocalPacket(c.Network()[0], PACKET) == ForwardedFirst(c.Network())
  {
    PacketForZero();
    Routing.OwnAddressInside(EVERYWHERE.prefix);
    assert c.Member(0).routing.Lookup(IpAddr(V4, 0)) == Some(EVERYWHERE);
  }

  lemma {:induction false} AlongRow(topo: Topology) returns (w: World)
    requires IsRow(topo) && Joined(topo, 0) && topo[0].hasTun && HandleLocalPacket(topo[0], PACKET) == ForwardedFirst(topo)
    ensures Joined(topo, LAST - 1) && Reachable(topo, w) && Alone(topo, w, LAST - 1)
  {
    FirstGot(topo);
    forall j: nat | j < LAST - 1 && Got(topo, j) ensures Got(topo, j + 1) {
      NextGot(topo, j);
    }
    UpTo((j: nat) => Got(topo, j), LAST - 1);
    w :| Reachable(topo, w) && Alone(topo, w, LAST - 1);
  }

  lemma {:induction false} LastButOne(c: Circle) returns (w: World)
    requires Exhausting(c)
    ensures var topo := c.Network(); Joined(topo, LAST - 1) && Reachable(topo, w) && Alone(topo, w, LAST - 1)
  {
    NetworkInjects(c);
    forall k: nat | k < LAST ensures Joined(c.Network(), k) {
      MembersJoined(c, k);
    }
    w := AlongRow(c.Network());
  }

  lemma {:induction false} LastIsOutOfHops(topo: Topology, w: World, k: nat)
    requires k + 1 == LAST && Joined(topo, k) && 0 in topo && Alone(topo, w, k)
    ensures Delivery.OutOfHops(topo, w.net[0]) && w.net[0].start == 0
  {
    OpensSent(topo[k + 1], topo[k], NextPeer(topo[k], FAR).value, MessageAt(topo, k));
  }

  /** A run in which the packet read from node 0's TUN is about to be dropped for its TTL. */
  lemma {:induction false} Exhausted(c: Circle) returns (steps: seq<Step>)
    requires Exhausting(c)
    ensures var w := Run(c.Network(), steps);
            && |w.net| == 1 && Delivery.OutOfHops(c.Network(), w.net[0])
            && w.net[0].start == 0 && w.net[0].Msg() == Data(Name(0), FAR, 1, PACKET)
  {
    var w := LastButOne(c);
    LastIsOutOfHops(c.Network(), w, LAST - 1);
    steps :| w == Run(c.Network(), steps);
  }

  /** The budget of 16 datagrams for one packet is used up: a run of every long enough circle
      sends that many. */
  lemma {:induction false} BudgetIsTight(c: Circle) returns (steps: seq<Step>)
    requires Exhausting(c)
    ensures var w := Run(c.Network(), steps);
            |w.causes| == 1 && w.causes[0].DataFrom? && w.dups == []
            && Sum(w.emitted, Accounts.Same(0)) == 16 == Accounts.Budget(w.causes[0])
  {
    var w := LastButOne(c);
    SumOfZeros(w.emitted);
    steps :| w == Run(c.Network(), steps);
  }

  /** A run of a row in which DATA is about to be dropped for its TTL although the chain of next
      hops it follows visits no node twice and breaks off. */
  lemma {:induction false} ExhaustionWithoutCycle(c: Circle) returns (steps: seq<Step>)
    requires Exhausting(c) && !c.ring
    ensures var w := Run(c.Network(), steps);
            && |w.net| == 1 && Delivery.OutOfHops(c.Network(), w.net[0])
            && forall n: nat :: !Cycles(Flights.Hop(c.Network(), w.net[0].Msg().dstStealth), w.net[0].start, n)
  {
    steps := Exhausted(c);
    var next := Flights.Hop(c.Network(), FAR);
    WalkAround(c);
    forall i: nat, j: nat | i < j && Walk(next, 0, i).Some? ensures Walk(next, 0, i) != Walk(next, 0, j) {
      if i >= c.size { WalkPrefix(next, 0, c.size, i); }
      WalkRow(c, i);
      if j < c.size {
        WalkRow(c, j);
      } else if Walk(next, 0, j).Some? {
        WalkPrefix(next, 0, c.size, j);
      }
    }
  }

  /** The hops after which the chain first meets the owner, when it is the node the chain comes
      to last. */
  function LastHop(c: Circle): nat {
    if c.ring || c.size == 0 then c.size else c.size - 1
  }

  lemma {:induction false} StopsAtOwner(c: Circle, i: nat)
    requires 3 <= c.size && i < c.size
    ensures Flights.Stops(c.Network(), FAR, PacketDestination(PACKET))(i) <==> c.owner == Some(i)
  {
    MemberEnds(c, i);
  }

  lemma {:induction false} MeetsOwner(c: Circle)
    requires 3 <= c.size && c.owner == Some(if c.ring then 0 else c.size - 1)
    ensures FirstMeets(Flights.Hop(c.Network(), FAR), 0, Flights.Stops(c.Network(), FAR, PacketDestination(PACKET)), LastHop(c))
    ensures Walk(Flights.Hop(c.Network(), FAR), 0, LastHop(c)) == c.owner
  {
    var next, dest := Flights.Hop(c.Network(), FAR), Flights.Stops(c.Network(), FAR, PacketDestination(PACKET));
    if c.ring { WalkAround(c); } else { WalkRow(c, LastHop(c)); }
    StopsAtOwner(c, c.owner.value);
    forall k | 1 <= k < LastHop(c) ensures Walk(next, 0, k).Some? && !dest(Walk(next, 0, k).value) {
      WalkRow(c, k);
      StopsAtOwner(c, k);
    }
  }

  /** The owner is routable from node 0, but only over that many hops. */
  lemma {:induction false} RoutableTooFar(c: Circle)
    requires 3 <= c.size && c.owner == Some(if c.ring then 0 else c.size - 1) && LastHop(c) > LAST
    ensures var inner := PacketDestination(PACKET);
            && Delivery.Routable(c.Network(), 0, FAR, inner, c.owner.value)
            && !Flights.Reaches(c.Network(), 0, FAR, inner, c.owner.value)
            && (Flights.Stops(c.Network(), FAR, inner)(0) <==> c.ring)
  {
    var topo, inner, m := c.Network(), PacketDestination(PACKET), LastHop(c);
    MeetsOwner(c);
    StopsAtOwner(c, 0);
    assert Flights.At(topo, 0, FAR, m) == Some(c.owner.value);
    forall k: nat ensures !Flights.ReachesIn(topo, 0, FAR, inner, c.owner.value, k) {
    }
  }
}
