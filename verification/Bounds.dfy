/** How large a network may be before 16 hops are not enough, exactly. */
module Bounds {
  import opened Wrappers
  import opened Ip
  import opened Node
  import opened Paths
  import opened World
  import opened Flights
  import opened Delivery
  import opened Line
  import opened Networks

  /** Any keys will do. */
  function SomeKeys(): Keys {
    Keys((a: Addr) => seq(32, _ => 0), (context: string) => seq(32, _ => 0))
  }

  /** In every run of this network, DATA dropped for its TTL proves a forwarding cycle. */
  ghost predicate ExhaustionShowsCycle(topo: Topology) {
    forall steps: seq<Step>, i: nat :: i < |Run(topo, steps).net| && OutOfHops(topo, Run(topo, steps).net[i]) ==>
      var f := Run(topo, steps).net[i];
      exists n: nat :: Cycles(Hop(topo, f.Msg().dstStealth), f.start, n)
  }

  /** In every run of this network, DATA dropped for its TTL was not routable with any TTL; away
      speaks of packets only that do not start where they should have ended. */
  ghost predicate ExhaustionShowsUnroutable(topo: Topology, away: bool) {
    forall steps: seq<Step>, i: nat, at: Addr :: i < |Run(topo, steps).net| && OutOfHops(topo, Run(topo, steps).net[i]) ==>
      var f := Run(topo, steps).net[i];
      var toward, inner := f.Msg().dstStealth, InnerDestination(f.Msg());
      (away ==> !Stops(topo, toward, inner)(f.start)) ==> !Routable(topo, f.start, toward, inner, at)
  }

  /** Whatever is routable in this network is within 16 hops; away as before. */
  ghost predicate TtlSuffices(topo: Topology, away: bool) {
    forall from: Addr, toward: string, inner: Option<IpAddr>, at: Addr ::
      from in topo && (away ==> !Stops(topo, toward, inner)(from)) && Routable(topo, from, toward, inner, at) ==>
        Reaches(topo, from, toward, inner, at)
  }

  // ---------- small networks ----------

  lemma {:induction false} SmallShowCycle(topo: Topology)
    requires |topo| <= 16
    ensures ExhaustionShowsCycle(topo)
  {
    forall steps: seq<Step>, i: nat | i < |Run(topo, steps).net| && OutOfHops(topo, Run(topo, steps).net[i])
      ensures var f := Run(topo, steps).net[i]; exists n: nat :: Cycles(Hop(topo, f.Msg().dstStealth), f.start, n)
    {
      ExhaustionProvesCycle(topo, steps, i);
    }
  }

  lemma {:induction false} SmallTtlSuffices(topo: Topology, away: bool)
    requires |topo| <= 16 || (away && |topo| <= 17)
    ensures TtlSuffices(topo, away)
  {
    forall from: Addr, toward: string, inner: Option<IpAddr>, at: Addr
      | from in topo && (away ==> !Stops(topo, toward, inner)(from)) && Routable(topo, from, toward, inner, at)
      ensures Reaches(topo, from, toward, inner, at)
    {
      SixteenHopsSuffice(topo, from, toward, inner, at);
    }
  }

  lemma {:induction false} SmallShowUnroutable(topo: Topology, away: bool)
    requires |topo| <= 16 || (away && |topo| <= 17)
    ensures ExhaustionShowsUnroutable(topo, away)
  {
    forall steps: seq<Step>, i: nat, at: Addr
      | i < |Run(topo, steps).net| && OutOfHops(topo, Run(topo, steps).net[i])
      ensures var f := Run(topo, steps).net[i];
              var toward, inner := f.Msg().dstStealth, InnerDestination(f.Msg());
              (away ==> !Stops(topo, toward, inner)(f.start)) ==> !Routable(topo, f.start, toward, inner, at)
    {
      var f := Run(topo, steps).net[i];
      if away ==> !Stops(topo, f.Msg().dstStealth, InnerDestination(f.Msg()))(f.start) {
        ExhaustionIsUnroutable(topo, steps, i, at);
      }
    }
  }

  // ---------- large networks ----------

  lemma {:induction false} LargeHidesCycle(n: nat)
    requires n > 16
    ensures exists topo: Topology :: Buildable(topo, n) && !ExhaustionShowsCycle(topo)
  {
    var c := Circle(n, false, None, SomeKeys());
    CircleBuildable(c);
    var steps := ExhaustionWithoutCycle(c);
    assert !ExhaustionShowsCycle(c.Network());
  }

  /** The circle whose last node, or for packets that start at their end whose first, is too far. */
  function TooLong(n: nat, away: bool): Circle {
    Circle(n, !away, Some(if away && n > 0 then n - 1 else 0), SomeKeys())
  }

  lemma {:induction false} LargeNeedsMore(n: nat, away: bool)
    requires n > if away then 17 else 16
    ensures Buildable(TooLong(n, away).Network(), n) && !TtlSuffices(TooLong(n, away).Network(), away)
  {
    CircleBuildable(TooLong(n, away));
    RoutableTooFar(TooLong(n, away));
  }

  lemma {:induction false} LargeDropsRoutable(n: nat, away: bool)
    requires n > if away then 17 else 16
    ensures Buildable(TooLong(n, away).Network(), n) && !ExhaustionShowsUnroutable(TooLong(n, away).Network(), away)
  {
    var c := TooLong(n, away);
    CircleBuildable(c);
    RoutableTooFar(c);
    var steps := Exhausted(c);
    var f := Run(c.Network(), steps).net[0];
    assert InnerDestination(f.Msg()) == PacketDestination(PACKET);
  }

  // ---------- the exact bounds ----------

  /** For every size n: TTL exhaustion proves a forwarding cycle in every run of every network
      of n nodes that can be built if and only if n is at most 16. */
  lemma {:induction false} CycleBound(n: nat)
    ensures (forall topo: Topology :: Buildable(topo, n) ==> ExhaustionShowsCycle(topo)) <==> n <= 16
  {
    if n <= 16 {
      forall topo: Topology | Buildable(topo, n) ensures ExhaustionShowsCycle(topo) { SmallShowCycle(topo); }
    } else {
      LargeHidesCycle(n);
    }
  }

  /** For every size n: TTL 16 reaches all that is routable in every network of n nodes if and
      only if n is at most 16, or 17 for packets that do not start where they should have ended. */
  lemma {:induction false} HopBound(n: nat, away: bool)
    ensures (forall topo: Topology :: Buildable(topo, n) ==> TtlSuffices(topo, away)) <==> n <= if away then 17 else 16
  {
    if n <= if away then 17 else 16 {
      forall topo: Topology | Buildable(topo, n) ensures TtlSuffices(topo, away) { SmallTtlSuffices(topo, away); }
    } else {
      LargeNeedsMore(n, away);
    }
  }

  /** For every size n: in every run of every network of n nodes, only unroutable DATA is dropped
      for its TTL, if and only if n is at most 16, or 17 for packets that do not start where
      they should have ended. */
  lemma {:induction false} UnroutableBound(n: nat, away: bool)
    ensures (forall topo: Topology :: Buildable(topo, n) ==> ExhaustionShowsUnroutable(topo, away)) <==> n <= if away then 17 else 16
  {
    if n <= if away then 17 else 16 {
      forall topo: Topology | Buildable(topo, n) ensures ExhaustionShowsUnroutable(topo, away) { SmallShowUnroutable(topo, away); }
    } else {
      LargeDropsRoutable(n, away);
    }
  }
}
