/** The end-to-end results: who gets an answer, what the answer says, and exactly which packets
    and requests get through. */
module Delivery {
  import opened Wrappers
  import opened Ip
  import opened Messages
  import opened Node
  import opened Sums
  import opened Paths
  import opened World
  import opened Flights
  import opened PendingTables
  import opened Requests
  import opened Correlation
  import Accounts
  import Provenance
  import Routing

  lemma {:induction false} RunKeepsCauses(topo: Topology, steps: seq<Step>)
    ensures CausesOk(Run(topo, steps))
  {
    if steps != [] {
      var n := |steps| - 1;
      RunKeepsCauses(topo, steps[..n]);
      RunKeepsHosts(topo, steps[..n]);
      ActKeepsCauses(topo, Run(topo, steps[..n]), steps[n]);
    }
  }

  lemma {:induction false} RunKeepsPast(topo: Topology, steps: seq<Step>)
    ensures PastOk(Run(topo, steps))
  {
    if steps != [] {
      var n := |steps| - 1;
      RunKeepsPast(topo, steps[..n]);
      RunKeepsHosts(topo, steps[..n]);
      NextKeepsPast(topo, Run(topo, steps[..n]), steps[n]);
    }
  }

  lemma {:induction false} RunKeepsLists(topo: Topology, steps: seq<Step>)
    ensures ListsOk(topo, Run(topo, steps))
  {
    if steps != [] {
      var n := |steps| - 1;
      RunKeepsLists(topo, steps[..n]);
      RunKeepsCauses(topo, steps[..n]);
      Provenance.RunKeepsFlights(topo, steps[..n]);
      NextKeepsLists(topo, Run(topo, steps[..n]), steps[n]);
    }
  }

  lemma {:induction false} RunKeepsReplies(topo: Topology, steps: seq<Step>)
    requires UniqueStealths(topo)
    ensures RepliesOk(topo, Run(topo, steps))
  {
    if steps != [] {
      var n := |steps| - 1;
      RunKeepsReplies(topo, steps[..n]);
      RunKeepsHosts(topo, steps[..n]);
      RunKeepsCauses(topo, steps[..n]);
      RunKeepsPast(topo, steps[..n]);
      RunKeepsLists(topo, steps[..n]);
      Provenance.RunKeepsFlights(topo, steps[..n]);
      NextKeepsReplies(topo, Run(topo, steps[..n]), steps[n]);
    }
  }

  lemma {:induction false} RunKeepsServed(topo: Topology, steps: seq<Step>)
    requires UniqueStealths(topo)
    ensures EndsServed(topo, Run(topo, steps))
  {
    if steps != [] {
      var n := |steps| - 1;
      RunKeepsServed(topo, steps[..n]);
      RunKeepsCauses(topo, steps[..n]);
      Provenance.RunKeepsFlights(topo, steps[..n]);
      var v := Act(topo, Run(topo, steps[..n]), steps[n]);
      ActKeepsServed(topo, Run(topo, steps[..n]), steps[n]);
      forall i | 0 <= i < |v.ends| ensures EndServed(topo, Run(topo, steps), v.ends[i]) {
        assert EndServed(topo, v, v.ends[i]);
      }
    }
  }

  // ---------- answers ----------

  lemma {:induction false} AnswerOk(topo: Topology, steps: seq<Step>, a: Addr, id: nat)
    requires UniqueStealths(topo)
    requires a in Run(topo, steps).hosts && id in Run(topo, steps).hosts[a].requests
    requires Run(topo, steps).hosts[a].requests[id].phase.Answered?
    ensures var w := Run(topo, steps);
            var r := w.hosts[a].requests[id];
            ReplyOk(topo, w.handled, w.past, a, id, r.kind, r.target, r.phase.reply)
  {
    RunKeepsHosts(topo, steps);
    RunKeepsReplies(topo, steps);
    var w := Run(topo, steps);
    var r := w.hosts[a].requests[id];
    assert HostOk(w.hosts[a]) && HostRepliesOk(topo, w, a);
    assert IdOk(w.hosts[a], id);
    assert r.phase.reply in Values(w.hosts[a], id);
  }

  /** Under loss, duplication, reordering and any interleaving: a ping reported ok for request
      id names the target that request asked for, the reported responder is the node that
      requests for the target lead to and has that stealth, and it handled a PingReq carrying
      this id and this requester's stealth. No other request's reply can end up here. */
  lemma {:induction false} PingCorrelation(topo: Topology, steps: seq<Step>, a: Addr, id: nat)
    requires UniqueStealths(topo)
    requires a in Run(topo, steps).hosts && id in Run(topo, steps).hosts[a].requests
    requires Run(topo, steps).hosts[a].requests[id].kind == PingKind
    requires Run(topo, steps).hosts[a].requests[id].phase.Answered?
    ensures var w := Run(topo, steps);
            var r := w.hosts[a].requests[id];
            && r.phase.reply.PingReply? && a in topo
            && r.phase.reply.target == r.target && r.phase.reply.responderStealth == r.target
            && RoundTrip(topo, a, r.target)
            && exists q :: && q in topo && topo[q].stealth == r.target && topo[q].id == r.phase.reply.responderId
                           && Reaches(topo, a, r.target, None, q) && (q, id, topo[a].stealth) in w.handled
  {
    AnswerOk(topo, steps, a, id);
    var w := Run(topo, steps);
    var reply := w.hosts[a].requests[id].phase.reply;
    var q :| Responder(topo, a, w.hosts[a].requests[id].target, q) && topo[q].id == reply.responderId
             && (q, id, topo[a].stealth) in w.handled;
  }

  /** Every client list an admin request returns is the target's enabled static entries followed
      by its registered table, in some order, as they stood together in one state of the run:
      after this request was sent and before its answer was accepted. */
  lemma {:induction false} SnapshotAnswer(topo: Topology, steps: seq<Step>, a: Addr, id: nat) returns (t: nat, q: Addr, order: seq<string>)
    requires UniqueStealths(topo)
    requires a in Run(topo, steps).hosts && id in Run(topo, steps).hosts[a].requests
    requires Run(topo, steps).hosts[a].requests[id].kind == ClientsKind
    requires Run(topo, steps).hosts[a].requests[id].phase.Answered?
    ensures var r := Run(topo, steps).hosts[a].requests[id];
            && t < |steps|
            && var hosts := Run(topo, steps[..t]).hosts;
            && a in hosts && id in hosts[a].requests && Sent(hosts[a].requests[id]) && !hosts[a].requests[id].phase.Finished()
            && q in topo && q in hosts && topo[q].stealth == r.target && Reaches(topo, a, r.target, None, q)
            && Enumerates(order, hosts[q].tables.registered)
            && r.phase.reply == ClientsReply(r.target, ClientList(topo[q], hosts[q].tables.registered, order))
  {
    AnswerOk(topo, steps, a, id);
    var w := Run(topo, steps);
    var r := w.hosts[a].requests[id];
    var clients := r.phase.reply.clients;
    assert |w.past| == |steps| by {
      if steps != [] { PastIsPrefix(topo, steps, 0); }
    }
    q :| Responder(topo, a, r.target, q) && LiveSnapshotTaken(topo, w.past, a, id, q, clients);
    t :| 0 <= t < |w.past| && Snapshot(topo, w.past[t], a, id, q, clients) && !w.past[t][a].requests[id].phase.Finished();
    PastIsPrefix(topo, steps, t);
    order :| Enumerates(order, w.past[t][q].tables.registered) && clients == ClientList(topo[q], w.past[t][q].tables.registered, order);
  }

  // ---------- exactly what gets through ----------

  /** Nothing of cause j is in flight any more, and the network lost nothing of it. */
  ghost predicate SettledWithoutLoss(w: World, j: nat) {
    && Sum(w.net, Accounts.OfCause(j)) == 0
    && forall i :: 0 <= i < |w.ends| && w.ends[i].cause == j ==> !w.ends[i].fate.Lost?
  }

  lemma {:induction false} SettledHasEnd(topo: Topology, steps: seq<Step>, j: nat) returns (i: nat)
    requires j < |Run(topo, steps).causes| && SettledWithoutLoss(Run(topo, steps), j)
    ensures i < |Run(topo, steps).ends| && Run(topo, steps).ends[i].cause == j && !Run(topo, steps).ends[i].fate.Lost?
  {
    var w := Run(topo, steps);
    Accounts.RunBalanced(topo, steps, j);
    SumPositive(w.ends, Accounts.EndsOf(j));
    i :| 0 <= i < |w.ends| && Accounts.EndsOf(j)(w.ends[i]) > 0;
  }

  /** Exact reachability of DATA. Once everything a packet caused has settled without loss, it
      was handed to a TUN if and only if the chain of next hops from its origin first ends, at
      most 16 hops away, at a node that has a TUN; and every write of it happened there. */
  lemma {:induction false} ExactDelivery(topo: Topology, steps: seq<Step>, j: nat)
    requires j < |Run(topo, steps).causes| && Run(topo, steps).causes[j].DataFrom?
    requires SettledWithoutLoss(Run(topo, steps), j)
    ensures var w := Run(topo, steps);
            var DataFrom(origin, packet, dst) := w.causes[j];
            && ((exists i :: 0 <= i < |w.ends| && w.ends[i].cause == j && w.ends[i].fate.Written?)
                <==> Deliverable(topo, origin, packet, dst))
            && (forall i :: 0 <= i < |w.ends| && w.ends[i].cause == j && w.ends[i].fate.Written? ==>
                  w.ends[i].fate.packet == packet && w.ends[i].fate.at in topo && topo[w.ends[i].fate.at].hasTun
                  && Reaches(topo, origin, dst, PacketDestination(packet), w.ends[i].fate.at))
  {
    Provenance.RunKeepsFlights(topo, steps);
    var i := SettledHasEnd(topo, steps, j);
    assert EndOk(topo, Run(topo, steps).causes, Run(topo, steps).ends[i]);
  }

  /** Exact reachability of requests. A ping or clients query that is waiting when everything it
      caused has settled without loss has its reply if and only if the chain to the target and
      the chain back from there both end within 16 hops. */
  lemma {:induction false} ExactReply(topo: Topology, steps: seq<Step>, a: Addr, id: nat, j: nat)
    requires UniqueStealths(topo)
    requires a in Run(topo, steps).hosts && id in Run(topo, steps).hosts[a].requests
    requires Run(topo, steps).hosts[a].requests[id].phase.Waiting? && Run(topo, steps).hosts[a].hand.None?
    requires var r := Run(topo, steps).hosts[a].requests[id];
             j < |Run(topo, steps).causes| && Run(topo, steps).causes[j] == RequestFrom(a, id, r.kind, r.target)
    requires SettledWithoutLoss(Run(topo, steps), j)
    ensures var r := Run(topo, steps).hosts[a].requests[id];
            r.inbox != [] <==> RoundTrip(topo, a, r.target)
  {
    RunKeepsHosts(topo, steps);
    RunKeepsReplies(topo, steps);
    RunKeepsServed(topo, steps);
    Provenance.RunKeepsFlights(topo, steps);
    var w := Run(topo, steps);
    var h := w.hosts[a];
    var r := h.requests[id];
    assert HostOk(h) && HostRepliesOk(topo, w, a);
    assert IdOk(h, id);
    if r.inbox != [] {
      assert r.inbox[0] in Values(h, id);
    }
    if RoundTrip(topo, a, r.target) {
      var i := SettledHasEnd(topo, steps, j);
      assert EndOk(topo, w.causes, w.ends[i]);
      assert EndServed(topo, w, w.ends[i]);
      assert ViewOf(h, id).Entry(r.kind).None?;
    }
  }

  // ---------- how long chains can be ----------

  lemma {:induction false} HopsStay(topo: Topology, toward: string)
    ensures ClosedUnder(topo.Keys, Hop(topo, toward))
  {
  }

  /** The chain first ends at that node, however many hops it takes. */
  ghost predicate Routable(topo: Topology, from: Addr, toward: string, inner: Option<IpAddr>, at: Addr) {
    exists k: nat :: FirstMeets(Hop(topo, toward), from, Stops(topo, toward, inner), k) && At(topo, from, toward, k) == Some(at)
  }

  /** Sixteen hops are enough for every network of up to 16 nodes, and for 17 nodes unless the
      packet starts at a node where it should have ended: whatever is routable at all is
      reached before the TTL runs out. */
  lemma {:induction false} SixteenHopsSuffice(topo: Topology, from: Addr, toward: string, inner: Option<IpAddr>, at: Addr)
    requires from in topo
    requires |topo| <= 16 || (|topo| == 17 && !Stops(topo, toward, inner)(from))
    ensures Reaches(topo, from, toward, inner, at) <==> Routable(topo, from, toward, inner, at)
  {
    HopsStay(topo, toward);
    if Reaches(topo, from, toward, inner, at) {
      var k: nat :| ReachesIn(topo, from, toward, inner, at, k);
    }
    if Routable(topo, from, toward, inner, at) {
      var k: nat :| FirstMeets(Hop(topo, toward), from, Stops(topo, toward, inner), k) && At(topo, from, toward, k) == Some(at);
      MeetingIsShort(topo.Keys, Hop(topo, toward), from, Stops(topo, toward, inner), k);
      assert |topo.Keys| == |topo|;
      assert ReachesIn(topo, from, toward, inner, at, k);
    }
  }

  /** DATA is about to be dropped for its TTL: it is opened at a node that neither keeps it nor
      may pass it on. */
  ghost predicate OutOfHops(topo: Topology, f: Flight) {
    && f.Msg().Data? && f.dg.to in topo && OpenFrame(topo[f.dg.to], f.dg.frame).Success?
    && Relays(topo[f.dg.to], f.Msg()) && f.Msg().ttl <= 1
  }

  lemma {:induction false} DataOnItsWay(topo: Topology, steps: seq<Step>, i: nat)
    requires i < |Run(topo, steps).net| && Run(topo, steps).net[i].Msg().Data?
    ensures OnItsWay(topo, Run(topo, steps).net[i]) && Run(topo, steps).net[i].start in topo
    ensures Run(topo, steps).net[i].hops < MAX_TTL
  {
    Provenance.RunKeepsFlights(topo, steps);
    assert FlightOk(topo, Run(topo, steps).causes, Run(topo, steps).handled, Run(topo, steps).net[i]);
  }

  /** In a network of at most 16 nodes, DATA dropped for its TTL proves a forwarding cycle. */
  lemma {:induction false} ExhaustionProvesCycle(topo: Topology, steps: seq<Step>, i: nat)
    requires |topo| <= 16
    requires i < |Run(topo, steps).net| && OutOfHops(topo, Run(topo, steps).net[i])
    ensures var f := Run(topo, steps).net[i];
            Cycles(Hop(topo, f.Msg().dstStealth), f.start, 16)
  {
    DataOnItsWay(topo, steps, i);
    LastHopCycles(topo, Run(topo, steps).net[i]);
  }

  lemma {:induction false} LastHopCycles(topo: Topology, f: Flight)
    requires |topo| <= 16 && OnItsWay(topo, f) && f.start in topo && OutOfHops(topo, f) && f.hops < MAX_TTL
    ensures Cycles(Hop(topo, f.Msg().dstStealth), f.start, 16)
  {
    NextStop(topo, f);
    HopsStay(topo, f.Msg().dstStealth);
    assert |topo.Keys| == |topo|;
    LongWalkCycles(topo.Keys, Hop(topo, f.Msg().dstStealth), f.start, 16);
  }

  /** With up to 17 nodes (up to 16 if the packet started where it should have ended), DATA
      dropped for its TTL was not routable with any TTL. */
  lemma {:induction false} ExhaustionIsUnroutable(topo: Topology, steps: seq<Step>, i: nat, at: Addr)
    requires i < |Run(topo, steps).net| && OutOfHops(topo, Run(topo, steps).net[i])
    requires var f := Run(topo, steps).net[i];
             |topo| <= 16 || (|topo| == 17 && !Stops(topo, f.Msg().dstStealth, InnerDestination(f.Msg()))(f.start))
    ensures var f := Run(topo, steps).net[i];
            !Routable(topo, f.start, f.Msg().dstStealth, InnerDestination(f.Msg()), at)
  {
    DataOnItsWay(topo, steps, i);
    var f := Run(topo, steps).net[i];
    StuckReachesNothing(topo, f, at);
    SixteenHopsSuffice(topo, f.start, f.Msg().dstStealth, InnerDestination(f.Msg()), at);
  }

  // ---------- routing decisions ----------

  /** DATA in flight is on its way to the stealth of the longest prefix its origin configured
      for the packet's destination, the earliest configured one among equals. */
  lemma {:induction false} DataFollowsLongestPrefix(topo: Topology, steps: seq<Step>, i: nat, cfg: Routing.RoutingConfig, best: nat)
    requires i < |Run(topo, steps).net| && Run(topo, steps).net[i].Msg().Data?
    requires var f := Run(topo, steps).net[i];
             && f.start in topo && Routing.AllParse(cfg) && Routing.BuiltFrom(topo[f.start].routing, cfg)
             && PacketDestination(f.Msg().innerPacket).Some?
             && Routing.Best(Routing.Configured(cfg), PacketDestination(f.Msg().innerPacket).value, best)
    ensures Run(topo, steps).net[i].Msg().dstStealth == Routing.Configured(cfg)[best].stealth
  {
    Provenance.DataInFlight(topo, steps, i);
    Provenance.RunKeepsFlights(topo, steps);
    var f := Run(topo, steps).net[i];
    assert FlightOk(topo, Run(topo, steps).causes, Run(topo, steps).handled, f);
    Routing.BestIsFirst(topo[f.start].routing.routes, Routing.Configured(cfg),
                        PacketDestination(f.Msg().innerPacket).value, best);
  }
}
