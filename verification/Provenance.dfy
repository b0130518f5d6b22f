/** Every run keeps the flight invariant; what it says about DATA from the TUN it was read from
    to the TUN it is written to. */
module Provenance {
  import opened Wrappers
  import opened Ip
  import opened Messages
  import opened Node
  import opened Sums
  import opened Paths
  import opened World
  import opened Flights

  ghost predicate FlightsOk(topo: Topology, w: World) {
    && (forall i :: 0 <= i < |w.net| ==> FlightOk(topo, w.causes, w.handled, w.net[i]))
    && (forall i :: 0 <= i < |w.ends| ==> EndOk(topo, w.causes, w.ends[i]))
  }

  lemma {:induction false} FlightStaysOk(topo: Topology, causes: seq<Cause>, more: seq<Cause>,
                                         handled: set<(Addr, nat, string)>, grown: set<(Addr, nat, string)>, f: Flight)
    requires FlightOk(topo, causes, handled, f) && handled <= grown
    ensures FlightOk(topo, causes + more, grown, f)
  {
    assert (causes + more)[f.cause] == causes[f.cause];
  }

  lemma {:induction false} EndStaysOk(topo: Topology, causes: seq<Cause>, more: seq<Cause>, e: End)
    requires EndOk(topo, causes, e)
    ensures EndOk(topo, causes + more, e)
  {
    assert (causes + more)[e.cause] == causes[e.cause];
  }

  /** A new chain of datagrams. */
  lemma {:induction false} OriginateOk(topo: Topology, w: World, origin: Addr, cause: Cause, dg: Datagram)
    requires FlightsOk(topo, w)
    requires FlightOk(topo, w.causes + [cause], w.handled, Flight(dg, |w.causes|, origin, 0))
    ensures FlightsOk(topo, Originate(w, origin, cause, dg))
  {
    forall i | 0 <= i < |w.net| ensures FlightOk(topo, w.causes + [cause], w.handled, w.net[i]) {
      FlightStaysOk(topo, w.causes, [cause], w.handled, w.handled, w.net[i]);
    }
    forall i | 0 <= i < |w.ends| ensures EndOk(topo, w.causes + [cause], w.ends[i]) {
      EndStaysOk(topo, w.causes, [cause], w.ends[i]);
    }
  }

  lemma {:induction false} InjectOk(topo: Topology, w: World, at: Addr, packet: seq<Byte>)
    requires FlightsOk(topo, w)
    ensures FlightsOk(topo, Act(topo, w, Inject(at, packet)))
  {
    if at in topo && topo[at].hasTun && HandleLocalPacket(topo[at], packet).Success? && HandleLocalPacket(topo[at], packet).value.Some? {
      var dg := HandleLocalPacket(topo[at], packet).value.value;
      var dst := topo[at].routing.Lookup(PacketDestination(packet).value).value.stealth;
      var msg := Data(topo[at].stealth, dst, MAX_TTL, packet);
      assert ForwardByStealth(topo[at], dst, msg) == Success(dg);
      ForwardUsesNextPeer(topo[at], dst, msg);
      SentOnItsWay(topo, at, msg, |w.causes|);
      OriginateOk(topo, w, at, DataFrom(at, packet, dst), dg);
    }
  }

  lemma {:induction false} SendOk(topo: Topology, w: World, at: Addr, id: nat, socketOk: bool)
    requires FlightsOk(topo, w)
    ensures FlightsOk(topo, Act(topo, w, Send(at, id, socketOk)))
  {
    if at in topo && at in w.hosts && id in w.hosts[at].requests && w.hosts[at].requests[id].phase == Inserted {
      var r := w.hosts[at].requests[id];
      var msg := RequestMessage(topo[at], r.kind, id, r.target, r.ip);
      if socketOk && ForwardByStealth(topo[at], r.target, msg).Success? {
        ForwardUsesNextPeer(topo[at], r.target, msg);
        SentOnItsWay(topo, at, msg, |w.causes|);
        OriginateOk(topo, SetHost(w, at, SetRequest(w.hosts[at], id, r.(phase := Waiting))), at,
                    RequestFrom(at, id, r.kind, r.target), ForwardByStealth(topo[at], r.target, msg).value);
      }
    }
  }

  lemma {:induction false} RegisterOk(topo: Topology, w: World, at: Addr)
    requires FlightsOk(topo, w)
    ensures FlightsOk(topo, Act(topo, w, Register(at)))
  {
    if at in w.hosts && Registers(topo, at) {
      var h, id := w.hosts[at], w.hosts[at].tables.nextId;
      OriginateOk(topo, SetHost(w, at, h.(tables := h.tables.(nextId := id + 1))), at, RegisterFrom(at, id),
                  SendDirect(topo[at], HomePeer(topo[at]).value, Registration(topo[at], id)));
    }
  }

  lemma {:induction false} ControlOk(topo: Topology, w: World, at: Addr, peerId: string, msg: Message)
    requires FlightsOk(topo, w)
    ensures FlightsOk(topo, Act(topo, w, Control(at, peerId, msg)))
  {
    if at in topo && (msg == Keepalive(4) || msg.BootstrapReq?) && SendToPeer(topo[at], peerId, msg).Success? {
      OriginateOk(topo, w, at, ControlFrom(at), SendToPeer(topo[at], peerId, msg).value);
    }
  }

  lemma {:induction false} RestOk(topo: Topology, w: World, i: nat, handled: set<(Addr, nat, string)>)
    requires FlightsOk(topo, w) && i < |w.net| && w.handled <= handled
    ensures forall k :: 0 <= k < |Without(w.net, i)| ==> FlightOk(topo, w.causes, handled, Without(w.net, i)[k])
  {
    forall k | 0 <= k < |Without(w.net, i)| ensures FlightOk(topo, w.causes, handled, Without(w.net, i)[k]) {
      var f := w.net[if k < i then k else k + 1];
      assert Without(w.net, i)[k] == f;
      FlightStaysOk(topo, w.causes, [], w.handled, handled, f);
      assert w.causes + [] == w.causes;
    }
  }

  lemma {:induction false} DeliverOk(topo: Topology, w: World, i: nat, order: seq<string>)
    requires FlightsOk(topo, w)
    ensures FlightsOk(topo, Act(topo, w, Deliver(i, order)))
  {
    if i < |w.net| {
      var f := w.net[i];
      if f.dg.to !in topo {
        RestOk(topo, w, i, w.handled);
        NobodyThere(topo, w.causes, w.handled, f);
      } else if CanReceive(topo, w, i, order) {
        var v := Received(topo, w, i, order);
        RestOk(topo, w, i, v.handled);
        DeliverFlight(topo, w.causes, w.handled, f, w.hosts[f.dg.to].tables, order);
      }
    }
  }

  lemma {:induction false} ActKeepsFlights(topo: Topology, w: World, s: Step)
    requires FlightsOk(topo, w)
    ensures FlightsOk(topo, Act(topo, w, s))
  {
    match s
    case Inject(at, packet) => InjectOk(topo, w, at, packet);
    case Register(at) => RegisterOk(topo, w, at);
    case Control(at, peerId, msg) => ControlOk(topo, w, at, peerId, msg);
    case Send(at, id, socketOk) => SendOk(topo, w, at, id, socketOk);
    case Deliver(i, order) => DeliverOk(topo, w, i, order);
    case Lose(i) => if i < |w.net| { RestOk(topo, w, i, w.handled); }
    case _ =>
  }

  lemma {:induction false} RunKeepsFlights(topo: Topology, steps: seq<Step>)
    ensures FlightsOk(topo, Run(topo, steps))
  {
    if steps != [] {
      RunKeepsFlights(topo, steps[..|steps|-1]);
      ActKeepsFlights(topo, Run(topo, steps[..|steps|-1]), steps[|steps|-1]);
    }
  }

  // ---------- provenance of DATA ----------

  /** In every run, DATA in flight carries exactly the bytes its origin read from its TUN, to
      the stealth the origin's longest-prefix lookup chose, and TTL plus completed relays is 16. */
  lemma {:induction false} DataInFlight(topo: Topology, steps: seq<Step>, i: nat)
    requires i < |Run(topo, steps).net| && Run(topo, steps).net[i].Msg().Data?
    ensures var w := Run(topo, steps);
            var f := w.net[i];
            && f.cause < |w.causes| && w.causes[f.cause].DataFrom?
            && var DataFrom(origin, packet, dst) := w.causes[f.cause];
            && origin in topo && topo[origin].hasTun && ChosenBy(topo[origin], packet, dst)
            && f.Msg().innerPacket == packet && f.Msg().dstStealth == dst && f.Msg().srcStealth == topo[origin].stealth
            && f.Msg().ttl + f.hops == MAX_TTL && f.Msg().ttl >= 1
  {
    RunKeepsFlights(topo, steps);
  }

  /** A receiving node never fails to parse the inner packet. */
  lemma {:induction false} InnerPacketParses(topo: Topology, steps: seq<Step>, i: nat, order: seq<string>)
    requires i < |Run(topo, steps).net| && Run(topo, steps).net[i].Msg().Data?
    requires CanReceive(topo, Run(topo, steps), i, order)
    ensures var w := Run(topo, steps);
            var f := w.net[i];
            Receive(topo[f.dg.to], w.hosts[f.dg.to].tables, f.dg.frame, order).outcome != Failure(UnparsablePacket)
  {
    RunKeepsFlights(topo, steps);
    var w := Run(topo, steps);
    DataInFlight(topo, steps, i);
    DeliverData(topo, w.causes, w.handled, w.net[i], w.hosts[w.net[i].dg.to].tables, order);
  }

  /** What is written to a TUN is what some node read from its own, written where the chain of
      next hops towards the chosen stealth first ends, at most 16 hops away. */
  lemma {:induction false} WriteProvenance(topo: Topology, steps: seq<Step>, i: nat)
    requires i < |Run(topo, steps).ends| && Run(topo, steps).ends[i].fate.Written?
    ensures var w := Run(topo, steps);
            var End(cause, Written(at, bytes)) := w.ends[i];
            && cause < |w.causes| && w.causes[cause].DataFrom?
            && var DataFrom(origin, packet, dst) := w.causes[cause];
            && bytes == packet && origin in topo && topo[origin].hasTun && ChosenBy(topo[origin], packet, dst)
            && at in topo && topo[at].hasTun && Reaches(topo, origin, dst, PacketDestination(packet), at)
  {
    RunKeepsFlights(topo, steps);
  }
}
