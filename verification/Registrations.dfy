/** Which registrations get through, and where their acknowledgements end. */
module Registrations {
  import opened Wrappers
  import opened Messages
  import opened Node
  import opened Paths
  import opened Sums
  import opened World
  import opened Flights
  import opened Turns
  import Accounts
  import Delivery
  import Provenance
  import Registry
  import Requests

  /** The client at origin is in the table of the node where its registrations end, if any. */
  ghost predicate Enrolled(topo: Topology, hosts: map<Addr, Host>, origin: Addr) {
    Registers(topo, origin) &&
    forall g :: Enrols(topo, origin, g) ==> g in hosts && topo[origin].stealth in hosts[g].tables.registered
  }

  /** The registration behind an acknowledgement in flight has been entered. */
  ghost predicate AckEntered(topo: Topology, w: World, f: Flight) {
    f.Msg().ClientRegisterAck? && f.cause < |w.causes| && w.causes[f.cause].RegisterFrom? ==>
      Enrolled(topo, w.hosts, w.causes[f.cause].origin)
  }

  /** A registration that came to an end without loss has been entered, if it could be. */
  ghost predicate EndEntered(topo: Topology, w: World, e: End) {
    !e.fate.Lost? && e.cause < |w.causes| && w.causes[e.cause].RegisterFrom? ==>
      Enrolled(topo, w.hosts, w.causes[e.cause].origin)
  }

  ghost predicate AllEntered(topo: Topology, w: World) {
    && (forall i :: 0 <= i < |w.net| ==> AckEntered(topo, w, w.net[i]))
    && (forall i :: 0 <= i < |w.ends| ==> EndEntered(topo, w, w.ends[i]))
  }

  // ---------- nothing leaves the table ----------

  ghost predicate TablesGrow(hosts: map<Addr, Host>, later: map<Addr, Host>) {
    forall a :: a in hosts ==> a in later && hosts[a].tables.registered.Keys <= later[a].tables.registered.Keys
  }

  lemma {:induction false} ReceiveGrows(cfg: Config, t: Tables, frame: Frame, order: seq<string>)
    requires Enumerates(order, t.registered)
    ensures t.registered.Keys <= Receive(cfg, t, frame, order).tables.registered.Keys
  {
  }

  lemma {:induction false} ActGrowsTables(topo: Topology, w: World, s: Step)
    ensures TablesGrow(w.hosts, Act(topo, w, s).hosts)
  {
    NoNewHosts(topo, w, s);
    forall a | a in w.hosts
      ensures w.hosts[a].tables.registered.Keys <= Act(topo, w, s).hosts[a].tables.registered.Keys
    {
      var t := TurnOf(topo, w, s, a);
      if t.Takes? {
        ReceiveGrows(topo[a], w.hosts[a].tables, t.f.dg.frame, t.order);
      } else {
        Registry.OtherTurns(topo, a, w.hosts[a], Act(topo, w, s).hosts[a], t);
      }
    }
  }

  lemma {:induction false} StaysEnrolled(topo: Topology, hosts: map<Addr, Host>, later: map<Addr, Host>, origin: Addr)
    requires Enrolled(topo, hosts, origin) && TablesGrow(hosts, later)
    ensures Enrolled(topo, later, origin)
  {
  }

  // ---------- one delivery ----------

  /** Whatever a delivery makes of a registration or its acknowledgement, the client is entered
      unless the registration is passed on. */
  lemma {:induction false} DeliveryEnters(topo: Topology, w: World, i: nat, order: seq<string>)
    requires Provenance.FlightsOk(topo, w) && AllEntered(topo, w)
    requires i < |w.net| && CanReceive(topo, w, i, order) && w.causes[w.net[i].cause].RegisterFrom?
    ensures var f := w.net[i];
            var v := Received(topo, w, i, order);
            var e := Receive(topo[f.dg.to], w.hosts[f.dg.to].tables, f.dg.frame, order);
            e.sent.None? || e.sent.value.frame.sealed.msg.ClientRegisterAck? ==>
              Enrolled(topo, v.hosts, w.causes[f.cause].origin)
  {
    var f := w.net[i];
    var v := Received(topo, w, i, order);
    var RegisterFrom(origin, id) := w.causes[f.cause];
    assert FlightOk(topo, w.causes, w.handled, f);
    if f.Msg().ClientRegisterAck? {
      ActGrowsTables(topo, w, Deliver(i, order));
      StaysEnrolled(topo, w.hosts, v.hosts, origin);
    } else {
      RegistrationEnters(topo, w, i, order);
    }
  }

  lemma {:induction false} RegistrationEnters(topo: Topology, w: World, i: nat, order: seq<string>)
    requires i < |w.net| && CanReceive(topo, w, i, order) && w.net[i].cause < |w.causes| && w.causes[w.net[i].cause].RegisterFrom?
    requires RegistrationOk(topo, w.net[i], w.causes[w.net[i].cause].origin, w.causes[w.net[i].cause].id)
    ensures var f := w.net[i];
            var v := Received(topo, w, i, order);
            var e := Receive(topo[f.dg.to], w.hosts[f.dg.to].tables, f.dg.frame, order);
            e.sent.None? || e.sent.value.frame.sealed.msg.ClientRegisterAck? ==>
              Enrolled(topo, v.hosts, w.causes[f.cause].origin)
  {
    var f := w.net[i];
    var v := Received(topo, w, i, order);
    var RegisterFrom(origin, id) := w.causes[f.cause];
    var cfg, t := topo[f.dg.to], w.hosts[f.dg.to].tables;
    if OpenFrame(cfg, f.dg.frame).Failure? {
      forall g ensures !Enrols(topo, origin, g) { StuckEnrolsNowhere(topo, f, origin, id, g); }
    } else {
      RegistrationOpened(topo, f, origin, id);
      ReceiveRouted(cfg, t, f, order);
      if f.Msg().Ttl() == 0 || Relays(cfg, f.Msg()) {
        var stuck := f.Msg().Ttl() == 0 || ForwardByStealth(cfg, f.Msg().Toward(), f.Msg().Aged()).Failure?;
        if stuck {
          forall g ensures !Enrols(topo, origin, g) { StuckEnrolsNowhere(topo, f, origin, id, g); }
        } else {
          ForwardUsesNextPeer(cfg, f.Msg().Toward(), f.Msg().Aged());
        }
      } else {
        AcceptedWhereEnrolled(topo, f, origin, id);
        forall g | Enrols(topo, origin, g) ensures g == f.dg.to { EnrolledOnce(topo, origin, g, f.dg.to); }
        assert topo[origin].stealth in v.hosts[f.dg.to].tables.registered;
      }
    }
  }

  lemma {:induction false} FlightStaysEntered(topo: Topology, w: World, v: World, f: Flight)
    requires AckEntered(topo, w, f) && f.cause < |w.causes| && w.causes <= v.causes && TablesGrow(w.hosts, v.hosts)
    ensures AckEntered(topo, v, f)
  {
    assert v.causes[f.cause] == w.causes[f.cause];
  }

  lemma {:induction false} EndStaysEntered(topo: Topology, w: World, v: World, e: End)
    requires EndEntered(topo, w, e) && e.cause < |w.causes| && w.causes <= v.causes && TablesGrow(w.hosts, v.hosts)
    ensures EndEntered(topo, v, e)
  {
    assert v.causes[e.cause] == w.causes[e.cause];
  }

  /** What a step adds to the wire and to the ends is entered. */
  lemma {:induction false} DeliverEntersNew(topo: Topology, w: World, i: nat, order: seq<string>)
    requires Provenance.FlightsOk(topo, w) && AllEntered(topo, w)
    requires i < |w.net| && CanReceive(topo, w, i, order)
    ensures var v := Received(topo, w, i, order);
            && (v.net == Without(w.net, i) ||
                (v.net == Without(w.net, i) + [v.net[|w.net| - 1]] && AckEntered(topo, v, v.net[|w.net| - 1])))
            && (v.ends == w.ends || (v.ends == w.ends + [v.ends[|w.ends|]] && EndEntered(topo, v, v.ends[|w.ends|])))
  {
    assert FlightOk(topo, w.causes, w.handled, w.net[i]);
    if w.causes[w.net[i].cause].RegisterFrom? {
      DeliveryEnters(topo, w, i, order);
    }
  }

  lemma {:induction false} LostEntry(topo: Topology, w: World, i: nat)
    requires Provenance.FlightsOk(topo, w) && AllEntered(topo, w) && i < |w.net| && w.net[i].dg.to !in topo
    ensures EndEntered(topo, w, End(w.net[i].cause, Discarded))
  {
    var f := w.net[i];
    assert FlightOk(topo, w.causes, w.handled, f) && AckEntered(topo, w, f);
    if w.causes[f.cause].RegisterFrom? && !f.Msg().ClientRegisterAck? {
      var RegisterFrom(origin, id) := w.causes[f.cause];
      forall g ensures !Enrols(topo, origin, g) { StuckEnrolsNowhere(topo, f, origin, id, g); }
    }
  }

  lemma {:induction false} DeliverKeepsEntered(topo: Topology, w: World, i: nat, order: seq<string>)
    requires Provenance.FlightsOk(topo, w) && AllEntered(topo, w) && i < |w.net|
    ensures AllEntered(topo, Act(topo, w, Deliver(i, order)))
  {
    var v := Act(topo, w, Deliver(i, order));
    ActGrowsTables(topo, w, Deliver(i, order));
    if w.net[i].dg.to !in topo {
      LostEntry(topo, w, i);
    } else if CanReceive(topo, w, i, order) {
      DeliverEntersNew(topo, w, i, order);
    }
    OldEntered(topo, w, v);
    forall k | 0 <= k < |v.net| ensures AckEntered(topo, v, v.net[k]) {
      if k < |w.net| - 1 { assert v.net[k] in w.net; }
    }
  }

  /** Growing tables and causes keep what was entered entered. */
  lemma {:induction false} OldEntered(topo: Topology, w: World, v: World)
    requires Provenance.FlightsOk(topo, w) && AllEntered(topo, w)
    requires w.causes <= v.causes && TablesGrow(w.hosts, v.hosts)
    ensures forall f :: f in w.net ==> AckEntered(topo, v, f)
    ensures forall k :: 0 <= k < |w.ends| ==> EndEntered(topo, v, w.ends[k])
  {
    forall f | f in w.net ensures AckEntered(topo, v, f) {
      var k :| 0 <= k < |w.net| && w.net[k] == f;
      assert FlightOk(topo, w.causes, w.handled, w.net[k]);
      FlightStaysEntered(topo, w, v, f);
    }
    forall k | 0 <= k < |w.ends| ensures EndEntered(topo, v, w.ends[k]) {
      assert EndOk(topo, w.causes, w.ends[k]);
      EndStaysEntered(topo, w, v, w.ends[k]);
    }
  }

  /** A step that delivers nothing puts no acknowledgement of a registration on the wire. */
  lemma {:induction false} NewCauseNoAck(topo: Topology, w: World, s: Step)
    requires !s.Deliver? && !s.Lose? && !s.Duplicate?
    ensures var v := Act(topo, w, s);
            && w.causes <= v.causes && v.ends == w.ends
            && (v.net == w.net || (v.net == w.net + [v.net[|w.net|]] && AckEntered(topo, v, v.net[|w.net|])))
  {
  }

  lemma {:induction false} ActKeepsEntered(topo: Topology, w: World, s: Step)
    requires Provenance.FlightsOk(topo, w) && AllEntered(topo, w)
    ensures AllEntered(topo, Act(topo, w, s))
  {
    var v := Act(topo, w, s);
    if s.Deliver? {
      if s.i < |w.net| { DeliverKeepsEntered(topo, w, s.i, s.order); }
    } else {
      ActGrowsTables(topo, w, s);
      if !s.Lose? && !s.Duplicate? { NewCauseNoAck(topo, w, s); }
      OldEntered(topo, w, v);
      forall k | 0 <= k < |v.net| ensures AckEntered(topo, v, v.net[k]) {
        if v.net[k] !in w.net { assert k == |w.net|; }
      }
    }
  }

  lemma {:induction false} RunKeepsEntered(topo: Topology, steps: seq<Step>)
    ensures AllEntered(topo, Run(topo, steps))
  {
    if steps != [] {
      var n := |steps| - 1;
      RunKeepsEntered(topo, steps[..n]);
      Provenance.RunKeepsFlights(topo, steps[..n]);
      var w, v := Run(topo, steps[..n]), Run(topo, steps);
      ActKeepsEntered(topo, w, steps[n]);
      forall i | 0 <= i < |v.net| ensures AckEntered(topo, v, v.net[i]) {
        assert AckEntered(topo, Act(topo, w, steps[n]), v.net[i]);
      }
      forall i | 0 <= i < |v.ends| ensures EndEntered(topo, v, v.ends[i]) {
        assert EndEntered(topo, Act(topo, w, steps[n]), v.ends[i]);
      }
    }
  }

  // ---------- exactly which registrations get through ----------

  /** Once everything a registration caused has settled without loss, its client is in the
      table of exactly the node where registrations of it end within 16 hops, and of no node
      if they end nowhere. */
  lemma {:induction false} ExactRegistration(topo: Topology, steps: seq<Step>, j: nat, g: Addr)
    requires Requests.UniqueStealths(topo)
    requires j < |Run(topo, steps).causes| && Run(topo, steps).causes[j].RegisterFrom?
    requires Delivery.SettledWithoutLoss(Run(topo, steps), j)
    requires g in topo
    ensures var w := Run(topo, steps);
            var o := w.causes[j].origin;
            && Registers(topo, o) && g in w.hosts
            && (topo[o].stealth in w.hosts[g].tables.registered <==> Enrols(topo, o, g))
            && (Enrols(topo, o, g) ==>
                  w.hosts[g].tables.registered[topo[o].stealth] == OwnEntry(topo[o], topo[o].client.value))
  {
    HostsFixed(topo, steps);
    Provenance.RunKeepsFlights(topo, steps);
    RunKeepsEntered(topo, steps);
    var w := Run(topo, steps);
    var o := w.causes[j].origin;
    var i := Delivery.SettledHasEnd(topo, steps, j);
    assert EndOk(topo, w.causes, w.ends[i]) && EndEntered(topo, w, w.ends[i]);
    if topo[o].stealth in w.hosts[g].tables.registered {
      Registry.RegistrationsAreGenuine(topo, steps, g, topo[o].stealth);
    }
  }

  /** An acknowledgement is never relayed: of a registration that has settled without loss it
      was opened by the registering client if and only if that client is the very next hop
      back from the node where its registrations end. */
  lemma {:induction false} ExactAck(topo: Topology, steps: seq<Step>, j: nat)
    requires j < |Run(topo, steps).causes| && Run(topo, steps).causes[j].RegisterFrom?
    requires Delivery.SettledWithoutLoss(Run(topo, steps), j)
    ensures var w := Run(topo, steps);
            var o := w.causes[j].origin;
            (exists i :: 0 <= i < |w.ends| && w.ends[i] == End(j, Acknowledged(o))) <==> AckOpens(topo, o, o)
  {
    Provenance.RunKeepsFlights(topo, steps);
    var w := Run(topo, steps);
    var o := w.causes[j].origin;
    var i := Delivery.SettledHasEnd(topo, steps, j);
    assert EndOk(topo, w.causes, w.ends[i]);
    if AckOpens(topo, o, o) {
      var g :| Enrols(topo, o, g) && Hop(topo, topo[o].stealth)(g) == Some(o);
      assert w.ends[i].fate.Acknowledged?;
      var h :| Enrols(topo, o, h) && Hop(topo, topo[o].stealth)(h) == Some(w.ends[i].fate.at);
      EnrolledOnce(topo, o, g, h);
    }
  }
}
