/** A gateway's table of registered clients over whole runs (src/daemon.rs:444-469). */
module Registry {
  import opened Wrappers
  import opened Messages
  import opened Node
  import opened World
  import opened Flights
  import opened Turns
  import LastWriter
  import Provenance

  /** The table is what inserting the accepted registrations one after the other leaves. */
  ghost predicate TableOk(h: Host) {
    && h.tables.registered == LastWriter.Inserted(h.accepted)
    && forall i :: 0 <= i < |h.accepted| ==> h.accepted[i].0 == h.accepted[i].1.clientStealth
  }

  ghost predicate TablesOk(hosts: map<Addr, Host>) {
    forall a :: a in hosts ==> TableOk(hosts[a])
  }

  lemma {:induction false} ReceiveTable(cfg: Config, h: Host, frame: Frame, order: seq<string>)
    requires TableOk(h) && Enumerates(order, h.tables.registered)
    ensures var e := Receive(cfg, h.tables, frame, order);
            TableOk(h.(tables := e.tables, hand := e.handed, accepted := h.accepted + Accepted(cfg, frame)))
  {
    var e := Receive(cfg, h.tables, frame, order);
    if Accepted(cfg, frame) == [] {
      assert h.accepted + [] == h.accepted;
      assert e.tables.registered == h.tables.registered;
    } else {
      var client := OpenFrame(cfg, frame).value.client;
      LastWriter.InsertedSnoc(h.accepted, (client.clientStealth, client));
      assert e.tables.registered == h.tables.registered[client.clientStealth := client];
    }
  }

  /** The registered table and its history change only when the UDP thread takes a datagram. */
  lemma {:induction false} OtherTurns(topo: Topology, a: Addr, h: Host, g: Host, t: Turn)
    requires Turned(topo, a, h, g, t) && !t.Takes?
    ensures g.accepted == h.accepted && g.tables.registered == h.tables.registered
  {
  }

  lemma {:induction false} ActKeepsTables(topo: Topology, w: World, s: Step)
    requires TablesOk(w.hosts)
    ensures TablesOk(Act(topo, w, s).hosts)
  {
    NoNewHosts(topo, w, s);
    forall a | a in Act(topo, w, s).hosts ensures TableOk(Act(topo, w, s).hosts[a]) {
      var t := TurnOf(topo, w, s, a);
      if t.Takes? {
        ReceiveTable(topo[a], w.hosts[a], t.f.dg.frame, t.order);
      } else {
        OtherTurns(topo, a, w.hosts[a], Act(topo, w, s).hosts[a], t);
      }
    }
  }

  lemma {:induction false} RunKeepsTables(topo: Topology, steps: seq<Step>)
    ensures TablesOk(Run(topo, steps).hosts)
  {
    if steps != [] {
      RunKeepsTables(topo, steps[..|steps|-1]);
      ActKeepsTables(topo, Run(topo, steps[..|steps|-1]), steps[|steps|-1]);
    }
  }

  /** In every run the table holds exactly the client stealths that were accepted at this
      gateway, each under its own stealth, with the entry accepted last for it. */
  lemma {:induction false} TableIsLastWriter(topo: Topology, steps: seq<Step>, a: Addr, k: string)
    requires a in Run(topo, steps).hosts
    ensures var h := Run(topo, steps).hosts[a];
            && (k in h.tables.registered <==> exists i :: 0 <= i < |h.accepted| && h.accepted[i].1.clientStealth == k)
            && (k in h.tables.registered ==>
                  && h.tables.registered[k].clientStealth == k
                  && exists i: nat :: i < |h.accepted| && h.accepted[i].0 == k && LastWriter.IsLast(h.accepted, i)
                                      && h.tables.registered[k] == h.accepted[i].1)
  {
    RunKeepsTables(topo, steps);
    var h := Run(topo, steps).hosts[a];
    if k in h.tables.registered {
      var i := LastWriter.InsertedHasLast(h.accepted, k);
    }
    forall i: nat | i < |h.accepted| && h.accepted[i].1.clientStealth == k ensures k in h.tables.registered {
      LastWriter.InsertedContains(h.accepted, i);
    }
  }

  lemma {:induction false} WrittenAgain(cfg: Config, t: Tables, frame: Frame, order: seq<string>,
                                        before: seq<(string, ClientEntry)>, later: seq<(string, ClientEntry)>)
    requires Accepted(cfg, frame) != [] && Enumerates(order, t.registered)
    requires t.registered == LastWriter.Inserted(before + Accepted(cfg, frame) + later)
    requires forall p :: p in later && p.0 == Accepted(cfg, frame)[0].0 ==> p == Accepted(cfg, frame)[0]
    ensures Receive(cfg, t, frame, order).tables == t
  {
    var pair := Accepted(cfg, frame)[0];
    assert Accepted(cfg, frame) == [pair];
    LastWriter.InsertedSnoc(before, pair);
    LastWriter.StillInserted(before + [pair], later, pair);
    assert t.registered[pair.0 := pair.1] == t.registered;
  }

  /** At any point of any run: receiving a registration that was accepted before, with no
      different registration for its client accepted since, leaves the node's tables as they are. */
  lemma {:induction false} RedeliveryIdempotent(topo: Topology, steps: seq<Step>, i: nat, order: seq<string>, m: nat)
    requires i < |Run(topo, steps).net| && CanReceive(topo, Run(topo, steps), i, order)
    requires var w := Run(topo, steps);
             var f := w.net[i];
             var accepted := w.hosts[f.dg.to].accepted;
             && m < |accepted| && Accepted(topo[f.dg.to], f.dg.frame) == [accepted[m]]
             && forall n :: m < n < |accepted| && accepted[n].0 == accepted[m].0 ==> accepted[n] == accepted[m]
    ensures var w := Run(topo, steps);
            var a := w.net[i].dg.to;
            Next(topo, w, Deliver(i, order)).hosts[a].tables == w.hosts[a].tables
  {
    RunKeepsTables(topo, steps);
    var w := Run(topo, steps);
    var f := w.net[i];
    var h := w.hosts[f.dg.to];
    assert TableOk(h);
    assert h.accepted == h.accepted[..m] + [h.accepted[m]] + h.accepted[m+1..];
    WrittenAgain(topo[f.dg.to], h.tables, f.dg.frame, order, h.accepted[..m], h.accepted[m+1..]);
  }

  // ---------- where the entries come from ----------

  /** The entry is what some client advertises for itself whose registrations end at a. */
  ghost predicate OwnEntryOfSome(topo: Topology, a: Addr, entry: ClientEntry) {
    exists o :: Enrols(topo, o, a) && entry == OwnEntry(topo[o], topo[o].client.value)
  }

  ghost predicate Genuine(topo: Topology, a: Addr, h: Host) {
    forall i :: 0 <= i < |h.accepted| ==> OwnEntryOfSome(topo, a, h.accepted[i].1)
  }

  ghost predicate AllGenuine(topo: Topology, hosts: map<Addr, Host>) {
    forall a :: a in hosts ==> Genuine(topo, a, hosts[a])
  }

  /** An accepted registration in flight, and whose it is. */
  lemma {:induction false} AcceptedSource(topo: Topology, w: World, i: nat)
    requires Provenance.FlightsOk(topo, w) && i < |w.net| && w.net[i].dg.to in topo
    requires Accepted(topo[w.net[i].dg.to], w.net[i].dg.frame) != []
    ensures var f := w.net[i];
            && w.causes[f.cause].RegisterFrom?
            && var o := w.causes[f.cause].origin;
            && Enrols(topo, o, f.dg.to)
            && Accepted(topo[f.dg.to], f.dg.frame) == [(topo[o].stealth, OwnEntry(topo[o], topo[o].client.value))]
  {
    var f := w.net[i];
    assert FlightOk(topo, w.causes, w.handled, f);
    assert f.Msg().ClientRegister?;
    assert w.causes[f.cause].RegisterFrom?;
    AcceptedWhereEnrolled(topo, f, w.causes[f.cause].origin, w.causes[f.cause].id);
  }

  lemma {:induction false} ActKeepsGenuine(topo: Topology, w: World, s: Step)
    requires Provenance.FlightsOk(topo, w) && AllGenuine(topo, w.hosts)
    ensures AllGenuine(topo, Act(topo, w, s).hosts)
  {
    NoNewHosts(topo, w, s);
    forall a | a in Act(topo, w, s).hosts ensures Genuine(topo, a, Act(topo, w, s).hosts[a]) {
      var t := TurnOf(topo, w, s, a);
      assert Genuine(topo, a, w.hosts[a]);
      if t.Takes? {
        if Accepted(topo[a], t.f.dg.frame) != [] {
          AcceptedSource(topo, w, s.i);
        }
      } else {
        OtherTurns(topo, a, w.hosts[a], Act(topo, w, s).hosts[a], t);
      }
    }
  }

  lemma {:induction false} RunKeepsGenuine(topo: Topology, steps: seq<Step>)
    ensures AllGenuine(topo, Run(topo, steps).hosts)
  {
    if steps != [] {
      var n := |steps| - 1;
      RunKeepsGenuine(topo, steps[..n]);
      Provenance.RunKeepsFlights(topo, steps[..n]);
      ActKeepsGenuine(topo, Run(topo, steps[..n]), steps[n]);
    }
  }

  /** Every registered client is a node of the network in the client role, with that stealth,
      described as it describes itself, whose registrations end at this very node. */
  lemma {:induction false} RegistrationsAreGenuine(topo: Topology, steps: seq<Step>, a: Addr, k: string)
    requires a in Run(topo, steps).hosts && k in Run(topo, steps).hosts[a].tables.registered
    ensures exists o :: && Enrols(topo, o, a) && topo[o].role == Client && topo[o].stealth == k
                        && Run(topo, steps).hosts[a].tables.registered[k] == OwnEntry(topo[o], topo[o].client.value)
  {
    RunKeepsGenuine(topo, steps);
    TableIsLastWriter(topo, steps, a, k);
    var h := Run(topo, steps).hosts[a];
    var i: nat :| i < |h.accepted| && h.tables.registered[k] == h.accepted[i].1;
    assert Genuine(topo, a, h) && OwnEntryOfSome(topo, a, h.accepted[i].1);
  }
}
