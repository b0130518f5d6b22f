/** Admin requests over whole runs: an answer belongs to the request it is given to, comes from
    the node the request was for, and a client list is the list of one moment. */
module Requests {
  import opened Wrappers
  import opened Messages
  import opened Node
  import opened Sums
  import opened World
  import opened Flights
  import opened PendingTables
  import opened Turns
  import Provenance

  ghost predicate UniqueStealths(topo: Topology) {
    forall a, b :: a in topo && b in topo && topo[a].stealth == topo[b].stealth ==> a == b
  }

  // ---------- a sent request stays what it was ----------

  predicate Sent(r: Request) {
    !r.phase.Allocated? && !r.phase.Inserted?
  }

  /** The request behind a cause exists and has been sent. */
  ghost predicate CauseOk(hosts: map<Addr, Host>, c: Cause) {
    c.RequestFrom? ==>
      && c.origin in hosts && c.id in hosts[c.origin].requests
      && var r := hosts[c.origin].requests[c.id];
      && r.kind == c.kind && r.target == c.target && Sent(r)
  }

  /** What never changes about a request, whatever a host does. */
  ghost predicate RequestGrows(h: Host, g: Host, id: nat) {
    id in h.requests ==>
      && id in g.requests
      && var r, q := h.requests[id], g.requests[id];
      && q.kind == r.kind && q.target == r.target
      && (Sent(r) ==> Sent(q)) && (r.phase.Finished() ==> q.phase == r.phase)
  }

  ghost predicate HostGrows(h: Host, g: Host) {
    forall id: nat :: RequestGrows(h, g, id)
  }

  ghost predicate HostsGrow(hosts: map<Addr, Host>, later: map<Addr, Host>) {
    forall a :: a in hosts ==> a in later && HostGrows(hosts[a], later[a])
  }

  /** A host grows if only the record of one request changes, and that lawfully. */
  lemma {:induction false} OneRequestGrows(h: Host, g: Host, id: nat)
    requires RequestGrows(h, g, id)
    requires forall k :: k != id && k in h.requests ==> k in g.requests && g.requests[k] == h.requests[k]
    ensures HostGrows(h, g)
  {
    forall k: nat ensures RequestGrows(h, g, k) {
    }
  }

  lemma {:induction false} TurnGrows(topo: Topology, a: Addr, h: Host, g: Host, t: Turn)
    requires HostOk(h) && Turned(topo, a, h, g, t)
    ensures HostGrows(h, g)
  {
    var id := match t
              case Allocates(_) => h.tables.nextId
              case Advances(s) => s.id
              case Marks(id, _) => id
              case Fills => if h.hand.Some? then h.hand.value.id else 0
              case _ => 0;
    assert IdOk(h, id);
    OneRequestGrows(h, g, id);
  }

  lemma {:induction false} ActGrowsHosts(topo: Topology, w: World, s: Step)
    requires AllHostsOk(w.hosts)
    ensures HostsGrow(w.hosts, Act(topo, w, s).hosts)
  {
    NoNewHosts(topo, w, s);
    forall a | a in w.hosts ensures HostGrows(w.hosts[a], Act(topo, w, s).hosts[a]) {
      var t := TurnOf(topo, w, s, a);
      TurnGrows(topo, a, w.hosts[a], Act(topo, w, s).hosts[a], t);
    }
  }

  lemma {:induction false} CauseStaysOk(hosts: map<Addr, Host>, later: map<Addr, Host>, c: Cause)
    requires CauseOk(hosts, c) && HostsGrow(hosts, later)
    ensures CauseOk(later, c)
  {
    if c.RequestFrom? {
      assert RequestGrows(hosts[c.origin], later[c.origin], c.id);
    }
  }

  ghost predicate CausesOk(w: World) {
    forall j :: 0 <= j < |w.causes| ==> CauseOk(w.hosts, w.causes[j])
  }

  lemma {:induction false} NewCauseOk(topo: Topology, w: World, s: Step)
    ensures var v := Act(topo, w, s);
            v.causes == w.causes || (|v.causes| == |w.causes| + 1 && v.causes[..|w.causes|] == w.causes
                                     && CauseOk(v.hosts, v.causes[|w.causes|]))
  {
  }

  lemma {:induction false} ActKeepsCauses(topo: Topology, w: World, s: Step)
    requires AllHostsOk(w.hosts) && CausesOk(w)
    ensures CausesOk(Act(topo, w, s))
  {
    var v := Act(topo, w, s);
    ActGrowsHosts(topo, w, s);
    NewCauseOk(topo, w, s);
    forall j | 0 <= j < |v.causes| ensures CauseOk(v.hosts, v.causes[j]) {
      if j < |w.causes| {
        assert v.causes[j] == w.causes[j];
        CauseStaysOk(w.hosts, v.hosts, w.causes[j]);
      }
    }
  }

  // ---------- snapshots ----------

  /** In that past state request id of origin was out and node q's list read clients. */
  ghost predicate Snapshot(topo: Topology, hosts: map<Addr, Host>, origin: Addr, id: nat, q: Addr, clients: seq<ClientEntry>) {
    && q in topo && q in hosts && origin in hosts
    && id in hosts[origin].requests && Sent(hosts[origin].requests[id])
    && exists order :: Enumerates(order, hosts[q].tables.registered)
                       && clients == ClientList(topo[q], hosts[q].tables.registered, order)
  }

  ghost predicate SnapshotTaken(topo: Topology, past: seq<map<Addr, Host>>, origin: Addr, id: nat, q: Addr, clients: seq<ClientEntry>) {
    exists t :: 0 <= t < |past| && Snapshot(topo, past[t], origin, id, q, clients)
  }

  /** The same, at a moment when the request was not finished. */
  ghost predicate LiveSnapshotTaken(topo: Topology, past: seq<map<Addr, Host>>, origin: Addr, id: nat, q: Addr, clients: seq<ClientEntry>) {
    exists t :: 0 <= t < |past| && Snapshot(topo, past[t], origin, id, q, clients)
                && !past[t][origin].requests[id].phase.Finished()
  }

  /** Every client list in flight was the responder's list at some moment since its request was sent. */
  ghost predicate ListOk(topo: Topology, w: World, f: Flight) {
    f.Msg().PublicClientsResp? ==>
      && f.cause < |w.causes| && w.causes[f.cause].RequestFrom?
      && SnapshotTaken(topo, w.past, w.causes[f.cause].origin, w.causes[f.cause].id, f.start, f.Msg().clients)
  }

  ghost predicate ListsOk(topo: Topology, w: World) {
    forall i :: 0 <= i < |w.net| ==> ListOk(topo, w, w.net[i])
  }

  /** Nothing in the past contradicts the present. */
  ghost predicate PastOk(w: World) {
    forall t :: 0 <= t < |w.past| ==> HostsGrow(w.past[t], w.hosts)
  }

  lemma {:induction false} GrowTransitive(a: map<Addr, Host>, b: map<Addr, Host>, c: map<Addr, Host>)
    requires HostsGrow(a, b) && HostsGrow(b, c)
    ensures HostsGrow(a, c)
  {
    forall x | x in a ensures x in c && HostGrows(a[x], c[x]) {
      forall id: nat ensures RequestGrows(a[x], c[x], id) {
        assert RequestGrows(a[x], b[x], id) && RequestGrows(b[x], c[x], id);
      }
    }
  }

  lemma {:induction false} NextKeepsPast(topo: Topology, w: World, s: Step)
    requires AllHostsOk(w.hosts) && PastOk(w)
    ensures PastOk(Next(topo, w, s))
  {
    var v := Next(topo, w, s);
    ActGrowsHosts(topo, w, s);
    forall t | 0 <= t < |v.past| ensures HostsGrow(v.past[t], v.hosts) {
      if t < |w.past| {
        assert v.past[t] == w.past[t];
        GrowTransitive(w.past[t], w.hosts, v.hosts);
      }
    }
  }

  lemma {:induction false} ListStaysOk(topo: Topology, w: World, v: World, f: Flight)
    requires ListOk(topo, w, f) && w.causes <= v.causes && w.past <= v.past
    ensures ListOk(topo, v, f)
  {
    if f.Msg().PublicClientsResp? {
      var c := w.causes[f.cause];
      var t :| 0 <= t < |w.past| && Snapshot(topo, w.past[t], c.origin, c.id, f.start, f.Msg().clients);
      assert v.past[t] == w.past[t];
      assert v.causes[f.cause] == c;
    }
  }

  /** A list that a delivery sends out is an aged one, or one read off the receiver's table now. */
  lemma {:induction false} NewListOk(topo: Topology, w: World, i: nat, order: seq<string>)
    requires Provenance.FlightsOk(topo, w) && ListsOk(topo, w) && CausesOk(w)
    requires i < |w.net| && CanReceive(topo, w, i, order)
    ensures var f := w.net[i];
            var e := Receive(topo[f.dg.to], w.hosts[f.dg.to].tables, f.dg.frame, order);
            e.sent.Some? ==> ListOk(topo, w.(past := w.past + [w.hosts]), NextFlight(topo[f.dg.to], f, e.sent.value))
  {
    var f := w.net[i];
    var cfg, t := topo[f.dg.to], w.hosts[f.dg.to].tables;
    var e := Receive(cfg, t, f.dg.frame, order);
    var v := w.(past := w.past + [w.hosts]);
    if e.sent.Some? && NextFlight(cfg, f, e.sent.value).Msg().PublicClientsResp? {
      var g := NextFlight(cfg, f, e.sent.value);
      assert FlightOk(topo, w.causes, w.handled, f);
      DeliverFlight(topo, w.causes, w.handled, f, t, order);
      ListSource(cfg, t, f, order);
      if f.Msg().PublicClientsResp? {
        ListStaysOk(topo, w, v, f);
      } else {
        var c := w.causes[f.cause];
        assert CauseOk(w.hosts, c);
        assert v.past[|w.past|] == w.hosts;
        assert Snapshot(topo, w.hosts, c.origin, c.id, f.dg.to, g.Msg().clients);
      }
    }
  }

  lemma {:induction false} ListSource(cfg: Config, t: Tables, f: Flight, order: seq<string>)
    requires Enumerates(order, t.registered)
    requires Receive(cfg, t, f.dg.frame, order).sent.Some?
    requires Receive(cfg, t, f.dg.frame, order).sent.value.frame.sealed.msg.PublicClientsResp?
    ensures var m := Receive(cfg, t, f.dg.frame, order).sent.value.frame.sealed.msg;
            || (f.Msg().PublicClientsResp? && m.clients == f.Msg().clients && Relays(cfg, f.Msg()))
            || (f.Msg().PublicClientsReq? && m.clients == ClientList(cfg, t.registered, order) && !Relays(cfg, f.Msg()))
  {
    var msg := f.Msg();
    if msg.Routed() && msg.Ttl() > 0 {
      ForwardUsesNextPeer(cfg, msg.Toward(), msg.Aged());
    }
    match msg
    case ClientRegister(id, src, _, _, _) =>
      ForwardUsesNextPeer(cfg, src, ClientRegisterAck(id, cfg.stealth, src, MAX_TTL, true, "registered"));
    case PingReq(id, src, _, _, _) =>
      ForwardUsesNextPeer(cfg, src, PingResp(id, cfg.stealth, src, MAX_TTL, cfg.id, cfg.stealth));
    case PublicClientsReq(id, src, _, _) =>
      ForwardUsesNextPeer(cfg, src, PublicClientsResp(id, cfg.stealth, src, MAX_TTL, cfg.stealth,
                                                      ClientList(cfg, t.registered, order)));
    case _ =>
  }

  /** A datagram a step puts on the wire out of nothing is never a client list. */
  lemma {:induction false} NewCauseNoList(topo: Topology, w: World, s: Step)
    requires !s.Deliver? && !s.Lose? && !s.Duplicate?
    ensures var v := Act(topo, w, s);
            && w.causes <= v.causes
            && (v.net == w.net || (v.net == w.net + [v.net[|w.net|]] && !v.net[|w.net|].Msg().PublicClientsResp?))
  {
    if s.Inject? && s.at in topo && HandleLocalPacket(topo[s.at], s.packet).Success? {
    } else if s.Send? && s.at in topo && s.at in w.hosts && s.id in w.hosts[s.at].requests {
      var r := w.hosts[s.at].requests[s.id];
      ForwardUsesNextPeer(topo[s.at], r.target, RequestMessage(topo[s.at], r.kind, s.id, r.target, r.ip));
    }
  }

  lemma {:induction false} OldListsOk(topo: Topology, w: World, v: World)
    requires ListsOk(topo, w) && w.causes <= v.causes && w.past <= v.past
    ensures forall f :: f in w.net ==> ListOk(topo, v, f)
  {
    forall f | f in w.net ensures ListOk(topo, v, f) {
      var k :| 0 <= k < |w.net| && w.net[k] == f;
      ListStaysOk(topo, w, v, w.net[k]);
    }
  }

  /** Delivering, losing and duplicating leave datagrams that were there, and one that a delivery sends. */
  lemma {:induction false} WireKeepsLists(topo: Topology, w: World, s: Step)
    requires Provenance.FlightsOk(topo, w) && ListsOk(topo, w) && CausesOk(w)
    requires s.Deliver? || s.Lose? || s.Duplicate?
    ensures ListsOk(topo, Next(topo, w, s))
  {
    var v := Next(topo, w, s);
    OldListsOk(topo, w, v);
    if s.Deliver? && s.i < |w.net| && w.net[s.i].dg.to in topo && CanReceive(topo, w, s.i, s.order) {
      NewListOk(topo, w, s.i, s.order);
    }
    forall i | 0 <= i < |v.net| && v.net[i] !in w.net ensures ListOk(topo, v, v.net[i]) {
    }
  }

  lemma {:induction false} NextKeepsLists(topo: Topology, w: World, s: Step)
    requires Provenance.FlightsOk(topo, w) && ListsOk(topo, w) && CausesOk(w)
    ensures ListsOk(topo, Next(topo, w, s))
  {
    if s.Deliver? || s.Lose? || s.Duplicate? {
      WireKeepsLists(topo, w, s);
    } else {
      var v := Next(topo, w, s);
      NewCauseNoList(topo, w, s);
      forall i | 0 <= i < |v.net| ensures ListOk(topo, v, v.net[i]) {
        if i < |w.net| {
          ListStaysOk(topo, w, v, w.net[i]);
        }
      }
    }
  }
}
