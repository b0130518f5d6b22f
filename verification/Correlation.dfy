/** Which answer goes to which request, over every run. */
module Correlation {
  import opened Wrappers
  import opened Messages
  import opened Node
  import opened Sums
  import opened World
  import opened Flights
  import opened PendingTables
  import opened Requests
  import opened Turns
  import Provenance

  // ---------- the values on their way into a request ----------

  /** Everything that is or was on the channel of request id, or is about to be. */
  function Values(h: Host, id: nat): set<Reply> {
    (if id in h.requests then set v | v in h.requests[id].inbox else {})
    + (if h.hand.Some? && h.hand.value.id == id then {h.hand.value.reply} else {})
  }

  /** The reply answers request id of a for that target: it is of the right kind, names the
      target, comes from the node where requests for the target end, and that node handled
      this very request; a client list is that node's list at a moment while the request was out. */
  ghost predicate ReplyOk(topo: Topology, handled: set<(Addr, nat, string)>, past: seq<map<Addr, Host>>,
                          a: Addr, id: nat, kind: Kind, target: string, reply: Reply)
  {
    && a in topo && RoundTrip(topo, a, target)
    && match reply
       case PingReply(t, responderStealth, responderId) =>
         && kind == PingKind && t == target && responderStealth == target
         && exists q :: Responder(topo, a, target, q) && topo[q].id == responderId
                        && (q, id, topo[a].stealth) in handled
       case ClientsReply(gateway, clients) =>
         && kind == ClientsKind && gateway == target
         && exists q :: Responder(topo, a, target, q) && LiveSnapshotTaken(topo, past, a, id, q, clients)
  }

  ghost predicate HostRepliesOk(topo: Topology, w: World, a: Addr)
    requires a in w.hosts
  {
    var h := w.hosts[a];
    forall id: nat, v :: v in Values(h, id) ==>
      id in h.requests && ReplyOk(topo, w.handled, w.past, a, id, h.requests[id].kind, h.requests[id].target, v)
  }

  ghost predicate RepliesOk(topo: Topology, w: World) {
    forall a :: a in w.hosts ==> HostRepliesOk(topo, w, a)
  }

  lemma {:induction false} ReplyStaysOk(topo: Topology, w: World, v: World, a: Addr, id: nat, kind: Kind, target: string, reply: Reply)
    requires ReplyOk(topo, w.handled, w.past, a, id, kind, target, reply)
    requires w.handled <= v.handled && w.past <= v.past
    ensures ReplyOk(topo, v.handled, v.past, a, id, kind, target, reply)
  {
    if reply.ClientsReply? {
      var q :| Responder(topo, a, target, q) && LiveSnapshotTaken(topo, w.past, a, id, q, reply.clients);
      var t :| 0 <= t < |w.past| && Snapshot(topo, w.past[t], a, id, q, reply.clients)
               && !w.past[t][a].requests[id].phase.Finished();
      assert v.past[t] == w.past[t];
    }
  }

  /** Only a datagram taken in brings a value to a request: the one handed to the UDP thread. */
  lemma {:induction false} TurnValues(topo: Topology, a: Addr, h: Host, g: Host, t: Turn, id: nat, v: Reply)
    requires HostOk(h) && Turned(topo, a, h, g, t) && v in Values(g, id) && v !in Values(h, id)
    ensures t.Takes? && Receive(topo[a], h.tables, t.f.dg.frame, t.order).handed == Some(Handed(id, v))
  {
    assert IdOk(h, h.tables.nextId);
  }

  /** A reply flight that a node takes in belongs to a request of that very node. */
  lemma {:induction false} ReplyFlight(topo: Topology, w: World, f: Flight)
    requires UniqueStealths(topo) && FlightOk(topo, w.causes, w.handled, f)
    requires f.dg.to in topo && OpenFrame(topo[f.dg.to], f.dg.frame).Success?
    requires f.Msg().PingResp? || f.Msg().PublicClientsResp?
    requires f.Msg().dstStealth == topo[f.dg.to].stealth && f.Msg().ttl > 0
    ensures && w.causes[f.cause].RequestFrom?
            && w.causes[f.cause].origin == f.dg.to && w.causes[f.cause].id == f.Msg().requestId
            && w.causes[f.cause].kind == (if f.Msg().PingResp? then PingKind else ClientsKind)
            && RoundTrip(topo, f.dg.to, w.causes[f.cause].target)
  {
    EndingReaches(topo, f);
  }

  lemma {:induction false} HandedSource(cfg: Config, t: Tables, f: Flight, order: seq<string>)
    requires Enumerates(order, t.registered)
    requires Receive(cfg, t, f.dg.frame, order).handed.Some?
    ensures var hd := Receive(cfg, t, f.dg.frame, order).handed.value;
            var m := f.Msg();
            && OpenFrame(cfg, f.dg.frame) == Success(m) && (m.PingResp? || m.PublicClientsResp?)
            && m.dstStealth == cfg.stealth && m.ttl > 0
            && var kind := if m.PingResp? then PingKind else ClientsKind;
            && m.requestId in Pending(t, kind) && hd.id == Pending(t, kind)[m.requestId]
            && hd.reply == (if m.PingResp? then PingReply(m.srcStealth, m.responderStealth, m.responderId)
                            else ClientsReply(m.gatewayStealth, m.clients))
  {
  }

  /** While the request is not finished, the moment its list was taken is one at which it was not. */
  lemma {:induction false} ListWasLive(topo: Topology, w: World, f: Flight)
    requires PastOk(w) && ListOk(topo, w, f) && f.Msg().PublicClientsResp?
    requires f.cause < |w.causes| && CauseOk(w.hosts, w.causes[f.cause]) && w.causes[f.cause].RequestFrom?
    requires var c := w.causes[f.cause]; !w.hosts[c.origin].requests[c.id].phase.Finished()
    ensures var c := w.causes[f.cause]; LiveSnapshotTaken(topo, w.past, c.origin, c.id, f.start, f.Msg().clients)
  {
    var c := w.causes[f.cause];
    var t :| 0 <= t < |w.past| && Snapshot(topo, w.past[t], c.origin, c.id, f.start, f.Msg().clients);
    assert HostsGrow(w.past[t], w.hosts);
    assert RequestGrows(w.past[t][c.origin], w.hosts[c.origin], c.id);
  }

  /** The value a delivery hands over answers the request whose channel it goes to. */
  lemma {:induction false} HandedOk(topo: Topology, w: World, i: nat, order: seq<string>)
    requires UniqueStealths(topo) && Provenance.FlightsOk(topo, w) && ListsOk(topo, w) && CausesOk(w) && PastOk(w)
    requires AllHostsOk(w.hosts) && i < |w.net| && CanReceive(topo, w, i, order)
    requires Receive(topo[w.net[i].dg.to], w.hosts[w.net[i].dg.to].tables, w.net[i].dg.frame, order).handed.Some?
    ensures var a := w.net[i].dg.to;
            var hd := Receive(topo[a], w.hosts[a].tables, w.net[i].dg.frame, order).handed.value;
            && hd.id in w.hosts[a].requests
            && ReplyOk(topo, w.handled, w.past, a, hd.id, w.hosts[a].requests[hd.id].kind, w.hosts[a].requests[hd.id].target, hd.reply)
  {
    var f := w.net[i];
    var a := f.dg.to;
    var h := w.hosts[a];
    HandedSource(topo[a], h.tables, f, order);
    ReplyFlight(topo, w, f);
    var c := w.causes[f.cause];
    assert CauseOk(w.hosts, c);
    assert IdOk(h, c.id);
    assert ViewOf(h, c.id).Entry(c.kind).Some?;
    assert Open(h.requests[c.id]);
    if f.Msg().PublicClientsResp? {
      ListWasLive(topo, w, f);
    }
  }

  lemma {:induction false} ValueStaysOk(topo: Topology, w: World, s: Step, a: Addr, id: nat, v: Reply)
    requires UniqueStealths(topo) && Provenance.FlightsOk(topo, w) && ListsOk(topo, w) && CausesOk(w) && PastOk(w)
    requires AllHostsOk(w.hosts) && RepliesOk(topo, w) && a in w.hosts
    requires a in Next(topo, w, s).hosts && v in Values(Next(topo, w, s).hosts[a], id)
    ensures id in w.hosts[a].requests
    ensures ReplyOk(topo, w.handled, w.past, a, id, w.hosts[a].requests[id].kind, w.hosts[a].requests[id].target, v)
  {
    var t := TurnOf(topo, w, s, a);
    assert HostOk(w.hosts[a]) && HostRepliesOk(topo, w, a);
    if v !in Values(w.hosts[a], id) {
      TurnValues(topo, a, w.hosts[a], Act(topo, w, s).hosts[a], t, id, v);
      HandedOk(topo, w, s.i, s.order);
    }
  }

  lemma {:induction false} NextKeepsReplies(topo: Topology, w: World, s: Step)
    requires UniqueStealths(topo) && Provenance.FlightsOk(topo, w) && ListsOk(topo, w) && CausesOk(w) && PastOk(w)
    requires AllHostsOk(w.hosts) && RepliesOk(topo, w)
    ensures RepliesOk(topo, Next(topo, w, s))
  {
    var n := Next(topo, w, s);
    NoNewHosts(topo, w, s);
    ActGrowsHosts(topo, w, s);
    HandledGrows(topo, w, s);
    forall a | a in n.hosts ensures HostRepliesOk(topo, n, a) {
      forall id: nat, v | v in Values(n.hosts[a], id)
        ensures id in n.hosts[a].requests
        ensures ReplyOk(topo, n.handled, n.past, a, id, n.hosts[a].requests[id].kind, n.hosts[a].requests[id].target, v)
      {
        ValueStaysOk(topo, w, s, a, id, v);
        assert RequestGrows(w.hosts[a], n.hosts[a], id);
        ReplyStaysOk(topo, w, n, a, id, w.hosts[a].requests[id].kind, w.hosts[a].requests[id].target, v);
      }
    }
  }

  /** What it is to have handled a request: the history gains (q, id, requester) only when the node
      q opens a live PingReq with that id and requester that is addressed to q's own stealth. */
  lemma {:induction false} HandledMeans(topo: Topology, w: World, s: Step, q: Addr, id: nat, requester: string)
    requires (q, id, requester) in Act(topo, w, s).handled && (q, id, requester) !in w.handled
    ensures s.Deliver? && s.i < |w.net| && w.net[s.i].dg.to == q && q in topo
    ensures OpenFrame(topo[q], w.net[s.i].dg.frame).Success?
    ensures match OpenFrame(topo[q], w.net[s.i].dg.frame).value
            case PingReq(i, src, target, ttl, _) => i == id && src == requester && target == topo[q].stealth && ttl > 0
            case _ => false
  {
  }

  lemma {:induction false} HandledGrows(topo: Topology, w: World, s: Step)
    ensures w.handled <= Next(topo, w, s).handled && w.past <= Next(topo, w, s).past
  {
  }

  // ---------- a request whose reply arrived is no longer pending ----------

  ghost predicate EndServed(topo: Topology, w: World, e: End) {
    e.fate.Replied? ==>
      && e.cause < |w.causes| && w.causes[e.cause].RequestFrom?
      && var c := w.causes[e.cause];
      && c.origin in w.hosts && c.id !in Pending(w.hosts[c.origin].tables, c.kind)
  }

  ghost predicate EndsServed(topo: Topology, w: World) {
    forall i :: 0 <= i < |w.ends| ==> EndServed(topo, w, w.ends[i])
  }

  /** Nothing re-enters a pending table once its request was sent. */
  lemma {:induction false} NeverPendingAgain(topo: Topology, a: Addr, h: Host, g: Host, t: Turn, id: nat, kind: Kind)
    requires Turned(topo, a, h, g, t) && id in h.requests && Sent(h.requests[id]) && id !in Pending(h.tables, kind)
    ensures id !in Pending(g.tables, kind)
  {
    if t.Takes? {
      var _, _ := ReceivePending(topo[a], h.tables, t.f.dg.frame, t.order);
    }
  }

  lemma {:induction false} NewEndServed(topo: Topology, w: World, i: nat, order: seq<string>)
    requires UniqueStealths(topo) && Provenance.FlightsOk(topo, w)
    requires i < |w.net| && CanReceive(topo, w, i, order)
    ensures var v := Received(topo, w, i, order);
            v.ends != w.ends ==> v.ends[..|w.ends|] == w.ends && |v.ends| == |w.ends| + 1 && EndServed(topo, v, v.ends[|w.ends|])
  {
    var f := w.net[i];
    var e := Receive(topo[f.dg.to], w.hosts[f.dg.to].tables, f.dg.frame, order);
    if e.sent.None? && FateOf(topo[f.dg.to], f, e).Replied? {
      OpenedWhenSuccessful(topo[f.dg.to], w.hosts[f.dg.to].tables, f, order);
      ReplyFlight(topo, w, f);
    }
  }

  lemma {:induction false} OpenedWhenSuccessful(cfg: Config, t: Tables, f: Flight, order: seq<string>)
    requires Enumerates(order, t.registered)
    requires Receive(cfg, t, f.dg.frame, order).outcome.Success?
    ensures OpenFrame(cfg, f.dg.frame) == Success(f.Msg())
  {
  }

  lemma {:induction false} EndStaysServed(topo: Topology, w: World, s: Step, e: End)
    requires CausesOk(w) && EndServed(topo, w, e)
    ensures EndServed(topo, Act(topo, w, s), e)
  {
    if e.fate.Replied? {
      var v, c := Act(topo, w, s), w.causes[e.cause];
      NewCauseOk(topo, w, s);
      assert v.causes[e.cause] == v.causes[..|w.causes|][e.cause];
      assert CauseOk(w.hosts, c);
      var t := TurnOf(topo, w, s, c.origin);
      NeverPendingAgain(topo, c.origin, w.hosts[c.origin], v.hosts[c.origin], t, c.id, c.kind);
    }
  }

  lemma {:induction false} ActKeepsServed(topo: Topology, w: World, s: Step)
    requires UniqueStealths(topo) && Provenance.FlightsOk(topo, w) && CausesOk(w) && EndsServed(topo, w)
    ensures EndsServed(topo, Act(topo, w, s))
  {
    var v := Act(topo, w, s);
    NewEnds(topo, w, s);
    forall i | 0 <= i < |v.ends| ensures EndServed(topo, v, v.ends[i]) {
      if i < |w.ends| {
        assert v.ends[i] == v.ends[..|w.ends|][i];
        EndStaysServed(topo, w, s, w.ends[i]);
      }
    }
  }

  lemma {:induction false} NewEnds(topo: Topology, w: World, s: Step)
    requires UniqueStealths(topo) && Provenance.FlightsOk(topo, w)
    ensures var v := Act(topo, w, s);
            v.ends == w.ends ||
            (v.ends[..|w.ends|] == w.ends && |v.ends| == |w.ends| + 1 && EndServed(topo, v, v.ends[|w.ends|]))
  {
    if s.Deliver? && s.i < |w.net| && w.net[s.i].dg.to in topo && CanReceive(topo, w, s.i, s.order) {
      NewEndServed(topo, w, s.i, s.order);
    }
  }
}
