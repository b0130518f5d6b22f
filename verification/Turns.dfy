/** What one step can do to one host: the few kinds of change that every host invariant is
    proved against. */
module Turns {
  import opened Wrappers
  import opened Messages
  import opened Node
  import opened World

  datatype Turn =
    | Unchanged
    | Allocates(r: Option<Request>)         // an id is taken, for a request or a registration
    | Advances(s: Step)                     // insert, take, time out, clean up
    | Marks(id: nat, phase: Phase)          // a request was sent, or could not be
    | Fills                                 // the UDP thread sends on a channel
    | Takes(f: Flight, order: seq<string>)  // the UDP thread handles a datagram

  ghost predicate Turned(topo: Topology, a: Addr, h: Host, g: Host, t: Turn) {
    match t
    case Unchanged => g == h
    case Allocates(r) =>
      var next := h.(tables := h.tables.(nextId := h.tables.nextId + 1));
      (match r
       case None => g == next
       case Some(request) =>
         request.phase == Allocated && request.inbox == [] && g == SetRequest(next, h.tables.nextId, request))
    case Advances(s) => (s.Insert? || s.Take? || s.TimeOut? || s.CleanUp?) && g == Advance(h, s)
    case Marks(id, phase) =>
      && id in h.requests && h.requests[id].phase == Inserted && (phase == Waiting || phase == SendFailed)
      && g == SetRequest(h, id, h.requests[id].(phase := phase))
    case Fills => g == FillInbox(h)
    case Takes(f, order) =>
      && a in topo && f.dg.to == a && h.hand.None? && Enumerates(order, h.tables.registered)
      && var e := Receive(topo[a], h.tables, f.dg.frame, order);
      g == h.(tables := e.tables, hand := e.handed, accepted := h.accepted + Accepted(topo[a], f.dg.frame))
  }

  /** The turn a step takes at host a; only a delivery of one of the datagrams in flight makes
      the UDP thread take one. */
  ghost predicate StepTurns(topo: Topology, w: World, s: Step, a: Addr, t: Turn)
    requires a in w.hosts
  {
    && a in Act(topo, w, s).hosts && Turned(topo, a, w.hosts[a], Act(topo, w, s).hosts[a], t)
    && (t.Takes? ==> s.Deliver? && s.i < |w.net| && t.f == w.net[s.i] && t.order == s.order && CanReceive(topo, w, s.i, s.order))
  }

  lemma {:induction false} TurnOfRequestStep(topo: Topology, w: World, s: Step, a: Addr) returns (t: Turn)
    requires a in w.hosts && (s.Ask? || s.Register? || s.Send?)
    ensures StepTurns(topo, w, s, a, t)
  {
    if Act(topo, w, s).hosts[a] == w.hosts[a] {
      t := Unchanged;
    } else if s.Register? {
      t := Allocates(None);
    } else if s.Ask? {
      t := Allocates(Some(Act(topo, w, s).hosts[a].requests[w.hosts[a].tables.nextId]));
    } else {
      t := Marks(s.id, Act(topo, w, s).hosts[a].requests[s.id].phase);
    }
  }

  lemma {:induction false} TurnOf(topo: Topology, w: World, s: Step, a: Addr) returns (t: Turn)
    requires a in w.hosts
    ensures StepTurns(topo, w, s, a, t)
  {
    if s.Ask? || s.Register? || s.Send? {
      t := TurnOfRequestStep(topo, w, s, a);
    } else if (s.Insert? || s.Take? || s.TimeOut? || s.CleanUp?) && s.at == a {
      t := Advances(s);
    } else if s.HandOver? && s.at == a {
      t := Fills;
    } else if s.Deliver? && s.i < |w.net| && w.net[s.i].dg.to == a && a in topo && CanReceive(topo, w, s.i, s.order) {
      t := Takes(w.net[s.i], s.order);
    } else {
      t := Unchanged;
    }
  }
}
