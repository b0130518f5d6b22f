/** From an answered request in a run to what the administrator is told. */
module Reports {
  import opened Wrappers
  import opened Node
  import opened World
  import opened Daemon
  import Delivery
  import Flights
  import Paths
  import Requests

  /** In every run, what a node reports for an answered ping names the stealth that was asked for
      as target and as responder, and as responder id the id of the node that pings of that
      stealth lead to. */
  lemma {:induction false} PingReported(topo: Topology, steps: seq<Step>, a: Addr, id: nat, r: Request) returns (q: Addr)
    requires Requests.UniqueStealths(topo)
    requires a in Run(topo, steps).hosts && id in Run(topo, steps).hosts[a].requests && r == Run(topo, steps).hosts[a].requests[id]
    requires r.kind == PingKind && r.phase.Answered?
    ensures a in topo && q in topo && topo[q].stealth == r.target && Flights.Reaches(topo, a, r.target, None, q)
    ensures PingOutcome(topo[a], ByStealth(r.target), id, Attempt(true, Some(r.phase.reply)))
            == PingResult(ByStealth(r.target), true, Some(r.target), Some(topo[q].id), None)
  {
    Delivery.PingCorrelation(topo, steps, a, id);
    q :| && q in topo && topo[q].stealth == r.target && topo[q].id == r.phase.reply.responderId
         && Flights.Reaches(topo, a, r.target, None, q);
    FirstHopExists(topo, a, r.target, q);
    ForwardUsesNextPeer(topo[a], r.target, RequestMessage(topo[a], PingKind, id, r.target, None));
  }

  lemma {:induction false} FirstHopExists(topo: Topology, a: Addr, target: string, q: Addr)
    requires a in topo && Flights.Reaches(topo, a, target, None, q)
    ensures NextPeer(topo[a], target).Some?
  {
    var k: nat :| Flights.ReachesIn(topo, a, target, None, q, k);
    Paths.WalkPrefix(Flights.Hop(topo, target), a, 1, k);
    assert Paths.Walk(Flights.Hop(topo, target), a, 0) == Some(a);
    assert Paths.Walk(Flights.Hop(topo, target), a, 1) == Flights.Hop(topo, target)(a);
  }

  /** Likewise for a list of clients: the answer is the list of the node asked for, as it stood in
      one state while the request was out. */
  lemma {:induction false} ClientsReported(topo: Topology, steps: seq<Step>, a: Addr, id: nat, r: Request)
      returns (t: nat, q: Addr, order: seq<string>)
    requires Requests.UniqueStealths(topo)
    requires a in Run(topo, steps).hosts && id in Run(topo, steps).hosts[a].requests && r == Run(topo, steps).hosts[a].requests[id]
    requires r.kind == ClientsKind && r.phase.Answered?
    ensures t < |steps| && a in topo && q in topo && q in Run(topo, steps[..t]).hosts && topo[q].stealth == r.target
    ensures Enumerates(order, Run(topo, steps[..t]).hosts[q].tables.registered)
    ensures ClientsOutcome(topo[a], ByStealth(r.target), id, Attempt(true, Some(r.phase.reply)))
            == ClientsResult(r.target, ClientList(topo[q], Run(topo, steps[..t]).hosts[q].tables.registered, order))
  {
    t, q, order := Delivery.SnapshotAnswer(topo, steps, a, id);
    Delivery.AnswerOk(topo, steps, a, id);
    FirstHopExists(topo, a, r.target, q);
    ForwardUsesNextPeer(topo[a], r.target, RequestMessage(topo[a], ClientsKind, id, r.target, None));
  }
}
