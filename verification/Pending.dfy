/** The pending-request tables under every interleaving of the admin threads with the UDP
    thread (src/daemon.rs:540-558, 605-615, 726-773, 786-818). */
module PendingTables {
  import opened Wrappers
  import opened Messages
  import opened Node
  import opened World
  import opened Turns

  /** Everything a host knows about one request id. */
  datatype View = View(ping: Option<nat>, clients: Option<nat>, request: Option<Request>, inHand: bool) {
    function Entry(kind: Kind): Option<nat> {
      match kind case PingKind => ping case ClientsKind => clients
    }
  }

  function Get<V>(m: map<nat, V>, k: nat): Option<V> {
    if k in m then Some(m[k]) else None
  }

  function ViewOf(h: Host, k: nat): View {
    View(Get(h.tables.pendingPings, k), Get(h.tables.pendingClients, k), Get(h.requests, k),
         h.hand.Some? && h.hand.value.id == k)
  }

  /** The request holds its channel's receiver and may still have a table entry. */
  predicate Open(r: Request) {
    r.phase == Inserted || r.phase == Waiting || r.phase == SendFailed || r.phase == TimedOut
  }

  /** An entry leads to the channel of one open request of its kind that nothing was sent on. */
  predicate EntryOk(v: View, kind: Kind, k: nat) {
    v.Entry(kind).Some? ==>
      && v.Entry(kind).value == k && !v.inHand
      && v.request.Some? && v.request.value.kind == kind
      && Open(v.request.value) && v.request.value.inbox == []
  }

  /** An open request is pending or has been served, never neither. */
  predicate RequestOk(v: View, k: nat, next: nat) {
    v.request.Some? ==>
      var r := v.request.value;
      && 0 < k < next && |r.inbox| <= 1
      && (r.phase.Allocated? ==> r.inbox == [])
      && (r.phase.Answered? ==> r.inbox == [r.phase.reply])
      && (Open(r) ==> v.Entry(r.kind).Some? || v.inHand || r.inbox != [])
  }

  predicate HandOk(v: View) {
    v.inHand ==>
      && v.request.Some? && v.request.value.inbox == []
      && !v.request.value.phase.Allocated? && !v.request.value.phase.Answered?
  }

  predicate IdOk(h: Host, k: nat) {
    var v := ViewOf(h, k);
    EntryOk(v, PingKind, k) && EntryOk(v, ClientsKind, k) && RequestOk(v, k, h.tables.nextId) && HandOk(v)
  }

  ghost predicate HostOk(h: Host) {
    h.tables.nextId >= 1 && forall k: nat :: IdOk(h, k)
  }

  /** Only id k's view may have changed. */
  ghost predicate OnlyId(h: Host, g: Host, id: nat) {
    h.tables.nextId <= g.tables.nextId && forall k: nat :: k != id ==> ViewOf(g, k) == ViewOf(h, k)
  }

  lemma {:induction false} OnlyIdOk(h: Host, g: Host, id: nat)
    requires HostOk(h) && OnlyId(h, g, id) && IdOk(g, id)
    ensures HostOk(g)
  {
    forall k: nat ensures IdOk(g, k) {
      assert IdOk(h, k);
    }
  }

  lemma {:induction false} AdvanceOk(h: Host, s: Step)
    requires s.Insert? || s.Take? || s.TimeOut? || s.CleanUp?
    requires HostOk(h)
    ensures HostOk(Advance(h, s))
  {
    assert IdOk(h, s.id);
    OnlyIdOk(h, Advance(h, s), s.id);
  }

  lemma {:induction false} FillInboxOk(h: Host)
    requires HostOk(h)
    ensures HostOk(FillInbox(h))
  {
    if h.hand.Some? {
      assert IdOk(h, h.hand.value.id);
      OnlyIdOk(h, FillInbox(h), h.hand.value.id);
    }
  }

  /** What one handled datagram can do to the pending tables: take the entry of one id out and
      hand its channel to the UDP thread, or nothing. */
  lemma {:induction false} ReceivePending(cfg: Config, t: Tables, frame: Frame, order: seq<string>)
      returns (kind: Kind, id: nat)
    requires Enumerates(order, t.registered)
    ensures var e := Receive(cfg, t, frame, order);
            && e.tables.nextId == t.nextId
            && (e.handed.None? ==> e.tables.pendingPings == t.pendingPings && e.tables.pendingClients == t.pendingClients)
            && (e.handed.Some? ==>
                  && id in Pending(t, kind) && e.handed.value.id == Pending(t, kind)[id]
                  && e.tables == WithoutPending(t, kind, id))
  {
    kind, id := PingKind, 0;
    if Receive(cfg, t, frame, order).handed.Some? {
      var msg := OpenFrame(cfg, frame).value;
      kind, id := if msg.PingResp? then PingKind else ClientsKind, msg.requestId;
    }
  }

  /** A wait ends with the value on the channel if there is one, and in a timeout only if there is
      none; what was taken is what was sent. */
  lemma {:induction false} WaitEnds(h: Host, at: Addr, id: nat)
    requires id in h.requests && HostOk(h)
    ensures var r := h.requests[id];
            && (Advance(h, TimeOut(at, id)) != h <==> r.phase == Waiting && r.inbox == [])
            && (Advance(h, Take(at, id)) != h <==> r.phase == Waiting && r.inbox != [])
            && (r.phase == Waiting ==> forall v :: r.inbox == [v] ==> Advance(h, Take(at, id)).requests[id].phase == Answered(v))
  {
    assert IdOk(h, id);
    if h.requests[id].phase == Waiting {
      assert Advance(h, TimeOut(at, id)) != h <==> Advance(h, TimeOut(at, id)).requests[id] != h.requests[id];
      assert Advance(h, Take(at, id)) != h <==> Advance(h, Take(at, id)).requests[id] != h.requests[id];
    }
  }

  lemma {:induction false} TakesOk(topo: Topology, a: Addr, h: Host, g: Host, t: Turn)
    requires HostOk(h) && t.Takes? && Turned(topo, a, h, g, t)
    ensures HostOk(g)
  {
    var kind, id := ReceivePending(topo[a], h.tables, t.f.dg.frame, t.order);
    assert IdOk(h, id);
    OnlyIdOk(h, g, id);
  }

  lemma {:induction false} AllocateOk(h: Host, r: Request)
    requires HostOk(h) && r.phase == Allocated && r.inbox == []
    ensures HostOk(SetRequest(h.(tables := h.tables.(nextId := h.tables.nextId + 1)), h.tables.nextId, r))
    ensures HostOk(h.(tables := h.tables.(nextId := h.tables.nextId + 1)))
  {
    var id := h.tables.nextId;
    assert IdOk(h, id);
    OnlyIdOk(h, SetRequest(h.(tables := h.tables.(nextId := h.tables.nextId + 1)), h.tables.nextId, r), id);
    OnlyIdOk(h, h.(tables := h.tables.(nextId := h.tables.nextId + 1)), id);
  }

  lemma {:induction false} SentOk(h: Host, id: nat, phase: Phase)
    requires HostOk(h) && id in h.requests && h.requests[id].phase == Inserted
    requires phase == Waiting || phase == SendFailed
    ensures HostOk(SetRequest(h, id, h.requests[id].(phase := phase)))
  {
    assert IdOk(h, id);
    OnlyIdOk(h, SetRequest(h, id, h.requests[id].(phase := phase)), id);
  }

  lemma {:induction false} TurnOk(topo: Topology, a: Addr, h: Host, g: Host, t: Turn)
    requires HostOk(h) && Turned(topo, a, h, g, t)
    ensures HostOk(g)
  {
    match t
    case Unchanged =>
    case Allocates(r) => AllocateOk(h, if r.Some? then r.value else Request(PingKind, "", None, Allocated, []));
    case Advances(s) => AdvanceOk(h, s);
    case Marks(id, phase) => SentOk(h, id, phase);
    case Fills => FillInboxOk(h);
    case Takes(_, _) => TakesOk(topo, a, h, g, t);
  }

  ghost predicate AllHostsOk(hosts: map<Addr, Host>) {
    forall a :: a in hosts ==> HostOk(hosts[a])
  }

  lemma {:induction false} ActKeepsHosts(topo: Topology, w: World, s: Step)
    requires AllHostsOk(w.hosts)
    ensures AllHostsOk(Act(topo, w, s).hosts)
  {
    NoNewHosts(topo, w, s);
    forall a | a in Act(topo, w, s).hosts ensures HostOk(Act(topo, w, s).hosts[a]) {
      var t := TurnOf(topo, w, s, a);
      TurnOk(topo, a, w.hosts[a], Act(topo, w, s).hosts[a], t);
    }
  }

  lemma {:induction false} RunKeepsHosts(topo: Topology, steps: seq<Step>)
    ensures AllHostsOk(Run(topo, steps).hosts)
  {
    if steps != [] {
      RunKeepsHosts(topo, steps[..|steps|-1]);
      ActKeepsHosts(topo, Run(topo, steps[..|steps|-1]), steps[|steps|-1]);
    }
  }

  /** In every interleaving: live keys are below the counter, the two tables share no key, each
      key leads to the channel of one unfinished request, no channel ever gets two values, and
      a finished request has left no entry in either table. */
  lemma {:induction false} TablesNeverLeakOrCross(topo: Topology, steps: seq<Step>, at: Addr, k: nat)
    requires at in topo
    ensures at in Run(topo, steps).hosts
    ensures var h := Run(topo, steps).hosts[at];
            && (forall kind :: k in Pending(h.tables, kind) ==>
                  && 0 < k < h.tables.nextId && Pending(h.tables, kind)[k] == k
                  && k in h.requests && h.requests[k].kind == kind
                  && !h.requests[k].phase.Finished() && h.requests[k].inbox == [])
            && !(k in h.tables.pendingPings && k in h.tables.pendingClients)
            && (k in h.requests ==> |h.requests[k].inbox| <= 1)
            && (k in h.requests && h.requests[k].phase.Finished() ==>
                  k !in h.tables.pendingPings && k !in h.tables.pendingClients)
  {
    HostsFixed(topo, steps);
    RunKeepsHosts(topo, steps);
    var h := Run(topo, steps).hosts[at];
    assert IdOk(h, k);
    forall kind | k in Pending(h.tables, kind)
      ensures && 0 < k < h.tables.nextId && Pending(h.tables, kind)[k] == k
              && k in h.requests && h.requests[k].kind == kind
              && !h.requests[k].phase.Finished() && h.requests[k].inbox == []
    {
      assert ViewOf(h, k).Entry(kind).Some?;
      assert EntryOk(ViewOf(h, k), kind, k);
    }
  }
}
