/** The daemon's methods as runs of steps: what the class does in one go, or waits for in the
    middle, is what the steps of the network do one by one. */
module Steps {
  import opened Wrappers
  import opened Node
  import opened World
  import opened Daemon
  import opened Decisions
  import opened PendingTables

  /** A registration is one step: a client with a known home gateway takes the next id and sends
      its registration there under it, as SendClientRegister does; nobody else does anything. */
  lemma {:induction false} RegisterStep(topo: Topology, w: World, a: Addr)
    requires a in topo && a in w.hosts
    ensures var v, t := Act(topo, w, Register(a)), w.hosts[a].tables;
            if topo[a].role == Client && HomePeer(topo[a]).Success? then
              && v.hosts == w.hosts[a := w.hosts[a].(tables := t.(nextId := t.nextId + 1))]
              && v.net == w.net + [Flight(SendDirect(topo[a], HomePeer(topo[a]).value, Registration(topo[a], t.nextId)), |w.causes|, a, 0)]
              && v.causes == w.causes + [RegisterFrom(a, t.nextId)]
            else v == w
  {
  }

  // ---------- one attempt of an admin request, step by step ----------

  /** The request a target gives rise to. */
  function Asked(cfg: Config, kind: Kind, who: Target): Request
    requires ResolveTarget(cfg, who).Success?
  {
    Request(kind, ResolveTarget(cfg, who).value, if who.ByIp? then Some(who.ip) else None, Allocated, [])
  }

  /** Asking takes the next id and makes the channel. */
  lemma {:induction false} AskStep(topo: Topology, w: World, v: World, a: Addr, kind: Kind, who: Target)
    requires a in topo && a in w.hosts && ResolveTarget(topo[a], who).Success? && v == Act(topo, w, Ask(a, kind, who))
    ensures var h, id := w.hosts[a], w.hosts[a].tables.nextId;
            && v.net == w.net && a in v.hosts
            && v.hosts[a] == h.(tables := h.tables.(nextId := id + 1), requests := h.requests[id := Asked(topo[a], kind, who)])
  {
  }

  /** Then the entry is in the table. */
  lemma {:induction false} InsertStep(topo: Topology, w: World, v: World, a: Addr, id: nat)
    requires a in w.hosts && id in w.hosts[a].requests && w.hosts[a].requests[id].phase == Allocated && v == Act(topo, w, Insert(a, id))
    ensures var h, r := w.hosts[a], w.hosts[a].requests[id];
            && v.net == w.net && a in v.hosts
            && v.hosts[a] == h.(tables := WithPending(h.tables, r.kind, id), requests := h.requests[id := r.(phase := Inserted)])
  {
  }

  /** Then the request is on the wire, as PingOnce and Clients send it, and waits; or, if they send
      nothing, it is about to clean up. */
  lemma {:induction false} SendStep(topo: Topology, w: World, v: World, a: Addr, id: nat, who: Target, socketOk: bool)
    requires a in topo && a in w.hosts && id in w.hosts[a].requests && ResolveTarget(topo[a], who).Success?
    requires w.hosts[a].requests[id] == Asked(topo[a], w.hosts[a].requests[id].kind, who).(phase := Inserted)
    requires v == Act(topo, w, Send(a, id, socketOk))
    ensures var h, r, attempt := w.hosts[a], w.hosts[a].requests[id], Attempt(socketOk, None);
            var sent := if r.kind == PingKind then PingSent(topo[a], who, id, attempt) else ClientsSent(topo[a], who, id, attempt);
            && a in v.hosts
            && v.net == w.net + (if sent.Some? then [Flight(sent.value, |w.causes|, a, 0)] else [])
            && v.hosts[a] == h.(requests := h.requests[id := r.(phase := if sent.Some? then Waiting else SendFailed)])
  {
  }

  /** A request that has nothing on its channel and is waiting, or could not be sent, ends in two
      steps without a trace in the tables. */
  lemma {:induction false} AttemptGivesUp(topo: Topology, w: World, a: Addr, id: nat)
    requires a in w.hosts && id in w.hosts[a].requests && w.hosts[a].requests[id].inbox == []
    requires w.hosts[a].requests[id].phase == Waiting || w.hosts[a].requests[id].phase == SendFailed
    ensures var r := w.hosts[a].requests[id];
            var v := Act(topo, Act(topo, w, TimeOut(a, id)), CleanUp(a, id));
            && v.hosts[a].tables == WithoutPending(w.hosts[a].tables, r.kind, id)
            && v.hosts[a].requests == w.hosts[a].requests[id := r.(phase := Failed)]
            && v.net == w.net
  {
    var waited := Act(topo, w, TimeOut(a, id));
    assert waited.hosts[a].requests[id].phase == Phase.TimedOut || waited.hosts[a].requests[id].phase == SendFailed;
  }

  /** Inserting an entry under a fresh id and removing it again leaves the tables as they were. */
  lemma {:induction false} EntryUndone(h: Host, kind: Kind, id: nat)
    requires HostOk(h) && id == h.tables.nextId
    ensures var t := h.tables.(nextId := id + 1); WithoutPending(WithPending(t, kind, id), kind, id) == t
  {
    assert IdOk(h, id);
    assert ViewOf(h, id).Entry(PingKind).None? && ViewOf(h, id).Entry(ClientsKind).None?;
    match kind
    case PingKind => assert h.tables.pendingPings[id := id] - {id} == h.tables.pendingPings;
    case ClientsKind => assert h.tables.pendingClients[id := id] - {id} == h.tables.pendingClients;
  }

  /** A reply in the UDP thread's hand for a waiting request is what the request is answered with,
      in two steps; the table is left alone. */
  lemma {:induction false} AttemptAnswered(topo: Topology, w: World, a: Addr, id: nat, reply: Reply)
    requires a in w.hosts && id in w.hosts[a].requests && w.hosts[a].requests[id].inbox == []
    requires w.hosts[a].requests[id].phase == Waiting && w.hosts[a].hand == Some(Handed(id, reply))
    ensures var r := w.hosts[a].requests[id];
            var v := Act(topo, Act(topo, w, HandOver(a)), Take(a, id));
            && v.hosts[a].tables == w.hosts[a].tables && v.hosts[a].hand == None && v.net == w.net
            && v.hosts[a].requests == w.hosts[a].requests[id := r.(phase := Answered(reply), inbox := [reply])]
  {
    var handed := Act(topo, w, HandOver(a));
    assert handed.hosts[a].requests[id] == w.hosts[a].requests[id].(inbox := [reply]);
  }

  /** A reply for a request that has ended is thrown away: its receiver is gone. */
  lemma {:induction false} LateReplyDropped(topo: Topology, w: World, a: Addr)
    requires a in w.hosts && w.hosts[a].hand.Some?
    requires w.hosts[a].hand.value.id in w.hosts[a].requests ==> w.hosts[a].requests[w.hosts[a].hand.value.id].phase.Finished()
    ensures Act(topo, w, HandOver(a)) == SetHost(w, a, w.hosts[a].(hand := None))
  {
  }

  /** Put together: before the datagram goes out the tables are those that PingOnce and Clients
      have as atSend, and after an attempt that is not answered they are what they were but for
      the id used. */
  lemma {:induction false} AttemptLeavesNothing(topo: Topology, w: World, asked: World, ready: World, out: World,
                                                a: Addr, kind: Kind, who: Target, socketOk: bool)
    requires a in topo && a in w.hosts && HostOk(w.hosts[a]) && ResolveTarget(topo[a], who).Success?
    requires asked == Act(topo, w, Ask(a, kind, who)) && ready == Act(topo, asked, Insert(a, w.hosts[a].tables.nextId))
    requires out == Act(topo, ready, Send(a, w.hosts[a].tables.nextId, socketOk))
    ensures var t, id := w.hosts[a].tables, w.hosts[a].tables.nextId;
            var over := Act(topo, Act(topo, out, TimeOut(a, id)), CleanUp(a, id));
            && a in ready.hosts && ready.hosts[a].tables == WithPending(t.(nextId := id + 1), kind, id)
            && a in over.hosts && over.hosts[a].tables == t.(nextId := id + 1)
            && id in over.hosts[a].requests && over.hosts[a].requests[id].phase == Failed
  {
    var h, id := w.hosts[a], w.hosts[a].tables.nextId;
    AskStep(topo, w, asked, a, kind, who);
    InsertStep(topo, asked, ready, a, id);
    SendStep(topo, ready, out, a, id, who, socketOk);
    AttemptGivesUp(topo, out, a, id);
    EntryUndone(h, kind, id);
  }
}
