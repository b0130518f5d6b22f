/** The whole network as a step system. A run is any sequence of steps; a step that is not
    possible where it is taken changes nothing, so every sequence is a run. The steps are the
    lock regions, atomic operations and socket calls of the daemon; Register and Deliver take two
    of them together where nothing another thread does depends on the state in between. */
module World {
  import opened Wrappers
  import opened Ip
  import opened Messages
  import opened Node
  import opened Sums

  /** Who listens where. */
  type Topology = map<Addr, Config>

  // ---------- admin requests ----------

  /** Where the thread of one request stands. */
  datatype Phase =
    | Allocated                 // id and channel exist
    | Inserted                  // the sending half is in the pending table
    | Waiting                   // the request went out; recv_timeout
    | SendFailed | TimedOut     // about to remove the pending entry
    | Answered(reply: Reply) | Failed
  {
    predicate Finished() { Answered? || Failed? }
  }

  /** One request and everything ever sent on its channel while its receiver existed. */
  datatype Request = Request(kind: Kind, target: string, ip: Option<IpAddr>, phase: Phase, inbox: seq<Reply>)

  /** A node at run time. hand is the reply the UDP thread holds between removing a pending
      entry and sending on its channel; accepted is the history of accepted registrations. */
  datatype Host = Host(tables: Tables, requests: map<nat, Request>, hand: Option<Handed>,
                       accepted: seq<(string, ClientEntry)>)

  const FRESH_HOST := Host(FRESH_TABLES, map[], None, [])

  // ---------- the network ----------

  /** What set a chain of datagrams off. */
  datatype Cause =
    | DataFrom(origin: Addr, packet: seq<Byte>, dst: string)
    | RequestFrom(origin: Addr, id: nat, kind: Kind, target: string)
    | RegisterFrom(origin: Addr, id: nat)
    | ControlFrom(origin: Addr)

  /** A datagram on the wire. History: its cause, the node that put this message on its way,
      and how often the message has been relayed since. */
  datatype Flight = Flight(dg: Datagram, cause: nat, start: Addr, hops: nat) {
    function Msg(): Message { dg.frame.sealed.msg }
  }

  /** How a datagram ends when nothing is sent on in its place. */
  datatype Fate = Written(at: Addr, packet: seq<Byte>) | Replied(at: Addr) | Acknowledged(at: Addr) | Lost | Discarded

  datatype End = End(cause: nat, fate: Fate)

  /** net is an unordered bag written as a sequence: a step may pick any position. The fields
      from causes on are history that no step reads. */
  datatype World = World(hosts: map<Addr, Host>, net: seq<Flight>,
                         causes: seq<Cause>, emitted: seq<nat>, ends: seq<End>, dups: seq<Flight>,
                         handled: set<(Addr, nat, string)>, past: seq<map<Addr, Host>>)

  function Start(topo: Topology): World {
    World(map a | a in topo :: FRESH_HOST, [], [], [], [], [], {}, [])
  }

  datatype Step =
    | Inject(at: Addr, packet: seq<Byte>)                     // a packet read from the TUN
    | Register(at: Addr)                                      // the client registration loop
    | Control(at: Addr, peerId: string, msg: Message)         // keepalives and bootstrap requests
    | Ask(at: Addr, kind: Kind, who: Target)                  // resolve the target, fetch_add the id
    | Insert(at: Addr, id: nat)                               // lock the pending table, insert
    | Send(at: Addr, id: nat, socketOk: bool)                 // forward_by_stealth
    | Take(at: Addr, id: nat)                                 // recv_timeout returns a value
    | TimeOut(at: Addr, id: nat)                              // recv_timeout gives up
    | CleanUp(at: Addr, id: nat)                              // lock the pending table, remove
    | Deliver(i: nat, order: seq<string>)                     // the UDP thread handles a datagram
    | HandOver(at: Addr)                                      // the UDP thread sends on the channel
    | Lose(i: nat)
    | Duplicate(i: nat)

  // ---------- steps ----------

  function Originate(w: World, origin: Addr, cause: Cause, dg: Datagram): World {
    w.(net := w.net + [Flight(dg, |w.causes|, origin, 0)],
       causes := w.causes + [cause],
       emitted := w.emitted + [|w.causes|])
  }

  function SetHost(w: World, at: Addr, h: Host): World {
    w.(hosts := w.hosts[at := h])
  }

  function SetRequest(h: Host, id: nat, r: Request): Host {
    h.(requests := h.requests[id := r])
  }

  /** What the thread of request id does next, apart from sending. */
  function Advance(h: Host, s: Step): Host
    requires s.Insert? || s.Take? || s.TimeOut? || s.CleanUp?
  {
    if s.id !in h.requests then h
    else
      var r := h.requests[s.id];
      match s
      case Insert(_, id) =>
        if r.phase != Allocated then h
        else SetRequest(h.(tables := WithPending(h.tables, r.kind, id)), id, r.(phase := Inserted))
      case Take(_, id) =>
        if r.phase != Waiting || r.inbox == [] then h
        else SetRequest(h, id, r.(phase := Answered(r.inbox[0])))
      case TimeOut(_, id) =>
        if r.phase != Waiting || r.inbox != [] then h
        else SetRequest(h, id, r.(phase := TimedOut))
      case CleanUp(_, id) =>
        if r.phase != SendFailed && r.phase != TimedOut then h
        else SetRequest(h.(tables := WithoutPending(h.tables, r.kind, id)), id, r.(phase := Failed))
  }

  /** The send on the channel; it is lost when the receiver is gone. */
  function FillInbox(h: Host): Host {
    match h.hand
    case None => h
    case Some(Handed(id, reply)) =>
      var freed := h.(hand := None);
      if id in h.requests && !h.requests[id].phase.Finished() then
        SetRequest(freed, id, h.requests[id].(inbox := h.requests[id].inbox + [reply]))
      else freed
  }

  /** The registrations a datagram adds to the history of its receiver. */
  function Accepted(cfg: Config, frame: Frame): seq<(string, ClientEntry)> {
    match OpenFrame(cfg, frame)
    case Success(ClientRegister(_, _, target, client, ttl)) =>
      if ttl > 0 && target == cfg.stealth then [(client.clientStealth, client)] else []
    case _ => []
  }

  /** A relayed message keeps its start; an answer starts at the node that gives it. */
  predicate Relays(cfg: Config, msg: Message) {
    msg.Routed() && !EndsAt(cfg, msg.Toward(), InnerDestination(msg))
  }

  function NextFlight(cfg: Config, f: Flight, dg: Datagram): Flight {
    if Relays(cfg, f.Msg()) then Flight(dg, f.cause, f.start, f.hops + 1) else Flight(dg, f.cause, f.dg.to, 0)
  }

  function FateOf(cfg: Config, f: Flight, e: Effect): Fate {
    if e.tun.Some? then Written(f.dg.to, e.tun.value)
    else if e.outcome.Success? && (f.Msg().PingResp? || f.Msg().PublicClientsResp?)
            && f.Msg().ttl > 0 && f.Msg().dstStealth == cfg.stealth then Replied(f.dg.to)
    else if e.outcome.Success? && f.Msg().ClientRegisterAck? then Acknowledged(f.dg.to)
    else Discarded
  }

  predicate AnswersPing(cfg: Config, f: Flight) {
    OpenFrame(cfg, f.dg.frame) == Success(f.Msg()) && f.Msg().PingReq? && f.Msg().ttl > 0
    && f.Msg().targetStealth == cfg.stealth
  }

  /** The UDP thread can take datagram i, iterating its table in the given order. */
  predicate CanReceive(topo: Topology, w: World, i: nat, order: seq<string>)
    requires i < |w.net|
  {
    var to := w.net[i].dg.to;
    to in topo && to in w.hosts && w.hosts[to].hand.None? && Enumerates(order, w.hosts[to].tables.registered)
  }

  function Received(topo: Topology, w: World, i: nat, order: seq<string>): World
    requires i < |w.net| && CanReceive(topo, w, i, order)
  {
    var f, rest := w.net[i], Without(w.net, i);
    var cfg, h := topo[f.dg.to], w.hosts[f.dg.to];
    var e := Receive(cfg, h.tables, f.dg.frame, order);
    var v := SetHost(w, f.dg.to, h.(tables := e.tables, hand := e.handed, accepted := h.accepted + Accepted(cfg, f.dg.frame)))
             .(handled := w.handled + if AnswersPing(cfg, f) then {(f.dg.to, f.Msg().requestId, f.Msg().srcStealth)} else {});
    match e.sent
    case Some(dg) => v.(net := rest + [NextFlight(cfg, f, dg)], emitted := w.emitted + [f.cause])
    case None => v.(net := rest, ends := w.ends + [End(f.cause, FateOf(cfg, f, e))])
  }

  /** One step, without the bookkeeping of the past. */
  function Act(topo: Topology, w: World, s: Step): World {
    match s
    case Inject(at, packet) =>
      if at !in topo || !topo[at].hasTun then w
      else
        (match HandleLocalPacket(topo[at], packet)
         case Success(Some(dg)) => Originate(w, at, DataFrom(at, packet, dg.frame.sealed.msg.dstStealth), dg)
         case _ => w)
    case Register(at) =>
      if at !in topo || at !in w.hosts || topo[at].role != Client || HomePeer(topo[at]).Failure? then w
      else
        var h, id := w.hosts[at], w.hosts[at].tables.nextId;
        Originate(SetHost(w, at, h.(tables := h.tables.(nextId := id + 1))), at, RegisterFrom(at, id),
                  SendDirect(topo[at], HomePeer(topo[at]).value, Registration(topo[at], id)))
    case Control(at, peerId, msg) =>
      if at !in topo || !(msg == Keepalive(4) || msg.BootstrapReq?) then w
      else
        (match SendToPeer(topo[at], peerId, msg)
         case Success(dg) => Originate(w, at, ControlFrom(at), dg)
         case Failure(_) => w)
    case Ask(at, kind, who) =>
      if at !in topo || at !in w.hosts then w
      else
        (match ResolveTarget(topo[at], who)
         case Failure(_) => w
         case Success(target) =>
           var h, id := w.hosts[at], w.hosts[at].tables.nextId;
           var r := Request(kind, target, if who.ByIp? then Some(who.ip) else None, Allocated, []);
           SetHost(w, at, SetRequest(h.(tables := h.tables.(nextId := id + 1)), id, r)))
    case Send(at, id, socketOk) =>
      if at !in topo || at !in w.hosts || id !in w.hosts[at].requests || w.hosts[at].requests[id].phase != Inserted then w
      else
        var h, r := w.hosts[at], w.hosts[at].requests[id];
        var sending := ForwardByStealth(topo[at], r.target, RequestMessage(topo[at], r.kind, id, r.target, r.ip));
        if socketOk && sending.Success? then
          Originate(SetHost(w, at, SetRequest(h, id, r.(phase := Waiting))), at, RequestFrom(at, id, r.kind, r.target),
                    sending.value)
        else SetHost(w, at, SetRequest(h, id, r.(phase := SendFailed)))
    case Insert(at, _) => if at in w.hosts then SetHost(w, at, Advance(w.hosts[at], s)) else w
    case Take(at, _) => if at in w.hosts then SetHost(w, at, Advance(w.hosts[at], s)) else w
    case TimeOut(at, _) => if at in w.hosts then SetHost(w, at, Advance(w.hosts[at], s)) else w
    case CleanUp(at, _) => if at in w.hosts then SetHost(w, at, Advance(w.hosts[at], s)) else w
    case HandOver(at) => if at in w.hosts then SetHost(w, at, FillInbox(w.hosts[at])) else w
    case Deliver(i, order) =>
      if i >= |w.net| then w
      else if w.net[i].dg.to !in topo then
        w.(net := Without(w.net, i), ends := w.ends + [End(w.net[i].cause, Discarded)])
      else if CanReceive(topo, w, i, order) then Received(topo, w, i, order)
      else w
    case Lose(i) =>
      if i >= |w.net| then w else w.(net := Without(w.net, i), ends := w.ends + [End(w.net[i].cause, Lost)])
    case Duplicate(i) =>
      if i >= |w.net| then w else w.(net := w.net + [w.net[i]], dups := w.dups + [w.net[i]])
  }

  function Next(topo: Topology, w: World, s: Step): World {
    Act(topo, w, s).(past := w.past + [w.hosts])
  }

  function Continue(topo: Topology, w: World, steps: seq<Step>): World {
    if steps == [] then w else Next(topo, Continue(topo, w, steps[..|steps|-1]), steps[|steps|-1])
  }

  function Run(topo: Topology, steps: seq<Step>): World {
    Continue(topo, Start(topo), steps)
  }

  // ---------- what holds of every run by construction ----------

  ghost predicate Reachable(topo: Topology, w: World) {
    exists steps :: w == Run(topo, steps)
  }

  lemma {:induction false} StartReachable(topo: Topology)
    ensures Reachable(topo, Start(topo))
  {
    assert Start(topo) == Run(topo, []);
  }

  lemma {:induction false} NextReachable(topo: Topology, w: World, s: Step)
    requires Reachable(topo, w)
    ensures Reachable(topo, Next(topo, w, s))
  {
    var steps :| w == Run(topo, steps);
    assert (steps + [s])[..|steps|] == steps;
    assert Next(topo, w, s) == Run(topo, steps + [s]);
  }

  /** A step brings no host into being that was not there. */
  lemma {:induction false} NoNewHosts(topo: Topology, w: World, s: Step)
    ensures Act(topo, w, s).hosts.Keys == w.hosts.Keys
  {
  }

  lemma {:induction false} HostsFixed(topo: Topology, steps: seq<Step>)
    ensures Run(topo, steps).hosts.Keys == topo.Keys
  {
    if steps != [] {
      HostsFixed(topo, steps[..|steps|-1]);
      NoNewHosts(topo, Run(topo, steps[..|steps|-1]), steps[|steps|-1]);
    }
  }

  /** past records the hosts before each step: they are those of the run's prefixes. */
  lemma {:induction false} PastIsPrefix(topo: Topology, steps: seq<Step>, t: nat)
    requires t < |steps|
    ensures |Run(topo, steps).past| == |steps|
    ensures Run(topo, steps).past[t] == Run(topo, steps[..t]).hosts
  {
    var n := |steps| - 1;
    var before := Run(topo, steps[..n]);
    assert |before.past| == n by {
      if n > 0 {
        PastIsPrefix(topo, steps[..n], 0);
      } else {
        assert steps[..n] == [];
      }
    }
    assert Run(topo, steps).past == before.past + [before.hosts];
    if t < n {
      PastIsPrefix(topo, steps[..n], t);
      assert steps[..n][..t] == steps[..t];
    }
  }
}
