/** Book-keeping over whole runs: nothing is amplified, every cause is accounted for, and every
    chain of datagrams comes to an end within a fixed budget. */
module Accounts {
  import opened Wrappers
  import opened Messages
  import opened Node
  import opened Sums
  import opened World
  import Flights
  import Provenance

  // ---------- weights ----------

  /** How many datagrams a message can still account for, itself included. */
  function Weight(msg: Message): (n: nat)
    ensures n >= 1
  {
    match msg
    case Data(_, _, t, _) => if t == 0 then 1 else t
    case PingReq(_, _, _, t, _) => if t == 0 then 1 else t + 17
    case PublicClientsReq(_, _, _, t) => if t == 0 then 1 else t + 17
    case PingResp(_, _, _, t, _, _) => t + 1
    case PublicClientsResp(_, _, _, t, _, _) => t + 1
    case ClientRegister(_, _, _, _, t) => t + 1
    case BootstrapReq(_, _, _, _, _, _) => 2
    case _ => 1
  }

  lemma {:induction false} EmittedMessage(cfg: Config, t: Tables, sender: string, msg: Message, order: seq<string>)
    requires sender in cfg.peersById && Enumerates(order, t.registered)
    ensures var e := Process(cfg, t, sender, msg, order);
            e.sent.Some? ==> Weight(e.sent.value.frame.sealed.msg) < Weight(msg)
  {
    if msg.Routed() && msg.Ttl() > 0 {
      ForwardUsesNextPeer(cfg, msg.Toward(), msg.Aged());
    }
    match msg
    case ClientRegister(id, src, _, _, _) =>
      ForwardUsesNextPeer(cfg, src, ClientRegisterAck(id, cfg.stealth, src, MAX_TTL, true, "registered"));
    case PingReq(id, src, _, _, _) =>
      ForwardUsesNextPeer(cfg, src, PingResp(id, cfg.stealth, src, MAX_TTL, cfg.id, cfg.stealth));
    case PublicClientsReq(id, src, _, _) =>
      ForwardUsesNextPeer(cfg, src, PublicClientsResp(id, cfg.stealth, src, MAX_TTL, cfg.stealth,
                                                      ClientList(cfg, t.registered, order)));
    case _ =>
  }

  /** A message that is sent on, aged or answered, is strictly lighter than the one received. */
  lemma {:induction false} ForwardedIsLighter(cfg: Config, t: Tables, frame: Frame, order: seq<string>)
    requires Enumerates(order, t.registered)
    ensures Receive(cfg, t, frame, order).sent.Some? ==>
              Weight(Receive(cfg, t, frame, order).sent.value.frame.sealed.msg) < Weight(frame.sealed.msg)
  {
    if OpenFrame(cfg, frame).Success? {
      EmittedMessage(cfg, t, frame.senderId, frame.sealed.msg, order);
    }
  }

  // ---------- what a step does to the wire ----------

  /** Nothing; a new cause with its first datagram; datagram i replaced by a lighter one of the
      same cause; datagram i ended; datagram i duplicated. */
  datatype Change = Idle | Started | PassedOn(i: nat) | TakenOff(i: nat, fate: Fate) | Copied(i: nat)

  function Newest(v: World): Flight
    requires v.net != []
  {
    v.net[|v.net| - 1]
  }

  ghost predicate Changes(w: World, v: World, c: Change) {
    match c
    case Idle => v.net == w.net && v.ends == w.ends && v.dups == w.dups && v.causes == w.causes && v.emitted == w.emitted
    case Started =>
      && v.net != [] && v.net == w.net + [Newest(v)] && Newest(v).cause == |w.causes|
      && |v.causes| == |w.causes| + 1 && v.causes[..|w.causes|] == w.causes
      && v.emitted == w.emitted + [|w.causes|] && v.ends == w.ends && v.dups == w.dups
    case PassedOn(i) =>
      && i < |w.net| && v.net != [] && v.net == Without(w.net, i) + [Newest(v)]
      && Newest(v).cause == w.net[i].cause && Weight(Newest(v).Msg()) < Weight(w.net[i].Msg())
      && v.emitted == w.emitted + [w.net[i].cause] && v.ends == w.ends && v.dups == w.dups && v.causes == w.causes
    case TakenOff(i, fate) =>
      && i < |w.net| && v.net == Without(w.net, i) && v.ends == w.ends + [End(w.net[i].cause, fate)]
      && v.dups == w.dups && v.causes == w.causes && v.emitted == w.emitted
    case Copied(i) =>
      && i < |w.net| && v.net == w.net + [w.net[i]] && v.dups == w.dups + [w.net[i]]
      && v.ends == w.ends && v.causes == w.causes && v.emitted == w.emitted
  }

  /** Steps that put nothing new on the wire. */
  predicate Calm(s: Step) {
    s.Deliver? || s.Lose? || s.HandOver? || s.Ask? || s.Insert? || s.Take? || s.TimeOut? || s.CleanUp?
  }

  /** Whether a step takes a datagram off the wire. */
  predicate Moves(topo: Topology, w: World, s: Step) {
    || (s.Lose? && s.i < |w.net|)
    || (s.Deliver? && s.i < |w.net| && (w.net[s.i].dg.to !in topo || CanReceive(topo, w, s.i, s.order)))
  }

  lemma {:induction false} ReceivedChange(topo: Topology, w: World, i: nat, order: seq<string>) returns (c: Change)
    requires i < |w.net| && CanReceive(topo, w, i, order)
    ensures Changes(w, Received(topo, w, i, order), c) && (c.PassedOn? || c.TakenOff?)
  {
    var f := w.net[i];
    var cfg, t := topo[f.dg.to], w.hosts[f.dg.to].tables;
    var e := Receive(cfg, t, f.dg.frame, order);
    ForwardedIsLighter(cfg, t, f.dg.frame, order);
    c := if e.sent.Some? then PassedOn(i) else TakenOff(i, FateOf(cfg, f, e));
  }

  lemma {:induction false} OriginChange(topo: Topology, w: World, s: Step) returns (c: Change)
    requires !s.Deliver? && !s.Lose? && !s.Duplicate?
    ensures Changes(w, Act(topo, w, s), c) && (c.Idle? || (c.Started? && !Calm(s)))
  {
    c := if |Act(topo, w, s).net| > |w.net| then Started else Idle;
  }

  lemma {:induction false} WireChange(topo: Topology, w: World, s: Step) returns (c: Change)
    ensures Changes(w, Act(topo, w, s), c)
    ensures c.PassedOn? || c.TakenOff? <==> Moves(topo, w, s)
    ensures Calm(s) ==> c.Idle? || c.PassedOn? || c.TakenOff?
  {
    if s.Deliver? {
      if s.i >= |w.net| { c := Idle; }
      else if w.net[s.i].dg.to !in topo { c := TakenOff(s.i, Discarded); }
      else if CanReceive(topo, w, s.i, s.order) { c := ReceivedChange(topo, w, s.i, s.order); }
      else { c := Idle; }
    } else if s.Lose? {
      c := if s.i < |w.net| then TakenOff(s.i, Lost) else Idle;
    } else if s.Duplicate? {
      c := if s.i < |w.net| then Copied(s.i) else Idle;
    } else {
      c := OriginChange(topo, w, s);
    }
  }

  /** In every run the number of datagrams in flight and ended is the number of causes and
      duplicates: what the daemons receive they replace, one by at most one, so only injections
      and the network itself add to the traffic. */
  lemma {:induction false} NoAmplification(topo: Topology, steps: seq<Step>)
    ensures var w := Run(topo, steps); |w.net| + |w.ends| == |w.causes| + |w.dups|
  {
    if steps != [] {
      var n := |steps| - 1;
      NoAmplification(topo, steps[..n]);
      var c := WireChange(topo, Run(topo, steps[..n]), steps[n]);
    }
  }

  // ---------- conservation ----------

  function OfCause(j: nat): Flight -> nat {
    (f: Flight) => if f.cause == j then 1 else 0
  }

  function EndsOf(j: nat): End -> nat {
    (e: End) => if e.cause == j then 1 else 0
  }

  function WritesOf(j: nat): End -> nat {
    (e: End) => if e.cause == j && e.fate.Written? then 1 else 0
  }

  /** Datagrams of cause j in flight and ended, against one injection plus the duplicates. */
  ghost predicate Balanced(w: World, j: nat) {
    Sum(w.net, OfCause(j)) + Sum(w.ends, EndsOf(j))
    == Sum(w.dups, OfCause(j)) + if j < |w.causes| then 1 else 0
  }

  lemma {:induction false} ChangeBalanced(w: World, v: World, c: Change, j: nat)
    requires Balanced(w, j) && Changes(w, v, c)
    ensures Balanced(v, j)
  {
    match c
    case Idle =>
    case Started => SumSnoc(w.net, Newest(v), OfCause(j));
    case PassedOn(i) =>
      SumWithout(w.net, i, OfCause(j));
      SumSnoc(Without(w.net, i), Newest(v), OfCause(j));
    case TakenOff(i, fate) =>
      SumWithout(w.net, i, OfCause(j));
      SumSnoc(w.ends, End(w.net[i].cause, fate), EndsOf(j));
    case Copied(i) =>
      SumSnoc(w.net, w.net[i], OfCause(j));
      SumSnoc(w.dups, w.net[i], OfCause(j));
  }

  lemma {:induction false} RunBalanced(topo: Topology, steps: seq<Step>, j: nat)
    ensures Balanced(Run(topo, steps), j)
  {
    if steps != [] {
      var n := |steps| - 1;
      RunBalanced(topo, steps[..n], j);
      var c := WireChange(topo, Run(topo, steps[..n]), steps[n]);
      ChangeBalanced(Run(topo, steps[..n]), Act(topo, Run(topo, steps[..n]), steps[n]), c, j);
    }
  }

  /** Whatever the interleaving, each accepted injection is in flight, written to a TUN, or
      dropped or lost, once; duplicates made by the network are the only source of more. In
      particular an injection that is never duplicated is written at most once. */
  lemma {:induction false} Conservation(topo: Topology, steps: seq<Step>, j: nat)
    requires j < |Run(topo, steps).causes|
    ensures var w := Run(topo, steps);
            && Sum(w.net, OfCause(j)) + Sum(w.ends, EndsOf(j)) == 1 + Sum(w.dups, OfCause(j))
            && (Sum(w.dups, OfCause(j)) == 0 ==> Sum(w.ends, WritesOf(j)) <= 1)
  {
    RunBalanced(topo, steps, j);
    SumUpTo(Run(topo, steps).ends, WritesOf(j), EndsOf(j));
  }

  // ---------- termination ----------

  function Heft(): Flight -> nat {
    (f: Flight) => Weight(f.Msg())
  }

  lemma {:induction false} CalmChange(w: World, v: World, c: Change)
    requires Changes(w, v, c) && !c.Started? && !c.Copied?
    ensures Sum(v.net, Heft()) + (if c.Idle? then 0 else 1) <= Sum(w.net, Heft())
  {
    if !c.Idle? {
      SumWithout(w.net, c.i, Heft());
      if c.PassedOn? {
        SumSnoc(Without(w.net, c.i), Newest(v), Heft());
      }
    }
  }

  /** The steps of a schedule that take a datagram off the wire. */
  function MovesIn(topo: Topology, w: World, steps: seq<Step>): nat {
    if steps == [] then 0
    else
      var n := |steps| - 1;
      MovesIn(topo, w, steps[..n]) + if Moves(topo, Continue(topo, w, steps[..n]), steps[n]) then 1 else 0
  }

  /** Left alone the network falls silent: from any state, however the remaining deliveries,
      losses and admin steps interleave, no more datagrams are taken off the wire than the
      weight of what is on it. */
  lemma {:induction false} Termination(topo: Topology, w: World, steps: seq<Step>)
    requires forall s :: s in steps ==> Calm(s)
    ensures MovesIn(topo, w, steps) + Sum(Continue(topo, w, steps).net, Heft()) <= Sum(w.net, Heft())
  {
    if steps != [] {
      var n := |steps| - 1;
      forall s | s in steps[..n] ensures Calm(s) {
        assert s in steps;
      }
      Termination(topo, w, steps[..n]);
      assert steps[n] in steps;
      var before := Continue(topo, w, steps[..n]);
      var c := WireChange(topo, before, steps[n]);
      CalmChange(before, Act(topo, before, steps[n]), c);
    }
  }

  // ---------- the budget of one cause ----------

  /** The most that the first datagram of a cause weighs. */
  function Budget(cause: Cause): nat {
    match cause
    case DataFrom(_, _, _) => 16
    case RequestFrom(_, _, _, _) => 33
    case RegisterFrom(_, _) => 17
    case ControlFrom(_) => 2
  }

  function Same(j: nat): nat -> nat {
    k => if k == j then 1 else 0
  }

  /** What a datagram of cause j can still cause beyond itself. */
  function Further(j: nat): Flight -> nat {
    (f: Flight) => if f.cause == j then Weight(f.Msg()) - 1 else 0
  }

  ghost predicate WithinBudget(w: World, j: nat) {
    Sum(w.emitted, Same(j)) + Sum(w.net, Further(j))
    <= Sum(w.dups, Further(j)) + if j < |w.causes| then Budget(w.causes[j]) else 0
  }

  lemma {:induction false} FlightWithinBudget(topo: Topology, causes: seq<Cause>, handled: set<(Addr, nat, string)>, f: Flight)
    requires Flights.FlightOk(topo, causes, handled, f)
    ensures Weight(f.Msg()) <= Budget(causes[f.cause])
  {
  }

  lemma {:induction false} PassedWithinBudget(w: World, v: World, i: nat, j: nat)
    requires WithinBudget(w, j) && Changes(w, v, PassedOn(i))
    ensures WithinBudget(v, j)
  {
    SumWithout(w.net, i, Further(j));
    SumSnoc(Without(w.net, i), Newest(v), Further(j));
    SumSnoc<nat>(w.emitted, w.net[i].cause, Same(j));
  }

  lemma {:induction false} ChangeWithinBudget(topo: Topology, w: World, v: World, c: Change, j: nat)
    requires WithinBudget(w, j) && Changes(w, v, c)
    requires c.Started? ==> Weight(Newest(v).Msg()) <= Budget(v.causes[|w.causes|])
    ensures WithinBudget(v, j)
  {
    match c
    case Idle =>
    case Started =>
      SumSnoc(w.net, Newest(v), Further(j));
      SumSnoc<nat>(w.emitted, |w.causes|, Same(j));
      if j < |w.causes| { assert v.causes[j] == w.causes[j]; }
    case PassedOn(i) => PassedWithinBudget(w, v, i, j);
    case TakenOff(i, fate) =>
      SumWithout(w.net, i, Further(j));
    case Copied(i) =>
      SumSnoc(w.net, w.net[i], Further(j));
      SumSnoc(w.dups, w.net[i], Further(j));
  }

  lemma {:induction false} RunWithinBudget(topo: Topology, steps: seq<Step>, j: nat)
    ensures WithinBudget(Run(topo, steps), j)
  {
    if steps != [] {
      var n := |steps| - 1;
      var w := Run(topo, steps[..n]);
      var v := Act(topo, w, steps[n]);
      RunWithinBudget(topo, steps[..n], j);
      Provenance.RunKeepsFlights(topo, steps[..n]);
      Provenance.ActKeepsFlights(topo, w, steps[n]);
      var c := WireChange(topo, w, steps[n]);
      if c.Started? {
        FlightWithinBudget(topo, v.causes, v.handled, Newest(v));
      }
      ChangeWithinBudget(topo, w, v, c, j);
    }
  }

  /** In any run one injected packet makes the daemons send at most 16 datagrams, one ping or
      clients query at most 33, one registration at most 17, one keepalive or bootstrap request
      at most 2; only duplication by the network adds to that, each copy at most its weight
      less one. */
  lemma {:induction false} CostOfOneCause(topo: Topology, steps: seq<Step>, j: nat)
    requires j < |Run(topo, steps).causes|
    ensures var w := Run(topo, steps);
            && Sum(w.emitted, Same(j)) <= Budget(w.causes[j]) + Sum(w.dups, Further(j))
            && Budget(w.causes[j]) == match w.causes[j]
                                      case DataFrom(_, _, _) => 16
                                      case RequestFrom(_, _, _, _) => 33
                                      case RegisterFrom(_, _) => 17
                                      case ControlFrom(_) => 2
  {
    RunWithinBudget(topo, steps, j);
  }
}
