# StealthNet: a verified model of the overlay

StealthNet carries IP packets between private subnets over an overlay of UDP links. Each node
runs a daemon that reads packets from a TUN, picks a destination *stealth* by longest prefix,
sends DATA to the next hop, relays what is not for it, answers pings and client-list queries,
and keeps a table of registered clients. This project models that daemon and a whole network of
such daemons in Dafny and proves what holds over every run.

| file | content |
|---|---|
| `Ip.dfy`, `Routing.dfy` | packet destinations, prefix arithmetic, the sorted table, longest-prefix match |
| `KeyContext.dfy`, `Link.dfy`, `Peers.dfy`, `Bootstrap.dfy` | link keys, one hop over one link, the peer indexes, the client bootstrap |
| `Messages.dfy`, `Node.dfy` | the eleven message kinds; what one node does with a datagram, as functions |
| `Decisions.dfy` | what a node decides, in terms of its configuration and the bytes alone |
| `Daemon.dfy` | the daemon's shared state as a class whose methods are proved against `Node.dfy` |
| `World.dfy` | the network as a step system, its steps being the lock regions, atomic operations and socket calls of the daemon |
| `Turns.dfy` | what one step can do to one host: the cases every host invariant is proved against |
| `Pending.dfy` | the pending-request tables under every interleaving |
| `Paths.dfy`, `Flights.dfy`, `Provenance.dfy` | chains of next hops; where each datagram is and where it came from |
| `Accounts.dfy` | conservation, termination, and the cost of one packet or request |
| `Registry.dfy`, `Registrations.dfy` | the table of registered clients; exactly which registrations and acknowledgements get through |
| `Requests.dfy`, `Correlation.dfy`, `Delivery.dfy` | answers to admin requests; exactly what gets through; how many hops suffice |
| `Steps.dfy`, `Reports.dfy` | the daemon's methods as runs of steps; from an answered request to what the administrator is told |
| `Networks.dfy`, `Line.dfy`, `Bounds.dfy` | networks that start-up can build; rows and rings in which a packet runs out of hops; the exact sizes up to which 16 hops are enough |
| `Detour.dfy` | a network in which a client is registered but never hears so |
| `Chat.dfy`, `Utf8.dfy` | the demo chat's line reassembly, and the encoding it relies on |
| `Sums.dfy`, `LastWriter.dfy`, `Wrappers.dfy` | weighted sums, maps filled by insertion, option and result |

## How a network is modelled

A topology maps socket addresses to static node configurations. A `World` holds the mutable
tables and admin requests of every node and the datagrams on the wire. A run is any sequence of
steps: injections, admin steps, deliveries, losses, duplications, in any order; a step that is
impossible where it stands changes nothing. So each statement about `Run(topo, steps)` speaks
about every interleaving, every loss and duplication pattern and every reordering. Two steps take
more than one operation at once. `Register` counts the id up and sends: the two share nothing,
and a send that comes later is a datagram that the network holds back longer. `Deliver` enters
or lists clients and sends: only the one thread that handles datagrams touches that table, and
the send is again only a delay; the removal of a pending entry and the send on its channel, which
other threads can see between, are two steps. The wire is a
sequence, but a step may take any position, so it is an unordered bag. Fields of `World` from
`causes` on, and `hops`, `start` and `accepted`, are history that no step reads.

Link encryption is ideal in the network model: a frame opens under the same key and associated
data only. `Link.BytesOpenAsFrames` shows that the byte-level framing accepts and refuses in the
same way, given that key agreement commutes, that the codec is undone by its inverse, and that
what the AEAD encrypted opens under its own key and associated data and no other. A hop of a chain
is counted only if the receiver at the peer's address opens the frame, so the reachability results
need no assumption on the peer entries; `Link.AccurateLinksWork` says when every link works.

Assumptions, stated as predicates where they are used: node stealths are unique
(`Requests.UniqueStealths`, for answers to requests and for registrations only); every node runs this code; request
ids do not wrap at 2^64; locks are not poisoned; a node is not restarted during a run.

## Where the code does not do what one might expect

- With a repeated peer id the two peer indexes can disagree (`Peers.RepeatedIdDisagrees`);
  `Peers.IndexesAgreeIff` gives the exact condition on the configured list.
- DATA dropped for its TTL proves a forwarding cycle in every network of n nodes if and only if
  n <= 16 (`Bounds.CycleBound`); from 17 nodes on a row without any cycle drops a packet
  (`Line.ExhaustionWithoutCycle`). That what is dropped was not routable with any TTL
  holds one node further, if and only if n <= 17, except for the packets of the next point
  (`Bounds.UnroutableBound`).
- A node does not check whether it is itself the destination of a packet it injects. For packets
  that start where they should have ended the bounds are therefore one lower: TTL 16 is enough in
  every network of n nodes if and only if n <= 17 without them, and n <= 16 with them
  (`Bounds.HopBound`); in a ring of 17 nodes such a packet would come home at hop 17.
- Key contexts of different links can coincide when an id contains the separator
  (`KeyContext.ContextCollision`); `KeyContext.ContextUniqueIff` says for every link exactly when
  no other shares its context.
- `ClientRegisterAck` is never relayed, in spite of its TTL. A client hears of its registration
  exactly when it is the very next hop back from where the registration ended
  (`Registrations.ExactAck`). `Detour.AckNeverArrives` is a network in which it never does although
  it is registered and its pings to the gateway could be answered: the gateway lists the client under the stealth it had
  before it asked for another one, and reaches the new one by way of a relay.
- `metric` has no effect: the lookup results hold whatever the metrics are.

## Model

| member | source | states |
|---|---|---|
| `Ip.DestinationExact` | src/ip.rs:3-25 | a packet yields destination d exactly when its version nibble, completeness and destination octets are d's |
| `Ip.DestinationValid` | src/ip.rs:3-25 | any destination returned is a well-formed address of its family |
| `Ip.MulticastByOctet` | src/daemon.rs:380-386 | a parsed packet is multicast exactly if it is version 4 with octet 16 in 224 to 239, or version 6 with octet 24 equal to 255 |
| `Routing.ContainsIffLeadingBits` | src/routing.rs:55-57 | a prefix contains a valid address exactly when bit k of both is the same for every k below its length |
| `Routing.SameLengthEqualOrDisjoint` | src/routing.rs:55-57 | two prefixes of equal length sharing an address are the same network |
| `Routing.SortByLength` | src/routing.rs:35 | the sort is descending by length and keeps configured order among equal lengths |
| `Routing.FromConfig` | src/routing.rs:30-53 | fails exactly when a prefix does not parse; otherwise the routes are the stable sort, the overlay map holds the last entry per destination, owned prefixes are in order |
| `Routing.LongestPrefixMatch` | src/routing.rs:31-57 | lookup on any stable descending sort returns the longest containing entry, earliest configured on ties, and nothing exactly when none contains the address |
| `Routing.LookupIsChosen` | src/routing.rs:30-57 | lookup in the table of a configuration gives the configured route with the most leading bits in common, the earliest among equals, with its own stealth; nothing exactly when none covers the address |
| `Routing.OwnsIffConfigured` | src/routing.rs:42-46 | a node owns an address exactly when it shares the leading bits of some prefix configured as owned |
| `Routing.ViaIsLast` | src/routing.rs:37-40 | the next hop towards a stealth is the one configured last for it; none exactly when none is configured |
| `Routing.ReverseIsBest` | src/routing.rs:69-81 | reverse lookup gives the longest prefix configured for the stealth, the earliest among equals, and nothing exactly when there is none |
| `Routing.OrderIndependence` | src/routing.rs:30-57 | with pairwise distinct networks, permuting the configuration changes no lookup |
| `Routing.ReverseThenForward` | src/routing.rs:55-81 | reverse lookup names a longest prefix of the stealth; looking its address up succeeds at least as specifically, and returns to the stealth exactly when the best entry for the address has it |
| `KeyContext.ContextText` | src/daemon.rs:841-847 | the text of the context, from either end |
| `KeyContext.ContextCommutes` | src/daemon.rs:841-847 | both ends of a link derive the same context |
| `KeyContext.ContextUniqueIff` | src/daemon.rs:841-847 | no other pair of ids has the context of a and b if and only if the joined ids can be cut at the separator, lesser part first, in one place only |
| `KeyContext.ContextInjective` | src/daemon.rs:841-847 | for ids whose lesser one lacks the separator, a condition on each id alone: contexts are equal exactly for the same unordered pair |
| `KeyContext.BelowIsByteOrder` | src/daemon.rs:841-847 | the order of strings that picks the first id is the order of their UTF-8 bytes |
| `KeyContext.ContextCollision` | src/daemon.rs:841-847 | two different pairs with one context, when an id contains the separator |
| `Link.HopRoundTrip` | src/daemon.rs:409-423 | between mutually listed nodes the message sealed at one end is opened unchanged at the other |
| `Link.ListedPeerKnown` | src/daemon.rs:62-78 | start-up gives a node, per id, the address, the stealth and the key agreed with the public key of the last entry listed |
| `Link.ListedHopRoundTrip` | src/daemon.rs:62-78 | from the two configurations to the message: nodes that list each other's public keys open what the other sends, unchanged |
| `Link.BytesOpenAsFrames` | src/daemon.rs:409-423 | at every receiver, the bytes of any frame, right or wrong in any field, are opened, or refused for the same reason, as the frame of the network model; a node sends the bytes of the model's frame |
| `Link.UnreadableRefused` | src/daemon.rs:410-423 | bytes that are no frame, and plaintext that is no message, are refused as such and nothing else is |
| `Link.KeysAgree` | src/crypto.rs:53-70 | the two ends of a link hold the same key |
| `Link.AccurateLinksWork` | src/daemon.rs:637-668 | in a network with accurate, mutual peer entries every next peer is a usable hop |
| `Peers.IndexPeers` | src/daemon.rs:60-78 | fails at the first entry that does not parse, address before key; otherwise builds both indexes |
| `Peers.IndexesHoldLast` | src/daemon.rs:60-78 | both indexes hold the last entry per key, and every id in the stealth index is known |
| `Peers.DirectPeerIsKnown` | src/daemon.rs:660-668 | forwarding to a directly known stealth never meets an unknown peer; the exact condition for having no next peer |
| `Peers.IndexesAgreeIff` | src/daemon.rs:69-77 | exactly when the two indexes agree |
| `Peers.DistinctIdsAgree` | src/daemon.rs:69-77 | they agree when the ids are distinct |
| `Peers.RepeatedIdDisagrees` | src/daemon.rs:69-77 | a list with a repeated id for which they disagree |
| `Bootstrap.PerformBootstrap` | src/daemon.rs:245-309 | success exactly if the first packet the client takes notice of answers this very request with ok, and then its settings; otherwise the error: send, receive, decryption, decoding, rejection |
| `Bootstrap.OutcomeDecides` | src/daemon.rs:282-335 | the same about the packets received: which one settles it, and with what result or error |
| `Bootstrap.StrayAnswerHarmless` | src/daemon.rs:331-335 | an answer to another request, or any packet to be skipped, changes nothing wherever it turns up |
| `Bootstrap.RequestStates` | src/daemon.rs:259-276 | the stealth and address asked for, configured or else the node's own, and to whom |
| `Bootstrap.OnlyMissingFilled` | src/daemon.rs:296-306 | bootstrap overwrites the stealth and fills a missing address and empty owned prefixes, and nothing else |
| `Bootstrap.GatewayGrantsRequest` | src/daemon.rs:427-440 | after any skipped packets, the home gateway's answer gives the client the stealth and address it asked for |
| `Node.ForwardUsesNextPeer` | src/daemon.rs:660-668 | the next hop depends on the target stealth alone |
| `Decisions.ForwardDecides` | src/daemon.rs:629-668 | sending on succeeds exactly if the stealth index or else the overlay route names a known peer; the datagram, and the error that says what is missing |
| `Decisions.LocalPacketRefused` | src/daemon.rs:379-391 | a packet from the TUN is ignored exactly if multicast, unparsable exactly if it does not parse, without route exactly if no configured route covers its destination |
| `Decisions.LocalPacketSent` | src/daemon.rs:388-406 | otherwise it is sent as DATA with TTL 16 to the stealth of the best configured route, exactly if that has a next peer |
| `Decisions.InjectDecides` | src/daemon.rs:150-172 | a packet at a node adds a cause to a run exactly if the node has a TUN and the packet departs, and to that stealth; otherwise nothing changes |
| `Decisions.EndsIffKept` | src/daemon.rs:477-490 | a chain ends where the stealth is the node's or the address lies under some configured owned prefix |
| `Decisions.DataDecides` | src/daemon.rs:473-511 | opened DATA is written to the TUN exactly where it is kept, under whichever owned prefix; passed on one hop shorter; dropped |
| `Decisions.TargetDecides` | src/daemon.rs:823-834 | an admin target stands for itself or for the stealth of the best configured route; no route exactly if no configured prefix covers the address |
| `Decisions.AskDecides` | src/daemon.rs:709-726 | asking adds a request for that stealth under the next id, or nothing and no id |
| `Decisions.RegistrationStates` | src/daemon.rs:349-374 | what a registration says and to whom |
| `Decisions.ClientsListed` | src/daemon.rs:571-582 | configured entries if enabled, then every registered client once |
| `Daemon.PingDecides` | src/daemon.rs:709-771 | the result and datagram of one attempt in each case, for the stealth the target stands for |
| `Daemon.ClientsDecides` | src/daemon.rs:777-818 | the answer and datagram of a clients request in each case, for the stealth the target stands for |
| `Daemon.Shared.HandleDatagram` | src/daemon.rs:409-627 | tables, datagram, TUN write, reply and error are those of the network model, for all message kinds, undecodable input and a refusing socket |
| `Daemon.Shared.HandleLocalPacket` | src/daemon.rs:379-407 | the datagram sent or the error, for every packet, the socket's included |
| `Daemon.Shared.Forward` | src/daemon.rs:660-668 | stealth index first, then overlay route, else an error; the socket's error if it refuses |
| `Daemon.Shared.SendClientRegister` | src/daemon.rs:338-377 | takes one id and sends the node's own entry to its home gateway, or fails: before an id is taken, or at the socket after |
| `Daemon.Shared.PublicClientList` | src/daemon.rs:571-582 | enabled static entries followed by the table in iteration order |
| `Daemon.Shared.PingOnce` | src/daemon.rs:711-773 | the result and datagram of one attempt, for the stealth the target stands for, and unresolved with no id taken exactly if it stands for nothing; the id is counted up and its entry in the table before the datagram goes out, and the table is as it was afterwards |
| `Daemon.Shared.Ping` | src/daemon.rs:704-776 | one result and one datagram or none per attempt in order, each under its own id, and no entry left behind |
| `Daemon.Shared.Clients` | src/daemon.rs:777-819 | the answer or error and the datagram of a clients request, for the stealth the target stands for, and unresolved with no id taken exactly if it stands for nothing; its entry is in the table before the datagram goes out and gone afterwards |
| `PendingTables.TablesNeverLeakOrCross` | src/daemon.rs:726-773 | in every interleaving: keys below the counter, tables disjoint, each key the channel of one unfinished request, at most one value per channel, nothing left by a finished request |
| `PendingTables.WaitEnds` | src/daemon.rs:755-771 | a wait ends with the value on the channel if there is one, and in a timeout exactly if there is none |
| `PendingTables.ReceivePending` | src/daemon.rs:540-615 | a datagram takes at most one entry out of one pending table |
| `Paths.MeetingIsShort` | src/daemon.rs:660-668 | a chain that meets a destination does so within N hops, N - 1 if it does not start at one |
| `Paths.LongWalkCycles` | src/daemon.rs:660-668 | a chain with at least as many hops as nodes visits a node twice |
| `Flights.DeliverFlight` | src/daemon.rs:425-624 | one delivery turns a correctly placed datagram of any cause into a correctly placed one, or into a certificate of how its chain ends |
| `Flights.StuckReachesNothing` | src/daemon.rs:490-510 | a relayed message that is refused, out of TTL or without next peer proves that its chain reaches nothing in 16 hops |
| `Flights.DeliverData` | src/daemon.rs:473-511 | DATA is relayed along its chain, written where it ends, or undeliverable; parsing never fails |
| `Flights.DeliverRequest` | src/daemon.rs:512-622 | requests and replies are relayed, answered or taken in along their chains, or no round trip exists |
| `Provenance.DataInFlight` | src/daemon.rs:379-406 | DATA in flight carries the bytes a node with a TUN read from it, to the stealth chosen there, non-multicast, TTL plus relays is 16 |
| `Provenance.InnerPacketParses` | src/daemon.rs:473-475 | the inner-packet parse error cannot occur at a receiver |
| `Provenance.WriteProvenance` | src/daemon.rs:490-502 | a TUN write carries bytes that a node with a TUN read from it and happens where the chain first ends, within 16 hops |
| `Accounts.Conservation` | src/daemon.rs:409-627 | each cause is in flight or ended exactly once, plus duplicates; without duplicates at most one TUN write |
| `Accounts.NoAmplification` | src/daemon.rs:409-627 | in every run, datagrams in flight plus datagrams ended are injections plus duplicates |
| `Accounts.ForwardedIsLighter` | src/daemon.rs:425-624 | whatever a delivery sends weighs strictly less than what it received |
| `Accounts.Termination` | src/daemon.rs:425-624 | without new traffic the wire empties within its weight, in every schedule |
| `Accounts.CostOfOneCause` | src/daemon.rs:399-404 | at most 16 datagrams per packet, 33 per ping or clients query, 17 per registration, duplicates apart |
| `Line.BudgetIsTight` | src/daemon.rs:503-507 | in every row or ring of 17 or more nodes, a run in which one packet costs exactly 16 datagrams |
| `Steps.RegisterStep` | src/daemon.rs:223-234 | a registration step does what the method does, at clients only |
| `Steps.AttemptLeavesNothing` | src/daemon.rs:726-771 | the steps of an unanswered attempt: the method's table when the datagram goes out, the old one afterwards |
| `Steps.AttemptAnswered` | src/daemon.rs:540-558 | a reply in hand for a waiting request is what the request is answered with |
| `Steps.LateReplyDropped` | src/daemon.rs:548-558 | a reply for a request that has ended is thrown away |
| `Registry.TableIsLastWriter` | src/daemon.rs:444-451 | the table holds exactly the accepted client stealths, each under its own key with its last entry |
| `Registry.RedeliveryIdempotent` | src/daemon.rs:448-451 | in every run, a repeated registration changes nothing unless a different one for that client came in between |
| `Registry.RegistrationsAreGenuine` | src/daemon.rs:357-374 | in every run, the entry registered for a stealth is what a node in the client role with that stealth advertises for itself, and its registrations end at this very node |
| `Registrations.ExactRegistration` | src/daemon.rs:444-468 | settled without loss, a client is in a node's table if and only if its registrations first end there within 16 hops, and with its own entry |
| `Registrations.ExactAck` | src/daemon.rs:452-472 | settled without loss, the client opened its acknowledgement if and only if it is the next hop back from where its registrations end |
| `Detour.AckNeverArrives` | src/daemon.rs:452-472 | a network that start-up can build: the client is registered and the round trip of a ping to its gateway exists, but in no run does it open an acknowledgement |
| `Delivery.PingCorrelation` | src/daemon.rs:512-564 | an ok ping names its own target, the responder has that stealth and handled a PingReq with this id and requester, under loss, duplication and reordering |
| `Correlation.HandledMeans` | src/daemon.rs:512-529 | to have handled a request is to have opened a live PingReq with that id and requester, addressed to the node's own stealth |
| `Reports.PingReported` | src/daemon.rs:548-557 | the result reported for an answered ping names the stealth asked for and the id of the node pings of it lead to |
| `Reports.ClientsReported` | src/daemon.rs:801-806 | the answer reported for a clients request is the list of the node asked for in one state of the run |
| `Delivery.SnapshotAnswer` | src/daemon.rs:566-622 | a returned client list is the target's list in one state between sending the request and accepting the answer |
| `Delivery.ExactDelivery` | src/daemon.rs:473-511 | settled without loss, a packet was written to a TUN if and only if its chain first ends within 16 hops at a node with a TUN |
| `Delivery.ExactReply` | src/daemon.rs:512-622 | settled without loss, a waiting request has its reply if and only if the chains there and back end within 16 hops |
| `Delivery.SixteenHopsSuffice` | src/daemon.rs:399-404 | with up to 16 nodes, or 17 from a non-destination, TTL 16 reaches all that is routable |
| `Delivery.ExhaustionProvesCycle` | src/daemon.rs:503-510 | with up to 16 nodes, TTL exhaustion of DATA proves a forwarding cycle |
| `Delivery.ExhaustionIsUnroutable` | src/daemon.rs:503-510 | with up to 17 nodes, TTL exhaustion of DATA proves that no TTL would have sufficed |
| `Line.ExhaustionWithoutCycle` | src/daemon.rs:503-510 | in every row of 17 or more nodes, a run with TTL exhaustion on a chain without any cycle |
| `Line.CircleBuildable` | src/daemon.rs:51-109 | every row and ring is a network that start-up can build |
| `Bounds.CycleBound` | src/daemon.rs:503-510 | for every n: exhaustion proves a cycle in all runs of all networks of n nodes if and only if n <= 16 |
| `Bounds.HopBound` | src/daemon.rs:388-406 | for every n: TTL 16 reaches all that is routable in all networks of n nodes if and only if n <= 16, or n <= 17 for packets that do not start where they should have ended |
| `Bounds.UnroutableBound` | src/daemon.rs:503-510 | for every n: only unroutable DATA is dropped for its TTL in all runs of all networks of n nodes if and only if n <= 16, or n <= 17 for such packets |
| `Delivery.DataFollowsLongestPrefix` | src/daemon.rs:388-404 | DATA goes to the stealth of the longest configured prefix for its destination |
| `Chat.RecvLoop` | chat/chat.py:6-20 | lines closed by newlines plus the leftover rebuild what was read before the disconnect, newline-free |
| `Chat.ReadsUnique` | chat/chat.py:10-16 | lines and leftover depend on the stream only, not on how it was cut |
| `Chat.SendLoop` | chat/chat.py:22-26 | the wire carries each input encoded and closed by a newline |
| `Chat.EncodeNewlineFree` | chat/chat.py:26 | UTF-8 puts no newline byte into newline-free text |
| `Utf8.EncodingForm` | chat/chat.py:26 | an encoding is the shortest one and goes on with continuation bytes only |
| `Utf8.EncodeInjective` | chat/chat.py:26 | different texts have different encodings |
| `Chat.Conversation` | chat/chat.py:7-26 | newline-free inputs come out as exactly the lines that went in, whatever the cuts |

## Left out

- Restarts: the request counter starts at 1 again after a restart, so a late reply to an old request could then meet a new one; runs here are without restarts.
- Timestamps and RTT: a timeout is a step that may happen whenever a waiting request's channel is empty.
- Cryptographic primitives, key files, bincode, TOML and JSON: parameters with stated laws, or values carried directly; textual addresses and prefixes start parsed, with the parse failure as a case.
- TUN devices: a node has a TUN or not, and a write is recorded when it is handed to its thread; no order of writes is claimed.
- Admin socket, routes display, CLI, logging, containers, and the chat's sockets and prompts: input and output.
- Admin threads as such: in the network model each ping attempt or clients query is a request of its own and any number interleave; the count loop is in `Daemon.Shared.Ping`.
- UTF-8 decoding with replacement of ill-formed bytes: the chat results are about the bytes of each line.
- Socket errors in the network model, other than at an admin request: there such a datagram counts as lost. The class in `Daemon.dfy` has them all.
- Setting and clearing the read timeout during bootstrap, and its errors: calls of the operating system.
- Node roles other than gateway and client, and the case folding of their names: the role starts parsed.
- Daemon.Shared.PingOnce: the UDP thread's part of one attempt is a parameter; its interleavings are the subject of PendingTables.TablesNeverLeakOrCross.
- Daemon.Shared.Clients: as for one ping attempt, the reply of the UDP thread is a parameter and its interleavings are in PendingTables.TablesNeverLeakOrCross.
- Daemon.Shared.Ping: the same, for each of its attempts.
- Routing.SortByLength: the library's in-place sort appears as an insertion sort on a sequence; the lookup results use only that the result is a stable descending sort.
