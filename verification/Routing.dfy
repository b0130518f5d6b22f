/** The routing table of a node (src/routing.rs): prefix arithmetic, the construction of
    the sorted table, and the two lookups. */
module Routing {
  import opened Wrappers
  import opened Ip
  import LastWriter

  /** A prefix as written, host bits included (ipnet keeps them). */
  datatype Prefix = Prefix(family: Family, addr: nat, len: nat) {
    ghost predicate Valid() {
      len <= family.Bits() && addr < Pow2(family.Bits())
    }

    function Size(): (n: nat)
      requires len <= family.Bits()
      ensures n > 0
    {
      Pow2(family.Bits() - len)
    }

    function Network(): int
      requires len <= family.Bits()
    {
      addr - addr % Size()
    }

    function Broadcast(): int
      requires len <= family.Bits()
    {
      Network() + Size() - 1
    }

    predicate Contains(ip: IpAddr)
      requires len <= family.Bits()
    {
      family == ip.family && Network() <= ip.value <= Broadcast()
    }
  }

  type Net = p: Prefix | p.Valid() witness Witness()

  function Witness(): Prefix {
    Prefix(V4, 0, 32)
  }

  datatype RouteEntry = RouteEntry(prefix: Net, stealth: string, metric: nat, mode: string)

  /** A configured route; prefix is None when its text does not parse. */
  datatype StaticRoute = StaticRoute(prefix: Option<Net>, stealth: string, metric: nat, mode: string)

  datatype OverlayRoute = OverlayRoute(destination: string, via: string)

  datatype RoutingConfig = RoutingConfig(staticMap: seq<StaticRoute>, overlayRoutes: seq<OverlayRoute>,
                                         ownedPrefixes: seq<Option<Net>>)

  datatype RoutingTable = RoutingTable(routes: seq<RouteEntry>, overlayRoutes: map<string, string>,
                                       ownedPrefixes: seq<Net>)
  {
    function Lookup(ip: IpAddr): Option<RouteEntry> {
      FirstMatch(routes, ip)
    }

    function ReverseLookup(stealth: string): Option<RouteEntry> {
      FirstOf(routes, stealth)
    }

    predicate OwnsIp(ip: IpAddr) {
      exists i :: 0 <= i < |ownedPrefixes| && ownedPrefixes[i].Contains(ip)
    }

    function NextHopVia(stealth: string): Option<string> {
      if stealth in overlayRoutes then Some(overlayRoutes[stealth]) else None
    }
  }

  function FirstMatch(routes: seq<RouteEntry>, ip: IpAddr): Option<RouteEntry> {
    if routes == [] then None
    else if routes[0].prefix.Contains(ip) then Some(routes[0])
    else FirstMatch(routes[1..], ip)
  }

  function FirstOf(routes: seq<RouteEntry>, stealth: string): Option<RouteEntry> {
    if routes == [] then None
    else if routes[0].stealth == stealth then Some(routes[0])
    else FirstOf(routes[1..], stealth)
  }

  // ---------- prefix arithmetic ----------

  lemma {:induction false} AlignedBand(v: nat, addr: nat, size: nat)
    requires size > 0
    ensures addr - addr % size == addr / size * size
    ensures addr - addr % size <= v <= addr - addr % size + size - 1 <==> v / size == addr / size
  {
    assert addr == addr / size * size + addr % size;
    QuotientBand(v, addr / size, size);
  }

  lemma {:induction false} ContainsIffQuotient(p: Net, ip: IpAddr)
    ensures p.Contains(ip) <==> p.family == ip.family && ip.value / p.Size() == p.addr / p.Size()
  {
    AlignedBand(ip.value, p.addr, p.Size());
  }

  /** Bit k of an address of that family, the most significant one first. */
  function Bit(family: Family, value: nat, k: nat): nat
    requires k < family.Bits()
  {
    value / Pow2(family.Bits() - 1 - k) % 2
  }

  /** The first len bits of the prefix and of the address are the same. */
  ghost predicate LeadingBitsAgree(p: Net, ip: IpAddr) {
    p.family == ip.family && forall k :: 0 <= k < p.len ==> Bit(ip.family, ip.value, k) == Bit(p.family, p.addr, k)
  }

  lemma {:induction false} HalveQuotient(v: nat, p: nat)
    requires p > 0
    ensures v / (2 * p) == v / p / 2
  {
    var q := v / p / 2;
    assert v == v / p * p + v % p;
    assert v / p == 2 * q + v / p % 2;
    assert (2 * q) * p <= v / p * p && v / p * p <= (2 * q + 1) * p;
    assert q * (2 * p) == (2 * q) * p;
    QuotientBand(v, q, 2 * p);
  }

  lemma {:induction false} QuotientIsBits(family: Family, v: nat, a: nat, n: nat)
    requires n <= family.Bits() && v < Pow2(family.Bits()) && a < Pow2(family.Bits())
    ensures v / Pow2(family.Bits() - n) == a / Pow2(family.Bits() - n) <==>
            forall k :: 0 <= k < n ==> Bit(family, v, k) == Bit(family, a, k)
  {
    if n == 0 {
      QuotientBand(v, 0, Pow2(family.Bits()));
      QuotientBand(a, 0, Pow2(family.Bits()));
    } else {
      QuotientIsBits(family, v, a, n - 1);
      var p := Pow2(family.Bits() - n);
      assert Pow2(family.Bits() - (n - 1)) == 2 * p;
      HalveQuotient(v, p);
      HalveQuotient(a, p);
      assert Bit(family, v, n - 1) == v / p % 2 && Bit(family, a, n - 1) == a / p % 2;
    }
  }

  /** network <= ip <= broadcast says exactly that the leading len bits agree. */
  lemma {:induction false} ContainsIffLeadingBits(p: Net, ip: IpAddr)
    requires ip.Valid()
    ensures p.Contains(ip) <==> LeadingBitsAgree(p, ip)
  {
    ContainsIffQuotient(p, ip);
    if p.family == ip.family {
      QuotientIsBits(p.family, ip.value, p.addr, p.len);
    }
  }

  /** The network a prefix denotes: family, length and masked address. */
  function Masked(p: Net): (Family, nat, int) {
    (p.family, p.len, p.Network())
  }

  lemma {:induction false} OwnAddressInside(p: Net)
    ensures p.Contains(IpAddr(p.family, p.addr))
  {
    ContainsIffQuotient(p, IpAddr(p.family, p.addr));
  }

  /** Two prefixes of one length that share an address are the same network. */
  lemma {:induction false} SameLengthEqualOrDisjoint(p: Net, q: Net, ip: IpAddr)
    requires p.len == q.len && p.Contains(ip) && q.Contains(ip)
    ensures Masked(p) == Masked(q)
  {
    AlignedBand(ip.value, p.addr, p.Size());
    AlignedBand(ip.value, q.addr, q.Size());
  }

  // ---------- what a stable sort by descending length is ----------

  function OfLength(routes: seq<RouteEntry>, len: nat): seq<RouteEntry> {
    if routes == [] then []
    else (if routes[0].prefix.len == len then [routes[0]] else []) + OfLength(routes[1..], len)
  }

  ghost predicate Descending(routes: seq<RouteEntry>) {
    forall i, j :: 0 <= i < j < |routes| ==> routes[i].prefix.len >= routes[j].prefix.len
  }

  /** Descending, and among entries of one length the configured order. */
  ghost predicate StableSortOf(sorted: seq<RouteEntry>, routes: seq<RouteEntry>) {
    Descending(sorted) && forall len: nat :: OfLength(sorted, len) == OfLength(routes, len)
  }

  lemma {:induction false} OfLengthConcat(s: seq<RouteEntry>, t: seq<RouteEntry>, len: nat)
    ensures OfLength(s + t, len) == OfLength(s, len) + OfLength(t, len)
  {
    if s == [] {
      assert s + t == t;
    } else {
      assert (s + t)[1..] == s[1..] + t;
      OfLengthConcat(s[1..], t, len);
    }
  }

  lemma {:induction false} OfLengthMember(s: seq<RouteEntry>, r: RouteEntry, len: nat)
    ensures r in OfLength(s, len) <==> r in s && r.prefix.len == len
  {
    if s != [] {
      OfLengthMember(s[1..], r, len);
      assert s == [s[0]] + s[1..];
    }
  }

  lemma {:induction false} StableSortMembers(sorted: seq<RouteEntry>, routes: seq<RouteEntry>, r: RouteEntry)
    requires StableSortOf(sorted, routes)
    ensures r in sorted <==> r in routes
  {
    OfLengthMember(sorted, r, r.prefix.len);
    OfLengthMember(routes, r, r.prefix.len);
  }

  /** One insertion of the sort: after every entry at least as long. */
  method InsertByLength(sorted: seq<RouteEntry>, r: RouteEntry) returns (inserted: seq<RouteEntry>)
    requires Descending(sorted)
    ensures Descending(inserted)
    ensures forall len: nat :: OfLength(inserted, len) == OfLength(sorted, len) + OfLength([r], len)
  {
    var i := |sorted|;
    while i > 0 && sorted[i-1].prefix.len < r.prefix.len
      invariant 0 <= i <= |sorted|
      invariant forall j :: i <= j < |sorted| ==> sorted[j].prefix.len < r.prefix.len
    {
      i := i - 1;
    }
    inserted := sorted[..i] + [r] + sorted[i..];
    InsertedAt(sorted, r, i);
  }

  lemma {:induction false} InsertedAt(sorted: seq<RouteEntry>, r: RouteEntry, i: nat)
    requires i <= |sorted| && Descending(sorted)
    requires forall j :: i <= j < |sorted| ==> sorted[j].prefix.len < r.prefix.len
    requires i > 0 ==> sorted[i-1].prefix.len >= r.prefix.len
    ensures Descending(sorted[..i] + [r] + sorted[i..])
    ensures forall len: nat :: OfLength(sorted[..i] + [r] + sorted[i..], len) == OfLength(sorted, len) + OfLength([r], len)
  {
    var s, t := sorted[..i], sorted[i..];
    assert sorted == s + t;
    InsertedDescending(s, t, r);
    forall len: nat ensures OfLength(s + [r] + t, len) == OfLength(sorted, len) + OfLength([r], len) {
      InsertedOfLength(s, t, r, len);
    }
  }

  lemma {:induction false} InsertedDescending(s: seq<RouteEntry>, t: seq<RouteEntry>, r: RouteEntry)
    requires Descending(s + t)
    requires forall j :: 0 <= j < |t| ==> t[j].prefix.len < r.prefix.len
    requires s != [] ==> s[|s|-1].prefix.len >= r.prefix.len
    ensures Descending(s + [r] + t)
  {
    var u, v := s + [r] + t, s + t;
    forall i, j | 0 <= i < j < |u| ensures u[i].prefix.len >= u[j].prefix.len {
      assert u[i] == if i < |s| then v[i] else if i == |s| then r else v[i-1];
      assert u[j] == if j < |s| then v[j] else if j == |s| then r else v[j-1];
      if i < |s| { assert v[i].prefix.len >= v[|s|-1].prefix.len; }
    }
  }

  lemma {:induction false} InsertedOfLength(s: seq<RouteEntry>, t: seq<RouteEntry>, r: RouteEntry, len: nat)
    requires forall j :: 0 <= j < |t| ==> t[j].prefix.len < r.prefix.len
    ensures OfLength(s + [r] + t, len) == OfLength(s + t, len) + OfLength([r], len)
  {
    OfLengthConcat(s + [r], t, len);
    OfLengthConcat(s, [r], len);
    OfLengthConcat(s, t, len);
    if len == r.prefix.len {
      NoneOfLength(t, len);
    } else {
      assert OfLength([r], len) == [];
    }
  }

  lemma {:induction false} NoneOfLength(s: seq<RouteEntry>, len: nat)
    requires forall j :: 0 <= j < |s| ==> s[j].prefix.len != len
    ensures OfLength(s, len) == []
  {
    if s != [] {
      NoneOfLength(s[1..], len);
    }
  }

  method SortByLength(routes: seq<RouteEntry>) returns (sorted: seq<RouteEntry>)
    ensures StableSortOf(sorted, routes)
  {
    sorted := [];
    for i := 0 to |routes|
      invariant StableSortOf(sorted, routes[..i])
    {
      sorted := InsertByLength(sorted, routes[i]);
      assert routes[..i+1] == routes[..i] + [routes[i]];
      forall len: nat ensures OfLength(sorted, len) == OfLength(routes[..i+1], len) {
        OfLengthConcat(routes[..i], [routes[i]], len);
      }
    }
    assert routes[..|routes|] == routes;
  }

  // ---------- construction ----------

  datatype ConfigError = InvalidRoutePrefix | InvalidOwnedPrefix

  predicate AllParse(cfg: RoutingConfig) {
    && (forall i :: 0 <= i < |cfg.staticMap| ==> cfg.staticMap[i].prefix.Some?)
    && (forall i :: 0 <= i < |cfg.ownedPrefixes| ==> cfg.ownedPrefixes[i].Some?)
  }

  function Entry(route: StaticRoute): RouteEntry
    requires route.prefix.Some?
  {
    RouteEntry(route.prefix.value, route.stealth, route.metric, route.mode)
  }

  function OverlayPairs(entries: seq<OverlayRoute>): (pairs: seq<(string, string)>) {
    seq(|entries|, i requires 0 <= i < |entries| => (entries[i].destination, entries[i].via))
  }

  /** The entries of the static map in configured order. */
  function Configured(cfg: RoutingConfig): (routes: seq<RouteEntry>)
    requires AllParse(cfg)
  {
    seq(|cfg.staticMap|, i requires 0 <= i < |cfg.staticMap| => Entry(cfg.staticMap[i]))
  }

  /** table is what from_config must build out of cfg. */
  ghost predicate BuiltFrom(table: RoutingTable, cfg: RoutingConfig)
    requires AllParse(cfg)
  {
    && StableSortOf(table.routes, Configured(cfg))
    && table.overlayRoutes == LastWriter.Inserted(OverlayPairs(cfg.overlayRoutes))
    && |table.ownedPrefixes| == |cfg.ownedPrefixes|
    && forall i :: 0 <= i < |cfg.ownedPrefixes| ==> table.ownedPrefixes[i] == cfg.ownedPrefixes[i].value
  }

  method FromConfig(cfg: RoutingConfig) returns (r: Result<RoutingTable, ConfigError>)
    ensures r.Success? <==> AllParse(cfg)
    ensures r.Success? ==> BuiltFrom(r.value, cfg)
    ensures r.Failure? ==> (r.error == InvalidRoutePrefix <==>
                            exists i :: 0 <= i < |cfg.staticMap| && cfg.staticMap[i].prefix.None?)
  {
    var routes: seq<RouteEntry> := [];
    for i := 0 to |cfg.staticMap|
      invariant |routes| == i
      invariant forall k :: 0 <= k < i ==> cfg.staticMap[k].prefix.Some? && routes[k] == Entry(cfg.staticMap[k])
    {
      if cfg.staticMap[i].prefix.None? {
        return Failure(InvalidRoutePrefix);
      }
      routes := routes + [Entry(cfg.staticMap[i])];
    }
    ghost var pushed := routes;
    routes := SortByLength(routes);

    var overlayRoutes: map<string, string> := map[];
    ghost var pairs := OverlayPairs(cfg.overlayRoutes);
    for i := 0 to |cfg.overlayRoutes|
      invariant overlayRoutes == LastWriter.Inserted(pairs[..i])
    {
      LastWriter.InsertedSnoc(pairs[..i], pairs[i]);
      assert pairs[..i+1] == pairs[..i] + [pairs[i]];
      overlayRoutes := overlayRoutes[cfg.overlayRoutes[i].destination := cfg.overlayRoutes[i].via];
    }
    assert pairs[..|pairs|] == pairs;

    var owned: seq<Net> := [];
    for i := 0 to |cfg.ownedPrefixes|
      invariant |owned| == i
      invariant forall k :: 0 <= k < i ==> cfg.ownedPrefixes[k].Some? && owned[k] == cfg.ownedPrefixes[k].value
    {
      if cfg.ownedPrefixes[i].None? {
        return Failure(InvalidOwnedPrefix);
      }
      owned := owned + [cfg.ownedPrefixes[i].value];
    }
    assert pushed == Configured(cfg);
    r := Success(RoutingTable(routes, overlayRoutes, owned));
  }

  // ---------- longest-prefix match ----------

  /** Entry i is the longest configured prefix containing ip, the earliest among equals. */
  ghost predicate Best(routes: seq<RouteEntry>, ip: IpAddr, i: nat) {
    && i < |routes|
    && routes[i].prefix.Contains(ip)
    && forall j {:trigger routes[j]} :: 0 <= j < |routes| && routes[j].prefix.Contains(ip) ==>
         routes[j].prefix.len < routes[i].prefix.len || (routes[j].prefix.len == routes[i].prefix.len && i <= j)
  }

  /** The first entry of a list that contains ip, by position. */
  lemma {:induction false} FirstMatchPosition(routes: seq<RouteEntry>, ip: IpAddr) returns (i: nat)
    ensures FirstMatch(routes, ip).None? <==> forall j :: 0 <= j < |routes| ==> !routes[j].prefix.Contains(ip)
    ensures FirstMatch(routes, ip).Some? ==>
              && i < |routes| && FirstMatch(routes, ip).value == routes[i] && routes[i].prefix.Contains(ip)
              && forall j :: 0 <= j < i ==> !routes[j].prefix.Contains(ip)
  {
    i := 0;
    if routes != [] && !routes[0].prefix.Contains(ip) {
      var k := FirstMatchPosition(routes[1..], ip);
      assert forall j :: 0 < j < |routes| ==> routes[j] == routes[1..][j-1];
      i := k + 1;
    }
  }

  /** Picking one length out of a list does not change which entry of that length is hit first. */
  lemma {:induction false} FirstMatchOfLength(routes: seq<RouteEntry>, ip: IpAddr, len: nat)
    requires forall r :: r in routes && r.prefix.Contains(ip) ==> r.prefix.len <= len
    requires Descending(routes)
    requires exists r :: r in routes && r.prefix.Contains(ip) && r.prefix.len == len
    ensures FirstMatch(routes, ip) == FirstMatch(OfLength(routes, len), ip)
  {
    var r :| r in routes && r.prefix.Contains(ip) && r.prefix.len == len;
    if routes[0].prefix.Contains(ip) {
      assert routes[0] in routes;
      assert routes[0].prefix.len == len;
    } else {
      assert r in routes[1..];
      forall x | x in routes[1..] ensures x in routes { }
      FirstMatchOfLength(routes[1..], ip, len);
      assert ([routes[0]] + OfLength(routes[1..], len))[1..] == OfLength(routes[1..], len);
      assert [] + OfLength(routes[1..], len) == OfLength(routes[1..], len);
    }
  }

  /** In any list, the earliest entry of length len that contains ip is the first match of
      its entries of that length. */
  lemma {:induction false} EarliestOfLength(routes: seq<RouteEntry>, ip: IpAddr, len: nat, i: nat)
    requires i < |routes| && routes[i].prefix.len == len && routes[i].prefix.Contains(ip)
    requires forall j :: 0 <= j < i && routes[j].prefix.len == len ==> !routes[j].prefix.Contains(ip)
    ensures FirstMatch(OfLength(routes, len), ip) == Some(routes[i])
  {
    if i > 0 {
      EarliestOfLength(routes[1..], ip, len, i - 1);
      var rest := OfLength(routes[1..], len);
      if routes[0].prefix.len == len {
        assert ([routes[0]] + rest)[1..] == rest;
      } else {
        assert [] + rest == rest;
      }
    }
  }

  /** One more entry at the end is the best exactly if it is longer. */
  lemma {:induction false} BestSnoc(routes: seq<RouteEntry>, r: RouteEntry, ip: IpAddr, i: nat)
    requires Best(routes, ip, i)
    ensures Best(routes + [r], ip, if r.prefix.Contains(ip) && r.prefix.len > routes[i].prefix.len then |routes| else i)
  {
    var all := routes + [r];
    forall j | 0 <= j < |all| ensures all[j] == if j < |routes| then routes[j] else r {
    }
  }

  /** A non-empty set of containing entries has a best one. */
  lemma {:induction false} BestExists(routes: seq<RouteEntry>, ip: IpAddr) returns (i: nat)
    requires exists j :: 0 <= j < |routes| && routes[j].prefix.Contains(ip)
    ensures Best(routes, ip, i)
  {
    var n := |routes| - 1;
    if j :| 0 <= j < n && routes[j].prefix.Contains(ip) {
      assert routes[..n][j].prefix.Contains(ip);
      i := BestExists(routes[..n], ip);
      assert routes == routes[..n] + [routes[n]];
      BestSnoc(routes[..n], routes[n], ip, i);
      i := if routes[n].prefix.Contains(ip) && routes[n].prefix.len > routes[i].prefix.len then n else i;
    } else {
      i := n;
    }
  }

  lemma {:induction false} BestIsFirst(sorted: seq<RouteEntry>, routes: seq<RouteEntry>, ip: IpAddr, i: nat)
    requires StableSortOf(sorted, routes) && Best(routes, ip, i)
    ensures FirstMatch(sorted, ip) == Some(routes[i])
  {
    var len := routes[i].prefix.len;
    StableSortMembers(sorted, routes, routes[i]);
    forall r | r in sorted && r.prefix.Contains(ip) ensures r.prefix.len <= len {
      StableSortMembers(sorted, routes, r);
      var j :| 0 <= j < |routes| && routes[j] == r;
    }
    FirstMatchOfLength(sorted, ip, len);
    EarliestOfLength(routes, ip, len, i);
  }

  /** Stable sort then first match is longest-prefix match: the entry returned is the longest
      configured prefix containing ip, ties going to the earliest configured one, whatever the
      metrics and however the two families are mixed; nothing is returned exactly when no
      configured prefix contains ip. */
  lemma {:induction false} LongestPrefixMatch(sorted: seq<RouteEntry>, routes: seq<RouteEntry>, ip: IpAddr)
    requires StableSortOf(sorted, routes)
    ensures FirstMatch(sorted, ip).None? <==> forall j :: 0 <= j < |routes| ==> !routes[j].prefix.Contains(ip)
    ensures forall i: nat :: Best(routes, ip, i) ==> FirstMatch(sorted, ip) == Some(routes[i])
    ensures FirstMatch(sorted, ip).Some? ==> exists i: nat :: Best(routes, ip, i)
  {
    forall i: nat | Best(routes, ip, i) ensures FirstMatch(sorted, ip) == Some(routes[i]) {
      BestIsFirst(sorted, routes, ip, i);
    }
    var p := FirstMatchPosition(sorted, ip);
    if FirstMatch(sorted, ip).Some? {
      StableSortMembers(sorted, routes, sorted[p]);
      assert sorted[p] in routes;
    }
    if j :| 0 <= j < |routes| && routes[j].prefix.Contains(ip) {
      var b := BestExists(routes, ip);
    }
  }

  // ---------- the table against its configuration ----------

  ghost predicate Covers(route: StaticRoute, ip: IpAddr) {
    route.prefix.Some? && LeadingBitsAgree(route.prefix.value, ip)
  }

  /** Route i of the static map is the longest one whose leading bits are those of ip, the
      earliest among equals. */
  ghost predicate Chosen(cfg: RoutingConfig, ip: IpAddr, i: nat)
    requires AllParse(cfg)
  {
    && i < |cfg.staticMap| && Covers(cfg.staticMap[i], ip)
    && forall j :: 0 <= j < |cfg.staticMap| && Covers(cfg.staticMap[j], ip) ==>
         var len, best := cfg.staticMap[j].prefix.value.len, cfg.staticMap[i].prefix.value.len;
         len < best || (len == best && i <= j)
  }

  lemma {:induction false} ChosenIsBest(cfg: RoutingConfig, ip: IpAddr, i: nat)
    requires AllParse(cfg) && ip.Valid()
    ensures Chosen(cfg, ip, i) <==> Best(Configured(cfg), ip, i)
  {
    forall j | 0 <= j < |cfg.staticMap| ensures Covers(cfg.staticMap[j], ip) <==> Configured(cfg)[j].prefix.Contains(ip) {
      ContainsIffLeadingBits(cfg.staticMap[j].prefix.value, ip);
    }
  }

  /** Looking an address up in the table of a configuration gives the chosen route of its static
      map, and nothing exactly when no route of it covers the address. */
  lemma {:induction false} LookupIsChosen(table: RoutingTable, cfg: RoutingConfig, ip: IpAddr)
    requires AllParse(cfg) && BuiltFrom(table, cfg) && ip.Valid()
    ensures table.Lookup(ip).None? <==> forall j :: 0 <= j < |cfg.staticMap| ==> !Covers(cfg.staticMap[j], ip)
    ensures table.Lookup(ip).Some? ==> exists i: nat :: Chosen(cfg, ip, i)
    ensures forall i: nat :: Chosen(cfg, ip, i) ==>
              var route := cfg.staticMap[i];
              table.Lookup(ip) == Some(RouteEntry(route.prefix.value, route.stealth, route.metric, route.mode))
  {
    LongestPrefixMatch(table.routes, Configured(cfg), ip);
    forall j | 0 <= j < |cfg.staticMap| ensures Covers(cfg.staticMap[j], ip) <==> Configured(cfg)[j].prefix.Contains(ip) {
      ContainsIffLeadingBits(cfg.staticMap[j].prefix.value, ip);
    }
    forall i: nat ensures Chosen(cfg, ip, i) <==> Best(Configured(cfg), ip, i) {
      ChosenIsBest(cfg, ip, i);
    }
  }

  /** A node owns an address exactly when it shares the leading bits of one of the prefixes
      configured as owned. */
  lemma {:induction false} OwnsIffConfigured(table: RoutingTable, cfg: RoutingConfig, ip: IpAddr)
    requires AllParse(cfg) && BuiltFrom(table, cfg) && ip.Valid()
    ensures table.OwnsIp(ip) <==> exists i :: 0 <= i < |cfg.ownedPrefixes| && LeadingBitsAgree(cfg.ownedPrefixes[i].value, ip)
  {
    forall i | 0 <= i < |cfg.ownedPrefixes|
      ensures table.ownedPrefixes[i].Contains(ip) <==> LeadingBitsAgree(cfg.ownedPrefixes[i].value, ip)
    {
      ContainsIffLeadingBits(cfg.ownedPrefixes[i].value, ip);
    }
    if table.OwnsIp(ip) {
      var i :| 0 <= i < |table.ownedPrefixes| && table.ownedPrefixes[i].Contains(ip);
      assert LeadingBitsAgree(cfg.ownedPrefixes[i].value, ip);
    }
  }

  /** The next hop towards a stealth is the one given last for it. */
  lemma {:induction false} ViaIsLast(table: RoutingTable, cfg: RoutingConfig, stealth: string)
    requires AllParse(cfg) && BuiltFrom(table, cfg)
    ensures table.NextHopVia(stealth).None? <==>
            forall i :: 0 <= i < |cfg.overlayRoutes| ==> cfg.overlayRoutes[i].destination != stealth
    ensures forall i :: 0 <= i < |cfg.overlayRoutes| && cfg.overlayRoutes[i].destination == stealth
                        && (forall j :: i < j < |cfg.overlayRoutes| ==> cfg.overlayRoutes[j].destination != stealth) ==>
              table.NextHopVia(stealth) == Some(cfg.overlayRoutes[i].via)
  {
    var pairs := OverlayPairs(cfg.overlayRoutes);
    forall i: nat | i < |cfg.overlayRoutes| && cfg.overlayRoutes[i].destination == stealth
      ensures stealth in table.overlayRoutes
      ensures (forall j :: i < j < |cfg.overlayRoutes| ==> cfg.overlayRoutes[j].destination != stealth) ==>
                table.overlayRoutes[stealth] == cfg.overlayRoutes[i].via
    {
      LastWriter.InsertedContains(pairs, i);
      assert (forall j :: i < j < |cfg.overlayRoutes| ==> cfg.overlayRoutes[j].destination != stealth) ==> LastWriter.IsLast(pairs, i);
    }
    if stealth in table.overlayRoutes {
      var i := LastWriter.InsertedHasLast(pairs, stealth);
      assert pairs[i].0 == cfg.overlayRoutes[i].destination;
    }
  }

  // ---------- independence of the configured order ----------

  ghost predicate DistinctNetworks(routes: seq<RouteEntry>) {
    forall i, j :: 0 <= i < j < |routes| ==> Masked(routes[i].prefix) != Masked(routes[j].prefix)
  }

  /** When no two entries denote the same network, permuting the configuration leaves every
      lookup unchanged. */
  lemma {:induction false} OrderIndependence(s: seq<RouteEntry>, t: seq<RouteEntry>, sortedS: seq<RouteEntry>,
                          sortedT: seq<RouteEntry>, ip: IpAddr)
    requires multiset(s) == multiset(t) && DistinctNetworks(s)
    requires StableSortOf(sortedS, s) && StableSortOf(sortedT, t)
    ensures FirstMatch(sortedS, ip) == FirstMatch(sortedT, ip)
  {
    LongestPrefixMatch(sortedS, s, ip);
    LongestPrefixMatch(sortedT, t, ip);
    forall r ensures r in s <==> r in t {
      assert r in multiset(s) <==> r in multiset(t);
    }
    if exists j :: 0 <= j < |s| && s[j].prefix.Contains(ip) {
      var i := BestExists(s, ip);
      assert s[i] in t;
      var j := BestExists(t, ip);
      assert t[j] in s;
      var k :| 0 <= k < |s| && s[k] == t[j];
      var m :| 0 <= m < |t| && t[m] == s[i];
      assert s[k].prefix.len == s[i].prefix.len;
      SameLengthEqualOrDisjoint(s[i].prefix, s[k].prefix, ip);
      assert i == k;
    } else {
      forall j | 0 <= j < |t| ensures !t[j].prefix.Contains(ip) {
        assert t[j] in s;
      }
    }
  }

  // ---------- reverse lookup against forward lookup ----------

  lemma {:induction false} FirstOfLongest(routes: seq<RouteEntry>, stealth: string)
    requires Descending(routes)
    ensures FirstOf(routes, stealth).None? <==> forall r :: r in routes ==> r.stealth != stealth
    ensures FirstOf(routes, stealth).Some? ==>
              && FirstOf(routes, stealth).value in routes
              && FirstOf(routes, stealth).value.stealth == stealth
              && forall r :: r in routes && r.stealth == stealth ==>
                   r.prefix.len <= FirstOf(routes, stealth).value.prefix.len
  {
    if routes != [] {
      FirstOfLongest(routes[1..], stealth);
      assert routes == [routes[0]] + routes[1..];
    }
  }

  /** Entry i is the longest one configured for the stealth, the earliest among equals. */
  ghost predicate BestFor(routes: seq<RouteEntry>, stealth: string, i: nat) {
    && i < |routes|
    && routes[i].stealth == stealth
    && forall j {:trigger routes[j]} :: 0 <= j < |routes| && routes[j].stealth == stealth ==>
         routes[j].prefix.len < routes[i].prefix.len || (routes[j].prefix.len == routes[i].prefix.len && i <= j)
  }

  lemma {:induction false} FirstOfLength(routes: seq<RouteEntry>, stealth: string, len: nat)
    requires forall r :: r in routes && r.stealth == stealth ==> r.prefix.len <= len
    requires Descending(routes)
    requires exists r :: r in routes && r.stealth == stealth && r.prefix.len == len
    ensures FirstOf(routes, stealth) == FirstOf(OfLength(routes, len), stealth)
  {
    var r :| r in routes && r.stealth == stealth && r.prefix.len == len;
    if routes[0].stealth == stealth {
      assert routes[0] in routes;
      assert routes[0].prefix.len == len;
    } else {
      assert r in routes[1..];
      forall x | x in routes[1..] ensures x in routes { }
      FirstOfLength(routes[1..], stealth, len);
      assert ([routes[0]] + OfLength(routes[1..], len))[1..] == OfLength(routes[1..], len);
      assert [] + OfLength(routes[1..], len) == OfLength(routes[1..], len);
    }
  }

  lemma {:induction false} EarliestFor(routes: seq<RouteEntry>, stealth: string, len: nat, i: nat)
    requires i < |routes| && routes[i].prefix.len == len && routes[i].stealth == stealth
    requires forall j :: 0 <= j < i && routes[j].prefix.len == len ==> routes[j].stealth != stealth
    ensures FirstOf(OfLength(routes, len), stealth) == Some(routes[i])
  {
    if i > 0 {
      EarliestFor(routes[1..], stealth, len, i - 1);
      var rest := OfLength(routes[1..], len);
      if routes[0].prefix.len == len {
        assert ([routes[0]] + rest)[1..] == rest;
      } else {
        assert [] + rest == rest;
      }
    }
  }

  /** Reverse lookup gives the longest prefix configured for the stealth, the earliest configured
      one among equals, and nothing exactly when none is configured for it. */
  lemma {:induction false} ReverseIsBest(table: RoutingTable, cfg: RoutingConfig, stealth: string)
    requires AllParse(cfg) && BuiltFrom(table, cfg)
    ensures table.ReverseLookup(stealth).None? <==> forall i :: 0 <= i < |cfg.staticMap| ==> cfg.staticMap[i].stealth != stealth
    ensures forall i: nat :: BestFor(Configured(cfg), stealth, i) ==>
              table.ReverseLookup(stealth) == Some(Configured(cfg)[i]) && cfg.staticMap[i].stealth == stealth
              && cfg.staticMap[i].prefix == Some(Configured(cfg)[i].prefix)
  {
    var routes, sorted := Configured(cfg), table.routes;
    FirstOfLongest(sorted, stealth);
    forall r ensures r in sorted <==> r in routes {
      StableSortMembers(sorted, routes, r);
    }
    forall i | 0 <= i < |cfg.staticMap| && cfg.staticMap[i].stealth == stealth ensures table.ReverseLookup(stealth).Some? {
      assert routes[i] in routes && routes[i].stealth == stealth;
    }
    if table.ReverseLookup(stealth).Some? {
      var r := table.ReverseLookup(stealth).value;
      var i :| 0 <= i < |routes| && routes[i] == r;
      assert cfg.staticMap[i].stealth == stealth;
    }
    forall i: nat | BestFor(routes, stealth, i) ensures FirstOf(sorted, stealth) == Some(routes[i]) {
      BestForIsFirst(sorted, routes, stealth, i);
    }
  }

  lemma {:induction false} BestForIsFirst(sorted: seq<RouteEntry>, routes: seq<RouteEntry>, stealth: string, i: nat)
    requires StableSortOf(sorted, routes) && BestFor(routes, stealth, i)
    ensures FirstOf(sorted, stealth) == Some(routes[i])
  {
    var len := routes[i].prefix.len;
    StableSortMembers(sorted, routes, routes[i]);
    forall r | r in sorted && r.stealth == stealth ensures r.prefix.len <= len {
      StableSortMembers(sorted, routes, r);
      var j :| 0 <= j < |routes| && routes[j] == r;
    }
    FirstOfLength(sorted, stealth, len);
    EarliestFor(routes, stealth, len, i);
  }

  /** ReverseLookup(s) names a longest prefix configured for s. Looking its own address up
      again always succeeds, with a prefix at least as long, and comes back to s exactly when
      the best configured entry for that address is one of s. */
  lemma {:induction false} ReverseThenForward(table: RoutingTable, routes: seq<RouteEntry>, stealth: string, i: nat)
    requires StableSortOf(table.routes, routes)
    requires table.ReverseLookup(stealth).Some?
    ensures var r := table.ReverseLookup(stealth).value;
            var ip := IpAddr(r.prefix.family, r.prefix.addr);
            && r in routes && r.stealth == stealth
            && (forall x :: x in routes && x.stealth == stealth ==> x.prefix.len <= r.prefix.len)
            && table.Lookup(ip).Some?
            && table.Lookup(ip).value.prefix.len >= r.prefix.len
            && (Best(routes, ip, i) ==> (table.Lookup(ip).value.stealth == stealth <==> routes[i].stealth == stealth))
            && (table.Lookup(ip).value.stealth != stealth ==>
                  exists k, m :: && 0 <= k < |routes| && 0 <= m < |routes| && routes[m] == r
                                 && routes[k].stealth != stealth && routes[k].prefix.Contains(ip)
                                 && (routes[k].prefix.len > r.prefix.len ||
                                     (routes[k].prefix.len == r.prefix.len && k < m)))
  {
    var r := table.ReverseLookup(stealth).value;
    var ip := IpAddr(r.prefix.family, r.prefix.addr);
    FirstOfLongest(table.routes, stealth);
    StableSortMembers(table.routes, routes, r);
    forall x | x in routes && x.stealth == stealth ensures x.prefix.len <= r.prefix.len {
      StableSortMembers(table.routes, routes, x);
    }
    OwnAddressInside(r.prefix);
    var m :| 0 <= m < |routes| && routes[m] == r;
    LongestPrefixMatch(table.routes, routes, ip);
    assert routes[m].prefix.Contains(ip);
    var k := BestExists(routes, ip);
    assert table.Lookup(ip) == Some(routes[k]);
    if routes[k].stealth != stealth {
      assert k <= m || routes[k].prefix.len > routes[m].prefix.len;
      assert routes[k] != routes[m];
    }
  }
}
