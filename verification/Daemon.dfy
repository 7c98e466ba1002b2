/**
 applyState: network profiles to per-route decisions, and from those the table,
 the supervisors and a PAC program that is regenerated only when something changed.
 */
module Daemon {
  import opened Common
  import opened Text
  import opened Routing

  // ---- netstate.Evaluate ----

  /** A snapshot of the network; None where a field could not be determined. */
  datatype NetState = NetState(ssid: string, gateway: string, address: Option<Ip4>)

  datatype Profile = Profile(name: string, ssid: string, gateway: string, subnet: Option<Subnet>)

  predicate ProfileMatches(p: Profile, ns: NetState) {
    if p.ssid == "" && p.gateway == "" && p.subnet == None then false
    else if p.ssid != "" && p.ssid != ns.ssid then false
    else if p.gateway != "" && p.gateway != ns.gateway then false
    else if p.subnet.Some? && !AddressInSubnet(ns.address, p.subnet.value) then false
    else true
  }

  predicate AddressInSubnet(address: Option<Ip4>, subnet: Subnet) {
    address.Some? && subnet.Cidr? && InNet(address.value, And(subnet.addr, Mask(subnet.bits)), Mask(subnet.bits))
  }

  /** The name of the first matching profile, and whether the jump host is needed. */
  function Evaluate(profiles: seq<Profile>, ns: NetState): (string, bool) {
    if profiles == [] then ("", true)
    else if ProfileMatches(profiles[0], ns) then (profiles[0].name, false)
    else Evaluate(profiles[1..], ns)
  }

  /** Every criterion a profile states holds, and it states at least one. */
  ghost predicate Meets(p: Profile, ns: NetState) {
    && (p.ssid != "" || p.gateway != "" || p.subnet.Some?)
    && (p.ssid != "" ==> ns.ssid == p.ssid)
    && (p.gateway != "" ==> ns.gateway == p.gateway)
    && (p.subnet.Some? ==> Inside(p.subnet.value, ns.address))
  }

  /** Direct exactly when some profile's criteria all hold, under the name of the first such profile. */
  lemma {:induction false} EvaluateIsFirstMatch(profiles: seq<Profile>, ns: NetState)
    ensures Evaluate(profiles, ns).1 <==> forall p :: p in profiles ==> !Meets(p, ns)
    ensures !Evaluate(profiles, ns).1 ==>
      exists i :: 0 <= i < |profiles| && Meets(profiles[i], ns) && Evaluate(profiles, ns).0 == profiles[i].name
                  && forall j :: 0 <= j < i ==> !Meets(profiles[j], ns)
  {
    if profiles != [] {
      MatchesIsMeets(profiles[0], ns);
      var rest := profiles[1..];
      EvaluateIsFirstMatch(rest, ns);
      if !Meets(profiles[0], ns) && !Evaluate(rest, ns).1 {
        var i :| 0 <= i < |rest| && Meets(rest[i], ns) && Evaluate(rest, ns).0 == rest[i].name
                 && forall j :: 0 <= j < i ==> !Meets(rest[j], ns);
        assert profiles[i + 1] == rest[i];
        assert forall j :: 0 < j < i + 1 ==> profiles[j] == rest[j - 1];
      }
      assert forall p :: p in profiles <==> p == profiles[0] || p in rest;
    }
  }

  lemma {:induction false} MatchesIsMeets(p: Profile, ns: NetState)
    ensures ProfileMatches(p, ns) <==> Meets(p, ns)
  {
    if p.subnet.Some? && p.subnet.value.Cidr? && ns.address.Some? {
      var s := p.subnet.value;
      MaskIsPrefix(s.addr, s.bits, ns.address.value);
      assert And(s.addr, Mask(s.bits))[..s.bits] == s.addr[..s.bits];
    }
  }

  // ---- applyState ----

  datatype Managed = Managed(route: Route, profiles: seq<Profile>, keepTunnel: bool)

  datatype Config = Config(managed: seq<Managed>, pacEnabled: bool, proxyEnabled: bool, front: string)
  {
    function Routes(): (rs: seq<Route>)
      ensures |rs| == |managed|
    {
      seq(|managed|, i requires 0 <= i < |managed| => managed[i].route)
    }
  }

  datatype Served = Served(
    last: map<string, bool>,       // lastProxyNeeded
    table: map<string, bool>,      // the proxy table's state
    pac: Option<seq<Branch>>,      // the PAC program being served, None before the first
    desired: seq<bool>)            // what each supervisor was last told

  function Initial(cfg: Config): Served {
    Served(map[], map[], None, seq(|cfg.managed|, i => false))
  }

  function Needed(m: Managed, ns: NetState): bool {
    Evaluate(m.profiles, ns).1
  }

  function Decisions(managed: seq<Managed>, ns: NetState): map<string, bool> {
    if managed == [] then map[]
    else
      var m := managed[|managed| - 1];
      Decisions(managed[..|managed| - 1], ns)[m.route.name := Needed(m, ns)]
  }

  function DesiredNow(managed: seq<Managed>, ns: NetState): seq<bool> {
    seq(|managed|, i requires 0 <= i < |managed| => Needed(managed[i], ns) || managed[i].keepTunnel)
  }

  /** The loop over the supervisors: the remembered decisions and whether any of them was new. */
  function Scan(managed: seq<Managed>, ns: NetState, last: map<string, bool>): (map<string, bool>, bool) {
    if managed == [] then (last, false)
    else
      var (m, changed) := Scan(managed[..|managed| - 1], ns, last);
      var r := managed[|managed| - 1];
      if r.route.name in m && m[r.route.name] == Needed(r, ns) then (m, changed)
      else (m[r.route.name := Needed(r, ns)], true)
  }

  /** One applyState; a failed query changes nothing. */
  function Applied(cfg: Config, s: Served, query: Option<NetState>): Served {
    match query
    case None => s
    case Some(ns) =>
      var decisions := Decisions(cfg.managed, ns);
      var (last, changed) := Scan(cfg.managed, ns, s.last);
      Served(last,
             if cfg.proxyEnabled then decisions else s.table,
             if changed && cfg.pacEnabled then Some(Compile(cfg.Routes(), decisions, cfg.front)) else s.pac,
             DesiredNow(cfg.managed, ns))
  }

  function AppliedAll(cfg: Config, queries: seq<Option<NetState>>): Served {
    if queries == [] then Initial(cfg)
    else Applied(cfg, AppliedAll(cfg, queries[..|queries| - 1]), queries[|queries| - 1])
  }

  /** The newest snapshot a query delivered. */
  function Newest(queries: seq<Option<NetState>>): Option<NetState> {
    if queries == [] then None
    else if queries[|queries| - 1].Some? then queries[|queries| - 1]
    else Newest(queries[..|queries| - 1])
  }

  // ---- The incremental state is the full one ----

  lemma {:induction false} DecisionKeys(managed: seq<Managed>, ns: NetState)
    ensures forall name :: name in Decisions(managed, ns) <==> exists m :: m in managed && m.route.name == name
  {
    hide Needed;
    if managed != [] {
      var n := |managed| - 1;
      DecisionKeys(managed[..n], ns);
      assert managed == managed[..n] + [managed[n]];
      assert forall m :: m in managed <==> m in managed[..n] || m == managed[n];
    }
  }

  /** Whatever was remembered, afterwards the new decisions are, and nothing new means they already were. */
  lemma {:induction false} ScanMerges(managed: seq<Managed>, ns: NetState, last: map<string, bool>)
    ensures Scan(managed, ns, last).0 == last + Decisions(managed, ns)
    ensures !Scan(managed, ns, last).1 ==> last + Decisions(managed, ns) == last
    ensures !Scan(managed, ns, last).1 ==> Decisions(managed, ns).Keys <= last.Keys
  {
    hide Needed;
    if managed != [] {
      var n := |managed| - 1;
      ScanMerges(managed[..n], ns, last);
      MergeOne(last, Decisions(managed[..n], ns), managed[n].route.name, Needed(managed[n], ns));
    }
  }

  /** The decision for a route is not the remembered one. */
  predicate IsNews(m: Managed, ns: NetState, last: map<string, bool>) {
    m.route.name !in last || last[m.route.name] != Needed(m, ns)
  }

  ghost predicate AnyNews(managed: seq<Managed>, ns: NetState, last: map<string, bool>) {
    exists m :: m in managed && IsNews(m, ns, last)
  }

  lemma OneMoreManaged(managed: seq<Managed>, m: Managed, ns: NetState, last: map<string, bool>)
    ensures AnyNews(managed + [m], ns, last) <==> AnyNews(managed, ns, last) || IsNews(m, ns, last)
  {
    hide IsNews;
    assert m in managed + [m];
    assert forall x :: x in managed ==> x in managed + [m];
  }

  lemma NameIsNew(managed: seq<Managed>, ns: NetState, n: nat)
    requires n < |managed| && forall x :: 0 <= x < n ==> managed[x].route.name != managed[n].route.name
    ensures managed[n].route.name !in Decisions(managed[..n], ns)
  {
    hide Decisions;
    DecisionKeys(managed[..n], ns);
  }

  /** With unique route names `changed` says exactly whether some route's decision was not remembered so. */
  lemma {:induction false} ChangedIff(managed: seq<Managed>, ns: NetState, last: map<string, bool>)
    requires forall x, y :: 0 <= x < y < |managed| ==> managed[x].route.name != managed[y].route.name
    ensures Scan(managed, ns, last).1 <==> AnyNews(managed, ns, last)
  {
    hide Needed, AnyNews, Decisions;
    if managed == [] {
      NoNews(ns, last);
    } else {
      var n := |managed| - 1;
      ChangedIff(managed[..n], ns, last);
      ScanMerges(managed[..n], ns, last);
      NameIsNew(managed, ns, n);
      assert managed == managed[..n] + [managed[n]];
      OneMoreManaged(managed[..n], managed[n], ns, last);
    }
  }

  lemma NoNews(ns: NetState, last: map<string, bool>)
    ensures !AnyNews([], ns, last)
  {
  }

  lemma MergeOne(last: map<string, bool>, now: map<string, bool>, name: string, needed: bool)
    ensures (last + now)[name := needed] == last + now[name := needed]
    ensures name in last + now && (last + now)[name] == needed ==> last + now[name := needed] == last + now
  {
  }

  /** The PAC program generated anew from a snapshot. */
  function FullPac(cfg: Config, ns: NetState): seq<Branch> {
    Compile(cfg.Routes(), Decisions(cfg.managed, ns), cfg.front)
  }

  /** What is served once a snapshot has been seen. */
  ghost predicate UpToDate(cfg: Config, s: Served, ns: NetState) {
    && s.last == Decisions(cfg.managed, ns)
    && s.desired == DesiredNow(cfg.managed, ns)
    && (cfg.proxyEnabled ==> s.table == Decisions(cfg.managed, ns))
    && s.pac == if cfg.pacEnabled && cfg.managed != [] then Some(FullPac(cfg, ns)) else None
  }

  lemma {:induction false} SameKeysMerge(a: map<string, bool>, b: map<string, bool>)
    requires a.Keys <= b.Keys
    ensures a + b == b
  {
  }

  lemma {:induction false} ApplyIsUpToDate(cfg: Config, s: Served, before: Option<NetState>, ns: NetState)
    requires if before.Some? then UpToDate(cfg, s, before.value) else s == Initial(cfg)
    ensures UpToDate(cfg, Applied(cfg, s, Some(ns)), ns)
  {
    var now := Decisions(cfg.managed, ns);
    ScanMerges(cfg.managed, ns, s.last);
    DecisionKeys(cfg.managed, ns);
    if before.Some? {
      DecisionKeys(cfg.managed, before.value);
      assert s.last.Keys == now.Keys;
      SameKeysMerge(s.last, now);
    } else {
      SameKeysMerge(s.last, now);
      if cfg.managed != [] {
        assert cfg.managed[0] in cfg.managed && cfg.managed[0].route.name in now;
      }
    }
  }

  /**
   Over any history of queries, failures included: once one has succeeded, the table, the supervisors
   and the PAC program are those of the newest snapshot, as if everything were regenerated each time.
   Before that, nothing is served; and with no routes there is never a PAC program at all.
   */
  lemma {:induction false} IncrementalIsFull(cfg: Config, queries: seq<Option<NetState>>)
    ensures match Newest(queries)
            case None => AppliedAll(cfg, queries) == Initial(cfg)
            case Some(ns) => UpToDate(cfg, AppliedAll(cfg, queries), ns)
  {
    if queries != [] {
      var n := |queries| - 1;
      IncrementalIsFull(cfg, queries[..n]);
      if queries[n].Some? {
        ApplyIsUpToDate(cfg, AppliedAll(cfg, queries[..n]), Newest(queries[..n]), queries[n].value);
      }
    }
  }

  /** The PAC program served is the full regeneration exactly when there is a route to generate for. */
  lemma {:induction false} PacIsServedIff(cfg: Config, queries: seq<Option<NetState>>)
    requires cfg.pacEnabled && Newest(queries).Some?
    ensures AppliedAll(cfg, queries).pac == Some(FullPac(cfg, Newest(queries).value)) <==> cfg.managed != []
  {
    IncrementalIsFull(cfg, queries);
  }

  lemma {:induction false} EntryNames(routes: seq<Route>, address: Option<Ip4>, host: string)
    ensures match FirstMatch(Entries(routes), address, host)
            case None => true
            case Some(e) => exists r :: r in routes && r.name == e.name
  {
    if routes != [] {
      var n := |routes| - 1;
      EntryNames(routes[..n], address, host);
      assert routes == routes[..n] + [routes[n]];
      if routes[n].socks.Some? {
        FirstMatchAppend(Entries(routes[..n]), [EntryOf(routes[n])], address, host);
        assert routes[n] in routes;
      }
    }
  }

  /** After any history with a success in it every route's state is recorded. */
  lemma {:induction false} AllRoutesCovered(cfg: Config, ns: NetState, names: Names, host: string)
    ensures Covered(Decisions(cfg.managed, ns), RouteFor(cfg.Routes(), names, host))
  {
    DecisionKeys(cfg.managed, ns);
    EntryNames(cfg.Routes(), TableAddress(names, Normal(host)), Normal(host));
    assert forall i :: 0 <= i < |cfg.managed| ==>
             cfg.managed[i] in cfg.managed && cfg.Routes()[i] == cfg.managed[i].route;
  }

  /**
   The whole daemon: after any history of queries with a success in it, the PAC program being served,
   followed through the front door, sends every host where the proxy's table sends it, provided both
   decide by the same route; and in general exactly when the program sends the host to the proxy or the
   table means it to go direct.
   */
  lemma {:induction false} ServedPacFollowsServedTable(cfg: Config, queries: seq<Option<NetState>>,
      names: Names, host: string)
    requires cfg.pacEnabled && cfg.proxyEnabled && cfg.front != "" && cfg.managed != [] && Newest(queries).Some?
    requires '/' !in host && Fragment(cfg.Routes())
    ensures var s := AppliedAll(cfg, queries);
      var d := Decided(Entries(cfg.Routes()), s.table, names, host);
      && s.pac.Some?
      && var followed := FrontVia(Eval(s.pac.value, names, host), cfg.front, d);
         && (SameRoute(cfg.Routes(), names, host) ==> followed == TableVia(d))
         && (followed == TableVia(d) <==>
               Proxied(s.table, PacMatch(cfg.Routes(), names, host)) || TableVia(d) == Directly)
  {
    hide Compile, Entries, PacMatch, RouteFor, SameRoute;
    IncrementalIsFull(cfg, queries);
    var ns := Newest(queries).value;
    AllRoutesCovered(cfg, ns, names, host);
    FrontDoorAgrees(cfg.Routes(), Decisions(cfg.managed, ns), cfg.front, names, host);
  }

  // ---- What is served, said by profiles and snapshots ----

  /** The newest snapshot is that of query k: later ones failed. */
  ghost predicate NewestIs(queries: seq<Option<NetState>>, k: nat, ns: NetState) {
    && k < |queries| && queries[k] == Some(ns)
    && forall j :: k < j < |queries| ==> queries[j] == None
  }

  /** Some profile of the route states criteria, all of which the snapshot meets. */
  ghost predicate AtHome(m: Managed, ns: NetState) {
    exists p :: p in m.profiles && Meets(p, ns)
  }

  lemma {:induction false} NewestIsNewest(queries: seq<Option<NetState>>, k: nat, ns: NetState)
    requires NewestIs(queries, k, ns)
    ensures Newest(queries) == Some(ns)
  {
    var n := |queries| - 1;
    if k < n {
      NewestIsNewest(queries[..n], k, ns);
    }
  }

  lemma {:induction false} NoneIsNewest(queries: seq<Option<NetState>>)
    requires forall j :: 0 <= j < |queries| ==> queries[j] == None
    ensures Newest(queries) == None
  {
    if queries != [] {
      NoneIsNewest(queries[..|queries| - 1]);
    }
  }

  /** The last route of a name decides for it. */
  lemma {:induction false} LastDecides(managed: seq<Managed>, ns: NetState, i: nat)
    requires i < |managed| && forall j :: i < j < |managed| ==> managed[j].route.name != managed[i].route.name
    ensures managed[i].route.name in Decisions(managed, ns)
    ensures Decisions(managed, ns)[managed[i].route.name] <==> !AtHome(managed[i], ns)
  {
    var n := |managed| - 1;
    if i < n {
      LastDecides(managed[..n], ns, i);
    } else {
      EvaluateIsFirstMatch(managed[n].profiles, ns);
    }
  }

  /**
   After any history of queries with a success in it, by the newest snapshot alone: a supervisor is told
   to run its tunnel exactly if no profile of its route is met or the tunnel is to be kept; the table
   calls a route's name direct exactly if a profile of the (last) route of that name is met, and holds
   exactly the configured names.
   */
  lemma {:induction false} ServedByProfiles(cfg: Config, queries: seq<Option<NetState>>, k: nat, ns: NetState)
    requires NewestIs(queries, k, ns)
    ensures var s := AppliedAll(cfg, queries);
      && |s.desired| == |cfg.managed|
      && (forall i :: 0 <= i < |cfg.managed| ==>
            (s.desired[i] <==> cfg.managed[i].keepTunnel || !AtHome(cfg.managed[i], ns)))
      && (cfg.proxyEnabled ==>
            && (forall name :: name in s.table <==> exists m :: m in cfg.managed && m.route.name == name)
            && (forall i :: 0 <= i < |cfg.managed|
                            && (forall j :: i < j < |cfg.managed| ==>
                                  cfg.managed[j].route.name != cfg.managed[i].route.name) ==>
                  (s.table[cfg.managed[i].route.name] <==> !AtHome(cfg.managed[i], ns))))
  {
    NewestIsNewest(queries, k, ns);
    IncrementalIsFull(cfg, queries);
    DecisionKeys(cfg.managed, ns);
    forall i | 0 <= i < |cfg.managed| ensures Needed(cfg.managed[i], ns) <==> !AtHome(cfg.managed[i], ns) {
      EvaluateIsFirstMatch(cfg.managed[i].profiles, ns);
    }
    forall i | 0 <= i < |cfg.managed|
               && (forall j :: i < j < |cfg.managed| ==> cfg.managed[j].route.name != cfg.managed[i].route.name)
      ensures cfg.managed[i].route.name in Decisions(cfg.managed, ns)
      ensures Decisions(cfg.managed, ns)[cfg.managed[i].route.name] <==> !AtHome(cfg.managed[i], ns)
    {
      LastDecides(cfg.managed, ns, i);
    }
    hide Decisions, Needed, AtHome, AppliedAll, Compile;
  }

  /** Before any query has succeeded nothing is served and no tunnel is wanted. */
  lemma {:induction false} NothingServedBefore(cfg: Config, queries: seq<Option<NetState>>)
    requires forall j :: 0 <= j < |queries| ==> queries[j] == None
    ensures var s := AppliedAll(cfg, queries);
      s.table == map[] && s.pac == None && forall i :: 0 <= i < |s.desired| ==> !s.desired[i]
  {
    NoneIsNewest(queries);
    IncrementalIsFull(cfg, queries);
  }

  /**
   So at the proxy, after any such history and with unique route names, a host goes to the first route
   with a SOCKS listener that serves it: directly if a profile of that route is met by the newest
   snapshot, through that route's own listener otherwise; and a host no route serves goes directly.
   */
  lemma {:induction false} HostGoesHomeOrThrough(cfg: Config, queries: seq<Option<NetState>>, k: nat, ns: NetState,
      names: Names, host: string, h: string, i: nat)
    requires NewestIs(queries, k, ns) && cfg.proxyEnabled && Means(host, h)
    requires forall x, y :: 0 <= x < y < |cfg.managed| ==> cfg.managed[x].route.name != cfg.managed[y].route.name
    ensures var d := Decided(Entries(cfg.Routes()), AppliedAll(cfg, queries).table, names, host);
      && (FirstServing(cfg.Routes(), names, h, i) ==>
            var m := cfg.managed[i];
            d.upstream == if AtHome(m, ns) then ""
                          else JoinHostPort(m.route.socks.value.bind, m.route.socks.value.port))
      && ((forall n: nat :: !FirstServing(cfg.Routes(), names, h, n)) ==> d.upstream == "")
  {
    hide Decided, AppliedAll, Serves, AtHome;
    ServedByProfiles(cfg, queries, k, ns);
    TableServes(cfg.Routes(), AppliedAll(cfg, queries).table, names, host, h, i);
    if i < |cfg.managed| {
      assert cfg.managed[i] in cfg.managed;
    }
  }

  /** And at the browser: to the proxy for the first route that serves the host as spelled, unless it is at home. */
  lemma {:induction false} BrowserGoesHomeOrThrough(cfg: Config, queries: seq<Option<NetState>>, k: nat, ns: NetState,
      names: Names, host: string, i: nat)
    requires NewestIs(queries, k, ns) && cfg.pacEnabled && '/' !in host && Fragment(cfg.Routes())
    requires forall x, y :: 0 <= x < y < |cfg.managed| ==> cfg.managed[x].route.name != cfg.managed[y].route.name
    requires FirstPacServing(cfg.Routes(), names, host, i)
    ensures var s := AppliedAll(cfg, queries);
      var m := cfg.managed[i];
      && s.pac.Some?
      && Eval(s.pac.value, names, host)
         == if AtHome(m, ns) then Direct
            else if cfg.front != "" then Socks5(cfg.front)
            else Socks5(JoinHostPort(m.route.socks.value.bind, m.route.socks.value.port))
  {
    hide AppliedAll, PacServes, AtHome, Eval, Compile;
    NewestIsNewest(queries, k, ns);
    IncrementalIsFull(cfg, queries);
    LastDecides(cfg.managed, ns, i);
    PacServesFirst(cfg.Routes(), Decisions(cfg.managed, ns), cfg.front, names, host, i);
  }

  // ---- The fields and the loop as they are written ----

  class Loop {
    const cfg: Config
    var last: map<string, bool>
    var table: map<string, bool>
    var pac: Option<seq<Branch>>
    var desired: seq<bool>

    function View(): Served
      reads this
    {
      Served(last, table, pac, desired)
    }

    constructor (cfg: Config)
      ensures this.cfg == cfg && View() == Initial(cfg)
    {
      this.cfg := cfg;
      last, table, pac := map[], map[], None;
      desired := seq(|cfg.managed|, i => false);
    }

    method ApplyState(query: Option<NetState>)
      requires |desired| == |cfg.managed|
      modifies this
      ensures View() == Applied(cfg, old(View()), query)
    {
      if query.None? {
        return;
      }
      var ns := query.value;
      var changed := false;
      var decisions: map<string, bool> := map[];
      ghost var before := last;
      for i := 0 to |cfg.managed|
        invariant |desired| == |cfg.managed| && table == old(table) && pac == old(pac)
        invariant decisions == Decisions(cfg.managed[..i], ns)
        invariant (last, changed) == Scan(cfg.managed[..i], ns, before)
        invariant forall k :: 0 <= k < i ==> desired[k] == DesiredNow(cfg.managed, ns)[k]
      {
        var m := cfg.managed[i];
        assert cfg.managed[..i + 1][..i] == cfg.managed[..i];
        var (_, needed) := Evaluate(m.profiles, ns);
        decisions := decisions[m.route.name := needed];
        if m.route.name !in last || last[m.route.name] != needed {
          changed := true;
          last := last[m.route.name := needed];
        }
        desired := desired[i := needed || m.keepTunnel];
      }
      assert cfg.managed[..|cfg.managed|] == cfg.managed;
      assert desired == DesiredNow(cfg.managed, ns);
      if cfg.proxyEnabled {
        table := decisions;
      }
      if changed && cfg.pacEnabled {
        var program := Generate(cfg.Routes(), decisions, cfg.front);
        pac := Some(program);
      }
    }
  }
}
