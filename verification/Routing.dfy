/**
 The routing decision, made twice: by the proxy's table at connect time and by
 the PAC program the daemon generates. The PAC program is a syntax tree here;
 evaluating it is what a browser does with the JavaScript.
 */
module Routing {
  import opened Common
  import opened Text

  // ---- Host patterns: literals, `*` and `?` ----

  /** Neither a character class nor an escape: both matchers take every other character as itself. */
  predicate InFragment(p: string) {
    '[' !in p && '\\' !in p
  }

  /** path.Match, on patterns in the fragment: a wildcard never matches a slash. */
  predicate PathMatch(p: string, h: string)
    decreases |p| + |h|
  {
    if p == [] then h == []
    else if p[0] == '*' then PathMatch(p[1..], h) || (h != [] && h[0] != '/' && PathMatch(p, h[1..]))
    else h != [] && (if p[0] == '?' then h[0] != '/' else p[0] == h[0]) && PathMatch(p[1..], h[1..])
  }

  /** shExpMatch: a wildcard matches anything. */
  predicate ShExpMatch(p: string, h: string)
    decreases |p| + |h|
  {
    if p == [] then h == []
    else if p[0] == '*' then ShExpMatch(p[1..], h) || (h != [] && ShExpMatch(p, h[1..]))
    else h != [] && (p[0] == '?' || p[0] == h[0]) && ShExpMatch(p[1..], h[1..])
  }

  lemma {:induction false} MatchersAgree(p: string, h: string)
    requires '/' !in h && InFragment(p)
    ensures PathMatch(p, h) == ShExpMatch(p, h)
    decreases |p| + |h|
  {
    if p != [] {
      if p[0] == '*' {
        MatchersAgree(p[1..], h);
      }
      if h != [] {
        MatchersAgree(p, h[1..]);
        MatchersAgree(p[1..], h[1..]);
      }
    }
  }

  // ---- IPv4 subnets; addresses are 32 bits, most significant first ----

  type Ip4 = b: seq<bool> | |b| == 32 witness seq(32, i => false)

  type PrefixLength = n: nat | n <= 32

  datatype Subnet = Unparsable | Cidr(addr: Ip4, bits: PrefixLength)

  function And(a: Ip4, b: Ip4): Ip4 {
    seq(32, i requires 0 <= i < 32 => a[i] && b[i])
  }

  /** net.CIDRMask. */
  function Mask(bits: PrefixLength): Ip4 {
    seq(32, i => i < bits)
  }

  /** netip's Prefix.Contains: shifting away the host bits of the difference leaves nothing. */
  predicate PrefixContains(network: Ip4, bits: PrefixLength, a: Ip4) {
    a[..bits] == network[..bits]
  }

  /** isInNet once the host is an address: equal under the mask. */
  predicate InNet(a: Ip4, network: Ip4, mask: Ip4) {
    And(a, mask) == And(network, mask)
  }

  /** The masked comparison of the PAC program is the prefix test of the table, for every prefix length. */
  lemma {:induction false} MaskIsPrefix(addr: Ip4, bits: PrefixLength, a: Ip4)
    ensures InNet(a, And(addr, Mask(bits)), Mask(bits)) <==> PrefixContains(And(addr, Mask(bits)), bits, a)
  {
    var network := And(addr, Mask(bits));
    if PrefixContains(network, bits, a) {
      forall i | 0 <= i < 32 ensures And(a, Mask(bits))[i] == And(network, Mask(bits))[i] {
        if i < bits {
          assert a[i] == a[..bits][i] == network[..bits][i];
        }
      }
    }
    if InNet(a, network, Mask(bits)) {
      forall i | 0 <= i < bits ensures a[..bits][i] == network[..bits][i] {
        assert And(a, Mask(bits))[i] == And(network, Mask(bits))[i];
      }
    }
  }

  // ---- Hosts ----

  datatype Literal = V4(a: Ip4) | Mapped(a: Ip4) | V6

  /** Address literals, and the browser's resolver. */
  datatype Names = Names(literal: string -> Option<Literal>, lookup: string -> Option<Ip4>)

  /** The address the table tests: a literal, unmapped; never a lookup. */
  function TableAddress(names: Names, host: string): Option<Ip4> {
    match names.literal(host)
    case Some(V4(a)) => Some(a)
    case Some(Mapped(a)) => Some(a)
    case _ => None
  }

  /** The address isInNet tests: an IPv4 literal, or what the browser resolves the name to. */
  function PacAddress(names: Names, host: string): Option<Ip4> {
    match names.literal(host)
    case Some(V4(a)) => Some(a)
    case Some(_) => None
    case None => names.lookup(host)
  }

  // ---- Configuration ----

  datatype Listener = Listener(bind: string, port: int)

  datatype Route = Route(name: string, patterns: seq<string>, subnets: seq<Subnet>, socks: Option<Listener>)

  function LowerAll(ps: seq<string>): (qs: seq<string>)
    ensures |qs| == |ps| && forall i :: 0 <= i < |ps| ==> qs[i] == ToLower(ps[i])
  {
    seq(|ps|, i requires 0 <= i < |ps| => ToLower(ps[i]))
  }

  // ---- The table ----

  datatype Entry = Entry(name: string, upstream: string, patterns: seq<string>, subnets: seq<(Ip4, PrefixLength)>)

  function MaskedSubnets(ss: seq<Subnet>): seq<(Ip4, PrefixLength)> {
    if ss == [] then []
    else
      var rest := MaskedSubnets(ss[..|ss| - 1]);
      match ss[|ss| - 1]
      case Unparsable => rest
      case Cidr(a, bits) => rest + [(And(a, Mask(bits)), bits)]
  }

  function EntryOf(r: Route): Entry
    requires r.socks.Some?
  {
    Spelled(r).(patterns := LowerAll(r.patterns))
  }

  /** The entry as the PAC program sees it, with the patterns as they are spelled. */
  function Spelled(r: Route): Entry
    requires r.socks.Some?
  {
    Entry(r.name, JoinHostPort(r.socks.value.bind, r.socks.value.port), r.patterns, MaskedSubnets(r.subnets))
  }

  /** One entry per route with a SOCKS listener, in order. */
  function Entries(routes: seq<Route>): seq<Entry> {
    if routes == [] then []
    else
      var rest := Entries(routes[..|routes| - 1]);
      var r := routes[|routes| - 1];
      if r.socks.None? then rest else rest + [EntryOf(r)]
  }

  function SpelledEntries(routes: seq<Route>): seq<Entry> {
    if routes == [] then []
    else
      var rest := SpelledEntries(routes[..|routes| - 1]);
      var r := routes[|routes| - 1];
      if r.socks.None? then rest else rest + [Spelled(r)]
  }

  predicate AnyPattern(ps: seq<string>, host: string) {
    exists i :: 0 <= i < |ps| && PathMatch(ps[i], host)
  }

  predicate AnyPrefix(ss: seq<(Ip4, PrefixLength)>, a: Option<Ip4>) {
    a.Some? && exists i :: 0 <= i < |ss| && PrefixContains(ss[i].0, ss[i].1, a.value)
  }

  predicate EntryMatches(e: Entry, address: Option<Ip4>, host: string) {
    AnyPattern(e.patterns, host) || AnyPrefix(e.subnets, address)
  }

  function FirstMatch(es: seq<Entry>, address: Option<Ip4>, host: string): Option<Entry> {
    if es == [] then None
    else if EntryMatches(es[0], address, host) then Some(es[0])
    else FirstMatch(es[1..], address, host)
  }

  /** The table's match: on the normalised host, by address only if the host is a literal. */
  function TableMatch(es: seq<Entry>, names: Names, host: string): Option<Entry> {
    FirstMatch(es, TableAddress(names, Normal(host)), Normal(host))
  }

  /** An empty route is no match; an empty upstream is a direct dial. */
  datatype Decision = Decision(route: string, upstream: string)

  function Decided(es: seq<Entry>, needed: map<string, bool>, names: Names, host: string): Decision {
    match TableMatch(es, names, host)
    case None => Decision("", "")
    case Some(e) =>
      if e.name in needed && !needed[e.name] then Decision(e.name, "") else Decision(e.name, e.upstream)
  }

  // ---- The PAC program ----

  datatype Test = ShExp(pattern: string) | IsInNet(network: Ip4, mask: Ip4)

  datatype ProxyValue = Direct | Socks5(addr: string)  // "SOCKS5 addr; DIRECT"

  datatype Branch = Branch(test: Test, value: ProxyValue)

  predicate Passes(t: Test, names: Names, host: string) {
    match t
    case ShExp(p) => ShExpMatch(p, host)
    case IsInNet(network, mask) =>
      match PacAddress(names, host) case None => false case Some(a) => InNet(a, network, mask)
  }

  /** FindProxyForURL: the first branch that passes, DIRECT when none does. */
  function Eval(program: seq<Branch>, names: Names, host: string): ProxyValue {
    if program == [] then Direct
    else if Passes(program[0].test, names, host) then program[0].value
    else Eval(program[1..], names, host)
  }

  function ValueOf(r: Route, needed: map<string, bool>, front: string): ProxyValue
    requires r.socks.Some?
  {
    if r.name in needed && needed[r.name] then
      Socks5(if front == "" then JoinHostPort(r.socks.value.bind, r.socks.value.port) else front)
    else Direct
  }

  function PatternBranches(ps: seq<string>, value: ProxyValue): seq<Branch> {
    seq(|ps|, i requires 0 <= i < |ps| => Branch(ShExp(ps[i]), value))
  }

  function SubnetBranches(ss: seq<Subnet>, value: ProxyValue): seq<Branch> {
    if ss == [] then []
    else
      var rest := SubnetBranches(ss[..|ss| - 1], value);
      match ss[|ss| - 1]
      case Unparsable => rest
      case Cidr(a, bits) => rest + [Branch(IsInNet(And(a, Mask(bits)), Mask(bits)), value)]
  }

  function RouteBranches(r: Route, needed: map<string, bool>, front: string): seq<Branch> {
    if r.socks.None? then []
    else
      var value := ValueOf(r, needed, front);
      PatternBranches(r.patterns, value) + SubnetBranches(r.subnets, value)
  }

  function Compile(routes: seq<Route>, needed: map<string, bool>, front: string): seq<Branch> {
    if routes == [] then []
    else Compile(routes[..|routes| - 1], needed, front) + RouteBranches(routes[|routes| - 1], needed, front)
  }

  // ---- Agreement ----

  /** Membership of a subnet, by definition. */
  ghost predicate Inside(s: Subnet, a: Option<Ip4>) {
    s.Cidr? && a.Some? && a.value[..s.bits] == s.addr[..s.bits]
  }

  /** Every pattern means the same to both matchers. */
  ghost predicate Fragment(routes: seq<Route>) {
    forall r, p :: r in routes && p in r.patterns ==> InFragment(p)
  }

  ghost predicate AnyPasses(bs: seq<Branch>, names: Names, host: string) {
    exists i :: 0 <= i < |bs| && Passes(bs[i].test, names, host)
  }

  lemma {:induction false} EvalAppend(a: seq<Branch>, b: seq<Branch>, names: Names, host: string)
    ensures Eval(a + b, names, host) == if AnyPasses(a, names, host) then Eval(a, names, host) else Eval(b, names, host)
    ensures AnyPasses(a + b, names, host) <==> AnyPasses(a, names, host) || AnyPasses(b, names, host)
  {
    if a == [] {
      assert a + b == b;
    } else {
      assert (a + b)[1..] == a[1..] + b;
      EvalAppend(a[1..], b, names, host);
      assert AnyPasses(a, names, host) <==> Passes(a[0].test, names, host) || AnyPasses(a[1..], names, host) by {
        if Passes(a[0].test, names, host) || AnyPasses(a[1..], names, host) {
          var i :| 0 <= i < |a| && Passes(a[i].test, names, host);
        }
      }
      assert AnyPasses(a + b, names, host) <==> AnyPasses(a, names, host) || AnyPasses(b, names, host) by {
        if j :| 0 <= j < |b| && Passes(b[j].test, names, host) {
          assert (a + b)[|a| + j] == b[j];
        }
        if i :| 0 <= i < |a| && Passes(a[i].test, names, host) {
          assert (a + b)[i] == a[i];
        }
      }
    }
  }

  /** Branches with one value yield it as soon as any of them passes. */
  lemma {:induction false} EvalUniform(bs: seq<Branch>, value: ProxyValue, names: Names, host: string)
    requires forall i :: 0 <= i < |bs| ==> bs[i].value == value
    ensures AnyPasses(bs, names, host) ==> Eval(bs, names, host) == value
  {
    if bs != [] && !Passes(bs[0].test, names, host) {
      EvalUniform(bs[1..], value, names, host);
      if i :| 0 <= i < |bs| && Passes(bs[i].test, names, host) {
        assert bs[1..][i - 1] == bs[i];
      }
    }
  }

  lemma {:induction false} FirstMatchAppend(a: seq<Entry>, b: seq<Entry>, address: Option<Ip4>, host: string)
    ensures FirstMatch(a + b, address, host)
         == if FirstMatch(a, address, host).Some? then FirstMatch(a, address, host) else FirstMatch(b, address, host)
  {
    if a == [] {
      assert a + b == b;
    } else {
      assert (a + b)[1..] == a[1..] + b;
      FirstMatchAppend(a[1..], b, address, host);
    }
  }

  ghost predicate InsideAny(ss: seq<Subnet>, a: Option<Ip4>) {
    exists s :: s in ss && Inside(s, a)
  }

  lemma InsideLast(ss: seq<Subnet>, last: Subnet, a: Option<Ip4>)
    ensures InsideAny(ss + [last], a) <==> InsideAny(ss, a) || Inside(last, a)
  {
    assert last in ss + [last];
    assert forall s :: s in ss ==> s in ss + [last];
  }

  lemma PrefixLast(ss: seq<(Ip4, PrefixLength)>, last: (Ip4, PrefixLength), a: Option<Ip4>)
    ensures AnyPrefix(ss + [last], a) <==> AnyPrefix(ss, a) || (a.Some? && PrefixContains(last.0, last.1, a.value))
  {
    assert (ss + [last])[|ss|] == last;
    assert forall i :: 0 <= i < |ss| ==> (ss + [last])[i] == ss[i];
  }

  /** The table's prefix tests are membership of the configured subnets; an unparsable one matches nothing. */
  lemma {:induction false} PrefixesAreMembership(ss: seq<Subnet>, a: Option<Ip4>)
    ensures AnyPrefix(MaskedSubnets(ss), a) <==> InsideAny(ss, a)
  {
    if ss != [] {
      var n := |ss| - 1;
      var rest, last := ss[..n], ss[n];
      PrefixesAreMembership(rest, a);
      assert ss == rest + [last];
      InsideLast(rest, last, a);
      if last.Cidr? {
        assert And(last.addr, Mask(last.bits))[..last.bits] == last.addr[..last.bits];
        PrefixLast(MaskedSubnets(rest), (And(last.addr, Mask(last.bits)), last.bits), a);
      }
    }
  }

  /** So are the PAC program's isInNet branches, for the address isInNet sees. */
  lemma {:induction false} BranchesAreMembership(ss: seq<Subnet>, value: ProxyValue, names: Names, host: string)
    ensures AnyPasses(SubnetBranches(ss, value), names, host) <==> InsideAny(ss, PacAddress(names, host))
    ensures forall i :: 0 <= i < |SubnetBranches(ss, value)| ==> SubnetBranches(ss, value)[i].value == value
  {
    if ss != [] {
      var n := |ss| - 1;
      var rest, last := ss[..n], ss[n];
      BranchesAreMembership(rest, value, names, host);
      assert ss == rest + [last];
      InsideLast(rest, last, PacAddress(names, host));
      if last.Cidr? {
        var b := Branch(IsInNet(And(last.addr, Mask(last.bits)), Mask(last.bits)), value);
        EvalAppend(SubnetBranches(rest, value), [b], names, host);
        assert AnyPasses([b], names, host) <==> Passes([b][0].test, names, host);
        if PacAddress(names, host).Some? {
          MaskIsPrefix(last.addr, last.bits, PacAddress(names, host).value);
          assert And(last.addr, Mask(last.bits))[..last.bits] == last.addr[..last.bits];
        }
      }
    }
  }

  /** One route: its branches pass exactly when its entry matches as spelled, and carry its one value. */
  lemma {:induction false} RouteAgrees(r: Route, needed: map<string, bool>, front: string, names: Names, host: string)
    requires r.socks.Some? && '/' !in host && (forall p :: p in r.patterns ==> InFragment(p))
    ensures var bs := RouteBranches(r, needed, front);
      && (AnyPasses(bs, names, host) <==> EntryMatches(Spelled(r), PacAddress(names, host), host))
      && (AnyPasses(bs, names, host) ==> Eval(bs, names, host) == ValueOf(r, needed, front))
  {
    var value := ValueOf(r, needed, front);
    var a, b := PatternBranches(r.patterns, value), SubnetBranches(r.subnets, value);
    EvalAppend(a, b, names, host);
    EvalUniform(a, value, names, host);
    BranchesAreMembership(r.subnets, value, names, host);
    EvalUniform(b, value, names, host);
    PrefixesAreMembership(r.subnets, PacAddress(names, host));
    PatternsAgree(r.patterns, value, names, host);
  }

  lemma {:induction false} PatternsAgree(ps: seq<string>, value: ProxyValue, names: Names, host: string)
    requires '/' !in host && forall p :: p in ps ==> InFragment(p)
    ensures AnyPasses(PatternBranches(ps, value), names, host) <==> AnyPattern(ps, host)
  {
    forall p | p in ps ensures PathMatch(p, host) == ShExpMatch(p, host) {
      MatchersAgree(p, host);
    }
    if i :| 0 <= i < |ps| && PathMatch(ps[i], host) {
      assert PatternBranches(ps, value)[i].test == ShExp(ps[i]);
    }
  }

  /**
   The match the PAC program makes: on the host and the patterns as spelled, at the address the browser
   has for it.
   */
  function PacMatch(routes: seq<Route>, names: Names, host: string): Option<Entry> {
    FirstMatch(SpelledEntries(routes), PacAddress(names, host), host)
  }

  /** The compiled program picks the first match, with that route's value. */
  lemma {:induction false} CompileAgrees(routes: seq<Route>, needed: map<string, bool>, front: string,
      names: Names, host: string)
    requires '/' !in host && Fragment(routes)
    ensures var program := Compile(routes, needed, front);
      match PacMatch(routes, names, host)
      case None => !AnyPasses(program, names, host)
      case Some(e) =>
        AnyPasses(program, names, host)
        && Eval(program, names, host)
           == if e.name in needed && needed[e.name] then Socks5(if front == "" then e.upstream else front) else Direct
  {
    if routes != [] {
      var n := |routes| - 1;
      var rest, r := routes[..n], routes[n];
      assert r in routes;
      CompileAgrees(rest, needed, front, names, host);
      EvalAppend(Compile(rest, needed, front), RouteBranches(r, needed, front), names, host);
      if r.socks.Some? {
        RouteAgrees(r, needed, front, names, host);
        FirstMatchAppend(SpelledEntries(rest), [Spelled(r)], PacAddress(names, host), host);
      }
    }
  }

  // ---- Main results ----

  /** Where a connection ends up: dialled directly, or through the SOCKS listener at an address. */
  datatype Via = Directly | Through(addr: string)

  function PacVia(value: ProxyValue): Via {
    match value case Direct => Directly case Socks5(addr) => Through(addr)
  }

  function TableVia(d: Decision): Via {
    if d.upstream == "" then Directly else Through(d.upstream)
  }

  /** The PAC's first choice, followed through the proxy's own listener when it names that. */
  function FrontVia(value: ProxyValue, front: string, d: Decision): Via {
    if value == Socks5(front) then TableVia(d) else PacVia(value)
  }

  /** Where a match leads; `unknown` is what a route without a recorded state is taken to need. */
  function Leads(m: Option<Entry>, needed: map<string, bool>, unknown: bool): Via {
    match m
    case None => Directly
    case Some(e) => if (if e.name in needed then needed[e.name] else unknown) then Through(e.upstream) else Directly
  }

  /** The route that decides for a host at the table, if any. */
  function RouteFor(routes: seq<Route>, names: Names, host: string): Option<Entry> {
    TableMatch(Entries(routes), names, host)
  }

  /** The deciding route's state is recorded. */
  predicate Covered(needed: map<string, bool>, m: Option<Entry>) {
    m.Some? ==> m.value.name in needed
  }

  /** The PAC program and the table decide by the same route, or both by none. */
  predicate SameRoute(routes: seq<Route>, names: Names, host: string) {
    match (PacMatch(routes, names, host), RouteFor(routes, names, host))
    case (None, None) => true
    case (Some(a), Some(b)) => a.name == b.name && a.upstream == b.upstream
    case _ => false
  }

  lemma {:induction false} UpstreamIsNotEmpty(routes: seq<Route>, address: Option<Ip4>, host: string)
    ensures match FirstMatch(Entries(routes), address, host) case None => true case Some(e) => e.upstream != ""
    ensures match FirstMatch(SpelledEntries(routes), address, host) case None => true case Some(e) => e.upstream != ""
  {
    if routes != [] {
      var n := |routes| - 1;
      UpstreamIsNotEmpty(routes[..n], address, host);
      if routes[n].socks.Some? {
        FirstMatchAppend(Entries(routes[..n]), [EntryOf(routes[n])], address, host);
        FirstMatchAppend(SpelledEntries(routes[..n]), [Spelled(routes[n])], address, host);
      }
    }
  }

  /**
   The generated program sends a host where the table sends it exactly when the match each makes leads
   there: the program takes host and patterns as spelled, a resolved name as its address, and a route
   with no recorded state as reachable; the table folds case, drops a trailing dot, never resolves, and
   takes such a route as needing its tunnel. Where both decide by the same route, they agree exactly
   when its state is recorded.
   */
  lemma {:induction false} PacAgreesWithTable(routes: seq<Route>, needed: map<string, bool>, names: Names, host: string)
    requires '/' !in host && Fragment(routes)
    ensures var pac := PacVia(Eval(Compile(routes, needed, ""), names, host));
      var table := TableVia(Decided(Entries(routes), needed, names, host));
      && (pac == table <==>
            Leads(PacMatch(routes, names, host), needed, false) == Leads(RouteFor(routes, names, host), needed, true))
      && (SameRoute(routes, names, host) ==> (pac == table <==> Covered(needed, RouteFor(routes, names, host))))
  {
    hide FirstMatch, Compile, Entries, SpelledEntries, Normal;
    CompileAgrees(routes, needed, "", names, host);
    UpstreamIsNotEmpty(routes, TableAddress(names, Normal(host)), Normal(host));
    UpstreamIsNotEmpty(routes, PacAddress(names, host), host);
    EvalNone(Compile(routes, needed, ""), names, host);
  }

  lemma {:induction false} EvalNone(bs: seq<Branch>, names: Names, host: string)
    ensures !AnyPasses(bs, names, host) ==> Eval(bs, names, host) == Direct
  {
    if bs != [] {
      EvalNone(bs[1..], names, host);
      if i :| 0 <= i < |bs[1..]| && Passes(bs[1..][i].test, names, host) {
        assert bs[i + 1] == bs[1..][i];
      }
    }
  }

  /** The program sends the host to the proxy: it matches a route known to need its tunnel. */
  predicate Proxied(needed: map<string, bool>, m: Option<Entry>) {
    m.Some? && m.value.name in needed && needed[m.value.name]
  }

  /**
   With the front door advertised instead, the PAC followed by the table's decision there reaches the
   place the table means exactly when the program sends the host to the proxy at all, or the table
   means it to go direct. Where both decide by the same route, that is when its state is recorded.
   */
  lemma {:induction false} FrontDoorAgrees(routes: seq<Route>, needed: map<string, bool>, front: string,
      names: Names, host: string)
    requires '/' !in host && Fragment(routes) && front != ""
    ensures var d := Decided(Entries(routes), needed, names, host);
      var followed := FrontVia(Eval(Compile(routes, needed, front), names, host), front, d);
      && (followed == TableVia(d) <==> Proxied(needed, PacMatch(routes, names, host)) || TableVia(d) == Directly)
      && (SameRoute(routes, names, host) ==>
            (followed == TableVia(d) <==> Covered(needed, RouteFor(routes, names, host))))
  {
    hide FirstMatch, Compile, Entries, SpelledEntries, Normal;
    CompileAgrees(routes, needed, front, names, host);
    UpstreamIsNotEmpty(routes, TableAddress(names, Normal(host)), Normal(host));
    EvalNone(Compile(routes, needed, front), names, host);
  }

  // ---- When both decide by the same route ----

  /** The address each tests lies inside the same subnets of the routes that have a SOCKS listener. */
  ghost predicate Undistinguished(routes: seq<Route>, a: Option<Ip4>, b: Option<Ip4>) {
    forall r, s :: r in routes && r.socks.Some? && s in r.subnets ==> (Inside(s, a) <==> Inside(s, b))
  }

  lemma {:induction false} AddressesMatchAlike(routes: seq<Route>, a: Option<Ip4>, b: Option<Ip4>, host: string)
    requires Undistinguished(routes, a, b)
    ensures FirstMatch(Entries(routes), a, host) == FirstMatch(Entries(routes), b, host)
  {
    if routes != [] {
      var n := |routes| - 1;
      var r := routes[n];
      AddressesMatchAlike(routes[..n], a, b, host);
      if r.socks.Some? {
        assert r in routes;
        PrefixesAreMembership(r.subnets, a);
        PrefixesAreMembership(r.subnets, b);
        FirstMatchAppend(Entries(routes[..n]), [EntryOf(r)], a, host);
        FirstMatchAppend(Entries(routes[..n]), [EntryOf(r)], b, host);
      }
    }
  }

  lemma {:induction false} LowerIsSpelled(routes: seq<Route>)
    requires forall r, p :: r in routes && p in r.patterns ==> ToLower(p) == p
    ensures SpelledEntries(routes) == Entries(routes)
  {
    if routes != [] {
      var r := routes[|routes| - 1];
      LowerIsSpelled(routes[..|routes| - 1]);
      assert r in routes && LowerAll(r.patterns) == r.patterns;
    }
  }

  /** With lower-case patterns, on a normalised host that the browser does not resolve into a configured subnet. */
  lemma {:induction false} DecidesBySameRoute(routes: seq<Route>, names: Names, host: string)
    requires (forall r, p :: r in routes && p in r.patterns ==> ToLower(p) == p) && Normal(host) == host
    requires Undistinguished(routes, PacAddress(names, host), TableAddress(names, host))
    ensures SameRoute(routes, names, host)
  {
    LowerIsSpelled(routes);
    AddressesMatchAlike(routes, PacAddress(names, host), TableAddress(names, host), host);
  }

  function Example(patterns: seq<string>, subnets: seq<Subnet>): Route {
    Route("home", patterns, subnets, Some(Listener("127.0.0.1", 1080)))
  }

  lemma {:induction false} OneRoute(r: Route, address: Option<Ip4>, host: string)
    requires r.socks.Some?
    ensures FirstMatch(Entries([r]), address, host)
         == if EntryMatches(EntryOf(r), address, host) then Some(EntryOf(r)) else None
    ensures FirstMatch(SpelledEntries([r]), address, host)
         == if EntryMatches(Spelled(r), address, host) then Some(Spelled(r)) else None
  {
    assert [r][..0] == [];
    assert Entries([r]) == [] + [EntryOf(r)] == [EntryOf(r)];
    assert SpelledEntries([r]) == [] + [Spelled(r)] == [Spelled(r)];
  }

  lemma {:induction false} OnePattern(p: string, names: Names, host: string)
    ensures RouteFor([Example([p], [])], names, host).Some? <==> PathMatch(ToLower(p), Normal(host))
    ensures PacMatch([Example([p], [])], names, host).Some? <==> PathMatch(p, host)
  {
    var r := Example([p], []);
    OneRoute(r, TableAddress(names, Normal(host)), Normal(host));
    OneRoute(r, PacAddress(names, host), host);
    assert EntryOf(r).patterns[0] == ToLower(p) && EntryOf(r).subnets == [];
    assert Spelled(r).patterns[0] == p && Spelled(r).subnets == [];
  }

  /** Otherwise they need not: the table folds case and drops a trailing dot, the PAC program does neither. */
  lemma {:induction false} SpellingMatters(names: Names)
    ensures !SameRoute([Example(["A"], [])], names, "a") && !SameRoute([Example(["a"], [])], names, "a.")
  {
    hide RouteFor, PacMatch;
    Spellings();
    OnePattern("A", names, "a");
    OnePattern("a", names, "a.");
  }

  lemma Spellings()
    ensures ToLower("A") == "a" && ToLower("a") == "a" && Normal("a") == "a" && Normal("a.") == "a"
    ensures PathMatch("a", "a") && !PathMatch("A", "a") && !PathMatch("a", "a.")
  {
    assert ToLower("a.") == "a.";
  }

  /** And they part on a name only the browser resolves: isInNet looks it up, the table never does. */
  lemma {:induction false} ResolvingMatters(names: Names, a: Ip4)
    requires names.literal("a") == None && names.lookup("a") == Some(a)
    ensures RouteFor([Example([], [Cidr(a, 32)])], names, "a").None?
    ensures PacMatch([Example([], [Cidr(a, 32)])], names, "a").Some?
  {
    var ss := [Cidr(a, 32)];
    var r := Example([], ss);
    Spellings();
    OneRoute(r, None, "a");
    OneRoute(r, Some(a), "a");
    PrefixesAreMembership(ss, None);
    PrefixesAreMembership(ss, Some(a));
    assert Inside(ss[0], Some(a));
  }

  // ---- The two decisions, said without the code that makes them ----

  /** `small` is `s` with its capital letters made small. */
  ghost predicate SmallOf(s: string, small: string) {
    |small| == |s|
    && forall i :: 0 <= i < |s| ==> small[i] as int == s[i] as int + if 'A' <= s[i] <= 'Z' then 32 else 0
  }

  /** `h` is what the table takes `host` to mean: in small letters, without one trailing dot. */
  ghost predicate Means(host: string, h: string) {
    if host != "" && host[|host| - 1] == '.' then SmallOf(host[..|host| - 1], h) else SmallOf(host, h)
  }

  lemma {:induction false} MeansNormal(host: string, h: string)
    ensures Means(host, h) <==> h == Normal(host)
  {
    if host != "" {
      var init := host[..|host| - 1];
      assert ToLower(init) == ToLower(host)[..|host| - 1];
      SmallIsLower(init, h);
    }
    SmallIsLower(host, h);
  }

  lemma {:induction false} SmallIsLower(s: string, small: string)
    ensures SmallOf(s, small) <==> small == ToLower(s)
  {
    if SmallOf(s, small) {
      forall i | 0 <= i < |s| ensures small[i] == ToLower(s)[i] {
        assert small[i] as int == LowerChar(s[i]) as int;
      }
    }
  }

  function Concat(parts: seq<string>): string {
    if parts == [] then "" else parts[0] + Concat(parts[1..])
  }

  /** `parts` spells `h` along the pattern, one part to a character: no slash under a wildcard, every literal itself. */
  ghost predicate Spells(p: string, parts: seq<string>, h: string) {
    && |parts| == |p| && Concat(parts) == h
    && forall i :: 0 <= i < |p| ==>
         if p[i] == '*' then '/' !in parts[i]
         else |parts[i]| == 1 && (if p[i] == '?' then parts[i] != "/" else parts[i] == [p[i]])
  }

  ghost predicate Glob(p: string, h: string) {
    exists parts :: Spells(p, parts, h)
  }

  /** The matcher accepts exactly the hosts that can be cut into parts along the pattern. */
  lemma {:induction false} PathMatchIsGlob(p: string, h: string)
    ensures PathMatch(p, h) <==> Glob(p, h)
  {
    if PathMatch(p, h) {
      var parts := MatchSpells(p, h);
    }
    if Glob(p, h) {
      var parts :| Spells(p, parts, h);
      SpellsMatch(p, parts, h);
    }
  }

  lemma {:induction false} MatchSpells(p: string, h: string) returns (parts: seq<string>)
    requires PathMatch(p, h)
    ensures Spells(p, parts, h)
    decreases |p| + |h|
  {
    if p == "" {
      parts := [];
    } else if p[0] == '*' && !PathMatch(p[1..], h) {
      var rest := MatchSpells(p, h[1..]);
      parts := [[h[0]] + rest[0]] + rest[1..];
      assert parts[1..] == rest[1..];
    } else {
      var head := if p[0] == '*' then "" else h[..1];
      var rest := MatchSpells(p[1..], h[|head|..]);
      parts := [head] + rest;
      assert parts[1..] == rest && head + h[|head|..] == h;
    }
  }

  lemma {:induction false} SpellsMatch(p: string, parts: seq<string>, h: string)
    requires Spells(p, parts, h)
    ensures PathMatch(p, h)
    decreases |p| + |h|
  {
    if p != "" {
      var head, rest := parts[0], parts[1..];
      assert h == head + Concat(rest);
      if p[0] == '*' && head != "" {
        var shorter := [head[1..]] + rest;
        assert shorter[1..] == rest && h[1..] == head[1..] + Concat(rest);
        SpellsMatch(p, shorter, h[1..]);
      } else {
        assert h[|head|..] == Concat(rest);
        SpellsMatch(p[1..], rest, h[|head|..]);
      }
    }
  }

  /** The table's reasons: a pattern, or a subnet that an IPv4 literal (also a mapped one) is in. */
  ghost predicate Serves(r: Route, names: Names, h: string) {
    || (exists p, q :: p in r.patterns && SmallOf(p, q) && Glob(q, h))
    || (exists s, a :: s in r.subnets && Inside(s, Some(a))
                       && (names.literal(h) == Some(V4(a)) || names.literal(h) == Some(Mapped(a))))
  }

  /** The PAC program's: a pattern as spelled, or a subnet with the IPv4 address that the host is or is looked up as. */
  ghost predicate PacServes(r: Route, names: Names, h: string) {
    || (exists p :: p in r.patterns && Glob(p, h))
    || (exists s, a :: s in r.subnets && Inside(s, Some(a))
                       && (names.literal(h) == Some(V4(a)) || (names.literal(h) == None && names.lookup(h) == Some(a))))
  }

  /** Route i is the first with a SOCKS listener that serves the host. */
  ghost predicate FirstServing(routes: seq<Route>, names: Names, h: string, i: nat) {
    && i < |routes| && routes[i].socks.Some? && Serves(routes[i], names, h)
    && forall j :: 0 <= j < i && routes[j].socks.Some? ==> !Serves(routes[j], names, h)
  }

  ghost predicate FirstPacServing(routes: seq<Route>, names: Names, h: string, i: nat) {
    && i < |routes| && routes[i].socks.Some? && PacServes(routes[i], names, h)
    && forall j :: 0 <= j < i && routes[j].socks.Some? ==> !PacServes(routes[j], names, h)
  }

  lemma {:induction false} EntryServes(r: Route, names: Names, h: string)
    requires r.socks.Some?
    ensures EntryMatches(EntryOf(r), TableAddress(names, h), h) <==> Serves(r, names, h)
  {
    PrefixesAreMembership(r.subnets, TableAddress(names, h));
    var qs := LowerAll(r.patterns);
    forall p, q ensures SmallOf(p, q) <==> q == ToLower(p) {
      SmallIsLower(p, q);
    }
    forall q ensures PathMatch(q, h) <==> Glob(q, h) {
      PathMatchIsGlob(q, h);
    }
    if i :| 0 <= i < |qs| && PathMatch(qs[i], h) {
      assert r.patterns[i] in r.patterns && SmallOf(r.patterns[i], qs[i]);
    }
    if p, q :| p in r.patterns && SmallOf(p, q) && Glob(q, h) {
      var i :| 0 <= i < |r.patterns| && r.patterns[i] == p;
      assert qs[i] == q;
    }
  }

  lemma {:induction false} SpelledServes(r: Route, names: Names, h: string)
    requires r.socks.Some?
    ensures EntryMatches(Spelled(r), PacAddress(names, h), h) <==> PacServes(r, names, h)
  {
    PrefixesAreMembership(r.subnets, PacAddress(names, h));
    forall q ensures PathMatch(q, h) <==> Glob(q, h) {
      PathMatchIsGlob(q, h);
    }
  }

  /** The first match among entries is that of the first route whose entry matches. */
  lemma {:induction false} FirstSpelled(routes: seq<Route>, address: Option<Ip4>, host: string, i: nat)
    requires i < |routes| && routes[i].socks.Some? && EntryMatches(Spelled(routes[i]), address, host)
    requires forall j :: 0 <= j < i && routes[j].socks.Some? ==> !EntryMatches(Spelled(routes[j]), address, host)
    ensures FirstMatch(SpelledEntries(routes), address, host) == Some(Spelled(routes[i]))
  {
    var n := |routes| - 1;
    if routes[n].socks.Some? {
      FirstMatchAppend(SpelledEntries(routes[..n]), [Spelled(routes[n])], address, host);
    }
    if i < n {
      FirstSpelled(routes[..n], address, host, i);
    } else {
      NoneSpelled(routes[..n], address, host);
    }
  }

  lemma {:induction false} NoneSpelled(routes: seq<Route>, address: Option<Ip4>, host: string)
    requires forall j :: 0 <= j < |routes| && routes[j].socks.Some? ==> !EntryMatches(Spelled(routes[j]), address, host)
    ensures FirstMatch(SpelledEntries(routes), address, host) == None
  {
    if routes != [] {
      var n := |routes| - 1;
      NoneSpelled(routes[..n], address, host);
      if routes[n].socks.Some? {
        FirstMatchAppend(SpelledEntries(routes[..n]), [Spelled(routes[n])], address, host);
      }
    }
  }

  /** The same routes with their patterns in lower case. */
  function Lowered(routes: seq<Route>): (rs: seq<Route>)
    ensures |rs| == |routes|
  {
    seq(|routes|, i requires 0 <= i < |routes| => routes[i].(patterns := LowerAll(routes[i].patterns)))
  }

  lemma {:induction false} EntriesAreLowered(routes: seq<Route>)
    ensures Entries(routes) == SpelledEntries(Lowered(routes))
  {
    if routes != [] {
      var n := |routes| - 1;
      EntriesAreLowered(routes[..n]);
      assert Lowered(routes)[..n] == Lowered(routes[..n]);
    }
  }

  /**
   For every host: the table decides by the first route with a SOCKS listener that serves what the host
   means, direct if its state is known not to need the tunnel, through that route's own listener
   otherwise; and by no route, directly, when none serves it.
   */
  lemma {:induction false} TableServes(routes: seq<Route>, needed: map<string, bool>, names: Names,
      host: string, h: string, i: nat)
    requires Means(host, h)
    ensures var d := Decided(Entries(routes), needed, names, host);
      && (FirstServing(routes, names, h, i) ==>
            var r := routes[i];
            d == Decision(r.name, if r.name in needed && !needed[r.name] then ""
                                  else JoinHostPort(r.socks.value.bind, r.socks.value.port)))
      && ((forall k: nat :: !FirstServing(routes, names, h, k)) ==> d == Decision("", ""))
  {
    MeansNormal(host, h);
    EntriesAreLowered(routes);
    var address, lowered := TableAddress(names, h), Lowered(routes);
    forall j | 0 <= j < |routes| && routes[j].socks.Some?
      ensures EntryMatches(Spelled(lowered[j]), address, h) <==> Serves(routes[j], names, h)
    {
      EntryServes(routes[j], names, h);
    }
    hide Serves, EntryMatches;
    if FirstServing(routes, names, h, i) {
      FirstSpelled(lowered, address, h, i);
    }
    if forall k: nat :: !FirstServing(routes, names, h, k) {
      NobodyServes(routes, names, h, |routes|);
      NoneSpelled(lowered, address, h);
    }
  }

  lemma {:induction false} NobodyServes(routes: seq<Route>, names: Names, h: string, n: nat)
    requires n <= |routes| && forall k: nat :: !FirstServing(routes, names, h, k)
    ensures forall j :: 0 <= j < n && routes[j].socks.Some? ==> !Serves(routes[j], names, h)
  {
    hide Serves;
    if n > 0 {
      NobodyServes(routes, names, h, n - 1);
      assert !FirstServing(routes, names, h, n - 1);
    }
  }

  /** The generated program names the first route that serves the host as spelled, if it is known to need its tunnel. */
  lemma {:induction false} PacServesFirst(routes: seq<Route>, needed: map<string, bool>, front: string,
      names: Names, host: string, i: nat)
    requires '/' !in host && Fragment(routes)
    ensures var value := Eval(Compile(routes, needed, front), names, host);
      && (FirstPacServing(routes, names, host, i) ==>
            var r := routes[i];
            value == if r.name !in needed || !needed[r.name] then Direct
                     else if front != "" then Socks5(front)
                     else Socks5(JoinHostPort(r.socks.value.bind, r.socks.value.port)))
      && ((forall k: nat :: !FirstPacServing(routes, names, host, k)) ==> value == Direct)
  {
    hide PacServes, EntryMatches, Compile, Eval;
    CompileAgrees(routes, needed, front, names, host);
    EvalNone(Compile(routes, needed, front), names, host);
    var address := PacAddress(names, host);
    forall j | 0 <= j < |routes| && routes[j].socks.Some?
      ensures EntryMatches(Spelled(routes[j]), address, host) <==> PacServes(routes[j], names, host)
    {
      SpelledServes(routes[j], names, host);
    }
    if FirstPacServing(routes, names, host, i) {
      FirstSpelled(routes, address, host, i);
    }
    if forall k: nat :: !FirstPacServing(routes, names, host, k) {
      NobodyPacServes(routes, names, host, |routes|);
      NoneSpelled(routes, address, host);
    }
  }

  lemma {:induction false} NobodyPacServes(routes: seq<Route>, names: Names, h: string, n: nat)
    requires n <= |routes| && forall k: nat :: !FirstPacServing(routes, names, h, k)
    ensures forall j :: 0 <= j < n && routes[j].socks.Some? ==> !PacServes(routes[j], names, h)
  {
    hide PacServes;
    if n > 0 {
      NobodyPacServes(routes, names, h, n - 1);
      assert !FirstPacServing(routes, names, h, n - 1);
    }
  }

  // ---- Updates while connections decide ----

  /** The state a connection decides by after a history of updates: Decide reads the newest one. */
  function Current(updates: seq<map<string, bool>>): map<string, bool> {
    if updates == [] then map[] else updates[|updates| - 1]
  }

  /**
   However updates interleave with connections, a host of a route is dialled directly only if the newest
   update says so.
   */
  lemma {:induction false} DirectOnlyWhenToldSo(routes: seq<Route>, updates: seq<map<string, bool>>,
      names: Names, host: string)
    ensures RouteFor(routes, names, host).Some? ==>
      var name := RouteFor(routes, names, host).value.name;
      (TableVia(Decided(Entries(routes), Current(updates), names, host)) == Directly
       <==> updates != [] && name in updates[|updates| - 1] && !updates[|updates| - 1][name])
  {
    UpstreamIsNotEmpty(routes, TableAddress(names, Normal(host)), Normal(host));
  }

  // ---- The table and the generator as they are written ----

  class Table {
    const routes: seq<Entry>
    var proxyNeeded: map<string, bool>

    constructor (configured: seq<Route>)
      ensures routes == Entries(configured) && proxyNeeded == map[]
    {
      proxyNeeded := map[];
      var built := [];
      for i := 0 to |configured|
        invariant built == Entries(configured[..i])
      {
        var r := configured[i];
        assert configured[..i + 1][..i] == configured[..i];
        if r.socks.None? {
          continue;
        }
        var patterns := [];
        for j := 0 to |r.patterns|
          invariant patterns == LowerAll(r.patterns)[..j]
        {
          patterns := patterns + [ToLower(r.patterns[j])];
        }
        var subnets := [];
        for j := 0 to |r.subnets|
          invariant subnets == MaskedSubnets(r.subnets[..j])
        {
          assert r.subnets[..j + 1][..j] == r.subnets[..j];
          if r.subnets[j].Cidr? {
            subnets := subnets + [(And(r.subnets[j].addr, Mask(r.subnets[j].bits)), r.subnets[j].bits)];
          }
        }
        assert patterns == LowerAll(r.patterns) && r.subnets[..|r.subnets|] == r.subnets;
        built := built + [Entry(r.name, JoinHostPort(r.socks.value.bind, r.socks.value.port), patterns, subnets)];
      }
      assert configured[..|configured|] == configured;
      routes := built;
    }

    /** Takes a copy: later changes to the caller's map cannot reach the table. */
    method Update(needed: map<string, bool>)
      modifies this
      ensures proxyNeeded == needed
    {
      var copied: map<string, bool> := map[];
      var todo := needed.Keys;
      while todo != {}
        invariant todo <= needed.Keys
        invariant copied == map k | k in needed && k !in todo :: needed[k]
        decreases todo
      {
        var k :| k in todo;
        copied := copied[k := needed[k]];
        todo := todo - {k};
      }
      assert copied == needed;
      proxyNeeded := copied;
    }

    method Match(names: Names, host: string) returns (m: Option<Entry>)
      ensures m == TableMatch(routes, names, host)
    {
      var h := Normal(host);
      var address := TableAddress(names, h);
      for i := 0 to |routes|
        invariant FirstMatch(routes, address, h) == FirstMatch(routes[i..], address, h)
      {
        var r := routes[i];
        for j := 0 to |r.patterns|
          invariant forall k :: 0 <= k < j ==> !PathMatch(r.patterns[k], h)
        {
          if PathMatch(r.patterns[j], h) {
            return Some(r);
          }
        }
        if address.Some? {
          for j := 0 to |r.subnets|
            invariant forall k :: 0 <= k < j ==> !PrefixContains(r.subnets[k].0, r.subnets[k].1, address.value)
          {
            if PrefixContains(r.subnets[j].0, r.subnets[j].1, address.value) {
              return Some(r);
            }
          }
        }
      }
      return None;
    }

    method Decide(names: Names, host: string) returns (d: Decision)
      ensures d == Decided(routes, proxyNeeded, names, host)
    {
      var m := Match(names, host);
      if m.None? {
        return Decision("", "");
      }
      var known := m.value.name in proxyNeeded;
      if known && !proxyNeeded[m.value.name] {
        return Decision(m.value.name, "");
      }
      return Decision(m.value.name, m.value.upstream);
    }
  }

  method Generate(routes: seq<Route>, needed: map<string, bool>, front: string) returns (b: seq<Branch>)
    ensures b == Compile(routes, needed, front)
  {
    b := [];
    for i := 0 to |routes|
      invariant b == Compile(routes[..i], needed, front)
    {
      assert routes[..i + 1][..i] == routes[..i];
      if routes[i].socks.None? {
        continue;
      }
      var value := Direct;
      if routes[i].name in needed && needed[routes[i].name] {
        var addr := front;
        if addr == "" {
          addr := JoinHostPort(routes[i].socks.value.bind, routes[i].socks.value.port);
        }
        value := Socks5(addr);
      }
      var branches := GenerateRoute(routes[i], value);
      b := b + branches;
    }
    assert routes[..|routes|] == routes;
  }

  /** The two inner loops: patterns first, then the subnets that parse. */
  method GenerateRoute(r: Route, value: ProxyValue) returns (b: seq<Branch>)
    ensures b == PatternBranches(r.patterns, value) + SubnetBranches(r.subnets, value)
  {
    b := [];
    for j := 0 to |r.patterns|
      invariant b == PatternBranches(r.patterns, value)[..j]
    {
      b := b + [Branch(ShExp(r.patterns[j]), value)];
    }
    ghost var patterns := b;
    for j := 0 to |r.subnets|
      invariant b == patterns + SubnetBranches(r.subnets[..j], value)
    {
      assert r.subnets[..j + 1][..j] == r.subnets[..j];
      if r.subnets[j].Cidr? {
        var mask := Mask(r.subnets[j].bits);
        b := b + [Branch(IsInNet(And(r.subnets[j].addr, mask), mask), value)];
      }
    }
    assert r.subnets[..|r.subnets|] == r.subnets;
  }
}
