/** config.Validate: names, jump hosts and listener addresses. */
module Configuration {
  import opened Common
  import opened Text
  import opened Routing

  datatype RouteConfig = RouteConfig(name: string, jumpHost: string, socks: Option<Listener>)

  /** The parts Validate looks at; None for a listener that is not enabled. */
  datatype Config = Config(routes: seq<RouteConfig>, pac: Option<Listener>, proxy: Option<Listener>)

  datatype ConfigError =
    | UnnamedRoute
    | DuplicateName(name: string)
    | NoJumpHost(route: string)
    | NotLoopback(bind: string)
    | AddressTaken(owner: string, addr: string)
    | BadProxyPort(port: int)

  // ---- What a valid configuration is ----

  function SocksListeners(routes: seq<RouteConfig>): seq<Listener> {
    if routes == [] then []
    else
      var rest := SocksListeners(routes[..|routes| - 1]);
      match routes[|routes| - 1].socks case None => rest case Some(l) => rest + [l]
  }

  function Present(l: Option<Listener>): seq<Listener> {
    match l case None => [] case Some(x) => [x]
  }

  function EnabledListeners(c: Config): seq<Listener> {
    SocksListeners(c.routes) + Present(c.pac) + Present(c.proxy)
  }

  ghost predicate Distinct<T(!new)>(s: seq<T>) {
    forall i, j :: 0 <= i < j < |s| ==> s[i] != s[j]
  }

  ghost predicate AllLoopback(ls: seq<Listener>, isLoopback: string -> bool) {
    forall l :: l in ls ==> isLoopback(l.bind)
  }

  function NamesOf(routes: seq<RouteConfig>): (names: seq<string>)
    ensures |names| == |routes|
  {
    seq(|routes|, i requires 0 <= i < |routes| => routes[i].name)
  }

  ghost predicate Valid(c: Config, isLoopback: string -> bool) {
    && (forall r :: r in c.routes ==> r.name != "" && r.jumpHost != "")
    && Distinct(NamesOf(c.routes))
    && AllLoopback(EnabledListeners(c), isLoopback)
    && Distinct(EnabledListeners(c))
    && (c.proxy.Some? ==> 1 <= c.proxy.value.port <= 65535)
  }

  /** What each error claims about the configuration. */
  ghost predicate Justified(c: Config, isLoopback: string -> bool, error: ConfigError) {
    match error
    case UnnamedRoute => exists r :: r in c.routes && r.name == ""
    case DuplicateName(name) =>
      exists i, j :: 0 <= i < j < |c.routes| && c.routes[i].name == name && c.routes[j].name == name
    case NoJumpHost(name) => exists r :: r in c.routes && r.name == name && r.jumpHost == ""
    case NotLoopback(bind) => exists l :: l in EnabledListeners(c) && l.bind == bind && !isLoopback(bind)
    case AddressTaken(_, addr) => Shared(EnabledListeners(c), addr)
    case BadProxyPort(port) => c.proxy.Some? && c.proxy.value.port == port && !(1 <= port <= 65535)
  }

  /** Two of the listeners have this address. */
  ghost predicate Shared(ls: seq<Listener>, addr: string) {
    exists i, j :: 0 <= i < j < |ls| && Render(ls[i]) == addr && Render(ls[j]) == addr
  }

  // ---- Addresses as the code compares them ----

  /** fmt.Sprintf("%s:%d", bind, port). */
  function Render(l: Listener): string {
    Colon(l.bind, Itoa(l.port))
  }

  /** Two listeners with one rendering are the same listener, even when a bind contains colons. */
  lemma {:induction false} RenderInjective(a: Listener, b: Listener)
    requires Render(a) == Render(b)
    ensures a == b
  {
    ItoaHasNoColon(a.port);
    ItoaHasNoColon(b.port);
    ColonSplits(a.bind, Itoa(a.port), b.bind, Itoa(b.port));
    ItoaInjective(a.port, b.port);
  }

  /** The addresses claimed so far are exactly the renderings of `ls`. */
  ghost predicate Claims(seen: map<string, string>, ls: seq<Listener>) {
    forall a :: a in seen <==> exists l :: l in ls && Render(l) == a
  }

  lemma {:induction false} ClaimOne(seen: map<string, string>, ls: seq<Listener>, l: Listener, owner: string)
    requires Claims(seen, ls)
    ensures Render(l) in seen <==> l in ls
    ensures Claims(seen[Render(l) := owner], ls + [l])
  {
    if Render(l) in seen {
      var k :| k in ls && Render(k) == Render(l);
      RenderInjective(k, l);
    }
    var now := seen[Render(l) := owner];
    forall a ensures a in now <==> exists k :: k in ls + [l] && Render(k) == a {
      if a in now {
        if a == Render(l) {
          assert l in ls + [l];
        } else {
          var k :| k in ls && Render(k) == a;
          assert k in ls + [l];
        }
      }
    }
  }

  lemma DistinctAppend<T(!new)>(s: seq<T>, x: T)
    ensures Distinct(s + [x]) <==> Distinct(s) && x !in s
  {
    if Distinct(s + [x]) {
      forall i, j | 0 <= i < j < |s| ensures s[i] != s[j] {
        assert (s + [x])[i] != (s + [x])[j];
      }
      forall i | 0 <= i < |s| ensures s[i] != x {
        assert (s + [x])[i] != (s + [x])[|s|];
      }
    }
  }

  // ---- Validate ----

  /** What the route loop has established of the first routes. */
  ghost predicate RoutesValid(routes: seq<RouteConfig>, isLoopback: string -> bool) {
    && (forall r :: r in routes ==> r.name != "" && r.jumpHost != "")
    && Distinct(NamesOf(routes))
    && AllLoopback(SocksListeners(routes), isLoopback)
    && Distinct(SocksListeners(routes))
  }

  lemma {:induction false} OneMoreRoute(routes: seq<RouteConfig>, r: RouteConfig, isLoopback: string -> bool)
    ensures RoutesValid(routes + [r], isLoopback) <==>
      && RoutesValid(routes, isLoopback)
      && r.name != "" && r.jumpHost != "" && r.name !in NamesOf(routes)
      && (r.socks.Some? ==> isLoopback(r.socks.value.bind) && r.socks.value !in SocksListeners(routes))
  {
    var all := routes + [r];
    assert all[..|routes|] == routes && r in all;
    assert NamesOf(all) == NamesOf(routes) + [r.name];
    DistinctAppend(NamesOf(routes), r.name);
    assert forall x :: x in all <==> x in routes || x == r;
    if r.socks.Some? {
      var ls := SocksListeners(routes);
      DistinctAppend(ls, r.socks.value);
      assert r.socks.value in ls + [r.socks.value];
      assert forall l :: l in ls + [r.socks.value] <==> l in ls || l == r.socks.value;
    }
  }

  /** A prefix of valid routes is valid. */
  lemma {:induction false} PrefixValid(routes: seq<RouteConfig>, isLoopback: string -> bool, n: nat)
    requires n <= |routes| && RoutesValid(routes, isLoopback)
    ensures RoutesValid(routes[..n], isLoopback)
  {
    if n < |routes| {
      var m := |routes| - 1;
      assert routes == routes[..m] + [routes[m]];
      OneMoreRoute(routes[..m], routes[m], isLoopback);
      PrefixValid(routes[..m], isLoopback, n);
      assert routes[..m][..n] == routes[..n];
    } else {
      assert routes[..n] == routes;
    }
  }

  /** The listeners of the first routes come first. */
  lemma {:induction false} ListenersGrow(routes: seq<RouteConfig>, n: nat)
    requires n <= |routes|
    ensures SocksListeners(routes[..n]) <= SocksListeners(routes)
  {
    if n < |routes| {
      var m := |routes| - 1;
      ListenersGrow(routes[..m], n);
      assert routes[..m][..n] == routes[..n];
    } else {
      assert routes[..n] == routes;
    }
  }

  lemma SharedWithLater(ls: seq<Listener>, l: Listener, all: seq<Listener>)
    requires l in ls && ls + [l] <= all
    ensures Shared(all, Render(l))
  {
    var i :| 0 <= i < |ls| && ls[i] == l;
    assert (ls + [l])[i] == l && (ls + [l])[|ls|] == l;
    assert all[i] == l && all[|ls|] == l;
  }

  /**
   A listener of the route at position i that clashes with an earlier one, or is not loopback, is one of
   the enabled ones.
   */
  lemma {:induction false} RouteFaults(c: Config, isLoopback: string -> bool, i: nat)
    requires i < |c.routes| && c.routes[i].socks.Some?
    ensures var l := c.routes[i].socks.value;
      && l in EnabledListeners(c)
      && (l in SocksListeners(c.routes[..i]) ==> Shared(EnabledListeners(c), Render(l)))
  {
    var l, before := c.routes[i].socks.value, SocksListeners(c.routes[..i]);
    assert c.routes[..i + 1][..i] == c.routes[..i];
    assert SocksListeners(c.routes[..i + 1]) == before + [l];
    ListenersGrow(c.routes, i + 1);
    var all := EnabledListeners(c);
    assert before + [l] <= all;
    assert all[|before|] == (before + [l])[|before|] == l;
    if l in before {
      SharedWithLater(before, l, all);
    }
  }

  /**
   Claims a listener that none of the claimed ones is, under its owner; otherwise names the owner it
   would clash with.
   */
  method ClaimAddr(seen: map<string, string>, owner: string, l: Listener, ghost ls: seq<Listener>)
    returns (r: Result<map<string, string>, ConfigError>)
    requires Claims(seen, ls)
    ensures r.Ok? <==> l !in ls
    ensures match r
            case Ok(now) => Claims(now, ls + [l]) && Render(l) in now && now[Render(l)] == owner
                            && forall a :: a in seen ==> now[a] == seen[a]
            case Err(e) => Render(l) in seen && e == AddressTaken(seen[Render(l)], Render(l))
  {
    ClaimOne(seen, ls, l, owner);
    var addr := Render(l);
    if addr in seen {
      return Err(AddressTaken(seen[addr], addr));
    }
    return Ok(seen[addr := owner]);
  }

  lemma NoRoutes(isLoopback: string -> bool)
    ensures RoutesValid([], isLoopback) && Claims(map[], SocksListeners([]))
  {
  }

  /** The route loop: accepts exactly the routes that satisfy RoutesValid, and returns the addresses they claim. */
  method ValidateRoutes(c: Config, isLoopback: string -> bool) returns (r: Result<map<string, string>, ConfigError>)
    ensures match r
            case Ok(seen) => RoutesValid(c.routes, isLoopback) && Claims(seen, SocksListeners(c.routes))
            case Err(e) => !RoutesValid(c.routes, isLoopback) && Justified(c, isLoopback, e)
  {
    hide Render, EnabledListeners, Shared, RoutesValid, Claims;
    NoRoutes(isLoopback);
    var routes := c.routes;
    var seenNames: set<string> := {};
    var seenAddrs: map<string, string> := map[];
    for i := 0 to |routes|
      invariant RoutesValid(routes[..i], isLoopback)
      invariant forall name :: name in seenNames <==> name in NamesOf(routes[..i])
      invariant Claims(seenAddrs, SocksListeners(routes[..i]))
    {
      var route := routes[i];
      ghost var before := routes[..i];
      assert routes[..i + 1] == before + [route] && (before + [route])[..i] == before;
      OneMoreRoute(before, route, isLoopback);
      if RoutesValid(routes, isLoopback) {
        PrefixValid(routes, isLoopback, i + 1);
      }
      assert NamesOf(before + [route]) == NamesOf(before) + [route.name];
      if route.name == "" {
        return Err(UnnamedRoute);
      }
      if route.name in seenNames {
        ghost var k :| 0 <= k < i && NamesOf(before)[k] == route.name;
        assert routes[k].name == routes[i].name;
        return Err(DuplicateName(route.name));
      }
      seenNames := seenNames + {route.name};
      if route.jumpHost == "" {
        return Err(NoJumpHost(route.name));
      }
      if route.socks.Some? {
        var l := route.socks.value;
        RouteFaults(c, isLoopback, i);
        if !isLoopback(l.bind) {
          return Err(NotLoopback(l.bind));
        }
        var claimed := ClaimAddr(seenAddrs, route.name, l, SocksListeners(before));
        if claimed.Err? {
          return Err(claimed.error);
        }
        seenAddrs := claimed.value;
      }
    }
    assert routes[..|routes|] == routes;
    return Ok(seenAddrs);
  }

  /** One more enabled listener, checked for loopback and claimed. */
  lemma {:induction false} OneMoreListener(ls: seq<Listener>, l: Listener, isLoopback: string -> bool)
    ensures AllLoopback(ls + [l], isLoopback) <==> AllLoopback(ls, isLoopback) && isLoopback(l.bind)
    ensures Distinct(ls + [l]) <==> Distinct(ls) && l !in ls
  {
    DistinctAppend(ls, l);
    assert l in ls + [l];
    assert forall x :: x in ls + [l] <==> x in ls || x == l;
  }

  /** Accepts a configuration exactly when it is valid; an error names something that is wrong with it. */
  method Validate(c: Config, isLoopback: string -> bool) returns (r: Result<(), ConfigError>)
    ensures r.Ok? <==> Valid(c, isLoopback)
    ensures r.Err? ==> Justified(c, isLoopback, r.error)
  {
    hide RoutesValid, Claims, Valid, AllLoopback, Distinct, EnabledListeners, NamesOf;
    ghost var socks := SocksListeners(c.routes);
    ValidInStages(c, isLoopback);
    var claimed := ValidateRoutes(c, isLoopback);
    if claimed.Err? {
      return Err(claimed.error);
    }
    claimed := ValidateListener(c, isLoopback, socks, claimed.value, "pac", c.pac);
    if claimed.Err? {
      return Err(claimed.error);
    }
    if c.proxy.Some? && isLoopback(c.proxy.value.bind) && (c.proxy.value.port <= 0 || c.proxy.value.port > 65535) {
      return Err(BadProxyPort(c.proxy.value.port));
    }
    claimed := ValidateListener(c, isLoopback, socks + Present(c.pac), claimed.value, "proxy", c.proxy);
    if claimed.Err? {
      return Err(claimed.error);
    }
    return Ok(());
  }

  /** What each of the checks contributes. */
  lemma {:induction false} ValidInStages(c: Config, isLoopback: string -> bool)
    ensures var socks, all := SocksListeners(c.routes), EnabledListeners(c);
      && socks + Present(c.pac) <= all && (socks + Present(c.pac)) + Present(c.proxy) == all
      && (RoutesValid(c.routes, isLoopback) ==> AllLoopback(socks, isLoopback) && Distinct(socks))
      && (Valid(c, isLoopback) <==>
            && RoutesValid(c.routes, isLoopback) && AllLoopback(all, isLoopback) && Distinct(all)
            && (c.proxy.Some? ==> 1 <= c.proxy.value.port <= 65535))
  {
    if Valid(c, isLoopback) {
      SocksOfValid(c, isLoopback);
    }
  }

  lemma {:induction false} SocksOfValid(c: Config, isLoopback: string -> bool)
    requires Valid(c, isLoopback)
    ensures RoutesValid(c.routes, isLoopback)
  {
    var socks, all := SocksListeners(c.routes), EnabledListeners(c);
    assert forall l :: l in socks ==> l in all;
    forall i, j | 0 <= i < j < |socks| ensures socks[i] != socks[j] {
      assert all[i] == socks[i] && all[j] == socks[j];
    }
  }

  /** The check of one daemon-wide listener, when it is enabled: loopback, then claimed. */
  method ValidateListener(c: Config, isLoopback: string -> bool, ghost before: seq<Listener>, seen: map<string, string>,
      owner: string, l: Option<Listener>) returns (r: Result<map<string, string>, ConfigError>)
    requires Claims(seen, before) && before + Present(l) <= EnabledListeners(c)
    requires AllLoopback(before, isLoopback) && Distinct(before)
    ensures match r
            case Ok(now) =>
              Claims(now, before + Present(l)) && AllLoopback(before + Present(l), isLoopback)
              && Distinct(before + Present(l))
            case Err(e) => !Valid(c, isLoopback) && Justified(c, isLoopback, e)
  {
    if l.None? {
      assert before + [] == before;
      return Ok(seen);
    }
    var x := l.value;
    assert EnabledListeners(c)[|before|] == (before + [x])[|before|] == x;
    if !isLoopback(x.bind) {
      return Err(NotLoopback(x.bind));
    }
    OneMoreListener(before, x, isLoopback);
    if x in before {
      SharedWithLater(before, x, EnabledListeners(c));
      SharedIsInvalid(c, isLoopback, Render(x));
    }
    r := ClaimAddr(seen, owner, x, before);
  }

  lemma {:induction false} SharedIsInvalid(c: Config, isLoopback: string -> bool, addr: string)
    requires Shared(EnabledListeners(c), addr)
    ensures !Valid(c, isLoopback)
  {
    hide Render, AllLoopback, EnabledListeners, NamesOf;
    var all := EnabledListeners(c);
    var i, j :| 0 <= i < j < |all| && Render(all[i]) == addr && Render(all[j]) == addr;
    RenderInjective(all[i], all[j]);
    assert !Distinct(all);
  }

  // ---- What validity gives the routing code ----

  lemma {:induction false} JoinHostPortInjective(a: Listener, b: Listener)
    requires JoinHostPort(a.bind, a.port) == JoinHostPort(b.bind, b.port)
    ensures a == b
  {
    ItoaHasNoColon(a.port);
    ItoaHasNoColon(b.port);
    var x := if ':' in a.bind || '%' in a.bind then "[" + a.bind + "]" else a.bind;
    var y := if ':' in b.bind || '%' in b.bind then "[" + b.bind + "]" else b.bind;
    ColonSplits(x, Itoa(a.port), y, Itoa(b.port));
    ItoaInjective(a.port, b.port);
    assert forall c: char :: c in a.bind ==> c in x;
    assert forall c: char :: c in b.bind ==> c in y;
    if x != a.bind && y != b.bind {
      assert a.bind == x[1..|x| - 1] && b.bind == y[1..|y| - 1];
    }
  }

  /**
   In a valid configuration no two tunnels have the same upstream address, as text, and none has the
   front door's: the upstream the table picks tells which route's tunnel it is.
   */
  lemma {:induction false} UpstreamsAreDistinct(c: Config, isLoopback: string -> bool, i: nat, j: nat)
    requires Valid(c, isLoopback) && i < |SocksListeners(c.routes)|
    ensures var ls := SocksListeners(c.routes);
      && (j < |ls| && i != j ==> JoinHostPort(ls[i].bind, ls[i].port) != JoinHostPort(ls[j].bind, ls[j].port))
      && (c.proxy.Some? ==>
            JoinHostPort(ls[i].bind, ls[i].port) != JoinHostPort(c.proxy.value.bind, c.proxy.value.port))
  {
    var ls := SocksListeners(c.routes);
    var all := EnabledListeners(c);
    assert all[i] == ls[i];
    if j < |ls| && i != j {
      assert all[j] == ls[j] && ls[i] != ls[j];
      if JoinHostPort(ls[i].bind, ls[i].port) == JoinHostPort(ls[j].bind, ls[j].port) {
        JoinHostPortInjective(ls[i], ls[j]);
      }
    }
    if c.proxy.Some? {
      assert all[|all| - 1] == c.proxy.value && i < |all| - 1;
      if JoinHostPort(ls[i].bind, ls[i].port) == JoinHostPort(c.proxy.value.bind, c.proxy.value.port) {
        JoinHostPortInjective(ls[i], c.proxy.value);
      }
    }
  }
}
