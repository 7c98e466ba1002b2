/** The front door as a whole: a client's bytes, the routing table, and the two ways to dial. */
module Proxy {
  import opened Common
  import opened Socks
  import opened SocksIo
  import opened FrontDoor
  import opened Routing

  /** What the network answers: direct dials by target, tunnelled ones by the upstream's address. */
  datatype Network = Network(direct: (Bytes, nat) -> Result<Bytes, Chain>, tunnel: string -> Attempt)

  ghost predicate Genuine(net: Network) {
    && (forall h: Bytes, p: nat :: Attempt.Direct(net.direct(h, p)).Genuine())
    && (forall a: string :: !net.tunnel(a).Direct? && net.tunnel(a).Genuine())
  }

  function AsText(host: Bytes): (t: string)
    ensures |t| == |host| && forall i :: 0 <= i < |t| ==> t[i] as int == host[i]
  {
    seq(|host|, i requires 0 <= i < |host| => host[i] as char)
  }

  /** dial: the decision's tunnel, or the target itself when it names none. */
  function AttemptFor(d: Decision, net: Network, host: Bytes, port: nat): Attempt {
    if d.upstream == "" then Attempt.Direct(net.direct(host, port)) else net.tunnel(d.upstream)
  }

  /** Everything handleSocks writes before the relay, with the table in the state its updates left it in. */
  function Conversation(ip: IpText, input: Bytes, routes: seq<Route>, updates: seq<map<string, bool>>,
      names: Names, net: Network, client: Client, closing: bool): Bytes
  {
    var pc := Serve(ip, Hello, input).pc;
    var attempt :=
      if !pc.Dialling? then Unreachable([])
      else AttemptFor(Decided(Entries(routes), Current(updates), names, AsText(pc.host)), net, pc.host, pc.port);
    Transcript(ip, input, attempt, client, closing)
  }

  /** The newest update says that the named route is reachable directly. */
  predicate ToldDirect(updates: seq<map<string, bool>>, name: string) {
    updates != [] && name in updates[|updates| - 1] && !updates[|updates| - 1][name]
  }

  /**
   A host of a route that needs its tunnel, or whose state is not known, never touches the direct
   network: whatever that would have answered, the client sees the same. It sees the code of a success
   only if socksConnect got through the route's own tunnel.
   */
  lemma {:induction false} TunnelledIsNeverDirect(ip: IpText, input: Bytes, routes: seq<Route>,
      updates: seq<map<string, bool>>, names: Names, net: Network, other: Network, client: Client, closing: bool)
    requires Genuine(net) && Genuine(other) && net.tunnel == other.tunnel
    requires var pc := Serve(ip, Hello, input).pc;
             pc.Dialling? && RouteFor(routes, names, AsText(pc.host)).Some?
             && !ToldDirect(updates, RouteFor(routes, names, AsText(pc.host)).value.name)
    ensures Conversation(ip, input, routes, updates, names, net, client, closing)
         == Conversation(ip, input, routes, updates, names, other, client, closing)
    ensures var t := Conversation(ip, input, routes, updates, names, net, client, closing);
      |t| >= 4 && t[3] == SUCCEEDED ==>
        var pc := Serve(ip, Hello, input).pc;
        var attempt := net.tunnel(RouteFor(routes, names, AsText(pc.host)).value.upstream);
        attempt.Tunnel? && ConnectResult(ip, pc.host, pc.port, attempt.response, attempt.room).Ok?
  {
    hide Serve, Connect, ReplyCode, Transcript;
    var pc := Serve(ip, Hello, input).pc;
    DirectOnlyWhenToldSo(routes, updates, names, AsText(pc.host));
    var whole := TranscriptIsLegal(ip, input, net.tunnel(RouteFor(routes, names, AsText(pc.host)).value.upstream),
                                   client, closing);
  }

  /** A host of no route, or of one the newest update calls direct, never touches a tunnel. */
  lemma {:induction false} DirectIsNeverTunnelled(ip: IpText, input: Bytes, routes: seq<Route>,
      updates: seq<map<string, bool>>, names: Names, net: Network, other: Network, client: Client, closing: bool)
    requires net.direct == other.direct
    requires var pc := Serve(ip, Hello, input).pc;
             pc.Dialling? && (RouteFor(routes, names, AsText(pc.host)).Some? ==>
                                ToldDirect(updates, RouteFor(routes, names, AsText(pc.host)).value.name))
    ensures Conversation(ip, input, routes, updates, names, net, client, closing)
         == Conversation(ip, input, routes, updates, names, other, client, closing)
  {
    hide Serve, Connect, Transcript;
    DirectOnlyWhenToldSo(routes, updates, names, AsText(Serve(ip, Hello, input).pc.host));
  }

  /**
   What such hosts are told: a whole success reply exactly when the route's own tunnel lets socksConnect
   through, or the direct dial succeeds, in time and while the server is not closing.
   */
  lemma {:induction false} SuccessIff(ip: IpText, input: Bytes, routes: seq<Route>, updates: seq<map<string, bool>>,
      names: Names, net: Network, client: Client, closing: bool)
    requires Genuine(net) && Serve(ip, Hello, input).pc.Dialling?
    ensures var pc := Serve(ip, Hello, input).pc;
      var route := RouteFor(routes, names, AsText(pc.host));
      var tunnelled := route.Some? && !ToldDirect(updates, route.value.name);
      Conversation(ip, input, routes, updates, names, net, client, closing) == [5, 0, 5, 0, 0, 1, 0, 0, 0, 0, 0, 0]
      <==>
        && !closing && client.room >= 12 && client.dialEnds < 10_000_000_000
        && if tunnelled then
             match net.tunnel(route.value.upstream)
             case Tunnel(response, room, _) => ConnectResult(ip, pc.host, pc.port, response, room).Ok?
             case _ => false
           else net.direct(pc.host, pc.port).Ok?
  {
    hide Serve, Transcript, Live, Conversation, ConnectResult, RouteFor, ToldDirect, AsText, Client.Left;
    var pc := Serve(ip, Hello, input).pc;
    var attempt := AttemptMade(routes, updates, names, net, pc.host, pc.port);
    ConversationIs(ip, input, routes, updates, names, net, client, closing);
    var whole := TranscriptIsLegal(ip, input, attempt, client, closing);
    assert ACCEPTANCE + Reply(SUCCEEDED) == [5, 0, 5, 0, 0, 1, 0, 0, 0, 0, 0, 0];
    LiveIff(ip, input, attempt, client, closing);
  }

  /** The dial made for a host, by its route and what the newest update says of it. */
  function AttemptMade(routes: seq<Route>, updates: seq<map<string, bool>>, names: Names, net: Network,
      host: Bytes, port: nat): Attempt
  {
    var route := RouteFor(routes, names, AsText(host));
    if route.Some? && !ToldDirect(updates, route.value.name) then net.tunnel(route.value.upstream)
    else Attempt.Direct(net.direct(host, port))
  }

  lemma {:induction false} ConversationIs(ip: IpText, input: Bytes, routes: seq<Route>,
      updates: seq<map<string, bool>>, names: Names, net: Network, client: Client, closing: bool)
    requires Genuine(net) && Serve(ip, Hello, input).pc.Dialling?
    ensures var pc := Serve(ip, Hello, input).pc;
      var attempt := AttemptMade(routes, updates, names, net, pc.host, pc.port);
      && attempt.Genuine()
      && Conversation(ip, input, routes, updates, names, net, client, closing)
         == Transcript(ip, input, attempt, client, closing)
  {
    hide Serve, Transcript;
    DirectOnlyWhenToldSo(routes, updates, names, AsText(Serve(ip, Hello, input).pc.host));
  }

  lemma {:induction false} LiveIff(ip: IpText, input: Bytes, attempt: Attempt, client: Client, closing: bool)
    requires Serve(ip, Hello, input).pc.Dialling?
    ensures var pc := Serve(ip, Hello, input).pc;
      Live(ip, input, attempt, client, closing) && client.Left() >= 10 <==>
        && !closing && client.room >= 12 && client.dialEnds < 10_000_000_000
        && match attempt
           case Direct(outcome) => outcome.Ok?
           case Unreachable(_) => false
           case Tunnel(response, room, _) => ConnectResult(ip, pc.host, pc.port, response, room).Ok?
  {
    hide Serve, ConnectResult;
  }
}
