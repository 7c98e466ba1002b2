/**
 socksConnect talking to readSocksRequest over two FIFO byte streams.

 A state holds both program counters and, per direction, the bytes in flight
 and the bytes delivered but not yet read. A schedule is any sequence of
 events; a delivery moves any non-empty chunk, so messages may be split and
 merged at will. Once its side of the handshake is over, each end may also
 send payload. Either end may break off at any moment (a timeout, a reset, the
 process stopping): it does nothing more and its connection is closed, so its
 peer reads what still arrives, which may not be all, and then the end of the
 stream. The reply may be cut short, or, when the dial ends past the deadline,
 not be sent at all.
 */
module SocksNet {
  import opened Common
  import opened Socks

  /** What the client was asked to reach. */
  datatype Target = Target(ip: IpText, host: Bytes, port: int)

  datatype Net = Net(
    client: ClientPc, server: ServerPc,
    toServer: Bytes, serverIn: Bytes,
    toClient: Bytes, clientIn: Bytes,
    asked: Option<(Bytes, nat)>,   // the (host, port) handed to dial
    sent: nat,                     // how much of its reply the server got out
    clientPayload: Bytes, serverPayload: Bytes,
    clientGone: bool, serverGone: bool)

  datatype Event =
    | ClientReads
    | ServerReads
    | ClientSeesEof
    | ServerSeesEof
    | DialEnds(code: byte, k: nat)
    | ToServer(k: nat)
    | ToClient(k: nat)
    | ClientSends(bs: Bytes)
    | ServerSends(bs: Bytes)
    | ClientBreaks
    | ServerBreaks
    | LosesToServer  // a reset discards what a broken-off end had in flight
    | LosesToClient
  {
    predicate Payload() { ClientSends? || ServerSends? }

    predicate Breaks() { ClientBreaks? || ServerBreaks? }
  }

  /** The client writes its greeting before it first reads. */
  function Start(): Net {
    Net(AwaitMethod, Hello, GREETING, [], [], [], None, 0, [], [], false, false)
  }

  /** The client has broken off, or dial closes the connection of its failed socksConnect. */
  predicate ClientClosed(n: Net) {
    n.clientGone || n.client.Failed?
  }

  /** The server has broken off, or closes the connection because it has refused. */
  predicate ServerClosed(n: Net) {
    n.serverGone || n.server.Refused? || (n.server.Answered? && n.server.code != SUCCEEDED)
  }

  predicate Enabled(n: Net, e: Event) {
    match e
    case ClientReads => !n.clientGone && n.client.Reading() && |n.clientIn| >= n.client.Need()
    case ServerReads => !n.serverGone && n.server.Reading() && |n.serverIn| >= n.server.Need()
    case ClientSeesEof =>
      !n.clientGone && n.client.Reading() && |n.clientIn| < n.client.Need() && n.toClient == [] && ServerClosed(n)
    case ServerSeesEof =>
      !n.serverGone && n.server.Reading() && |n.serverIn| < n.server.Need() && n.toServer == [] && ClientClosed(n)
    case DialEnds(code, k) => !n.serverGone && n.server.Dialling? && k <= |Reply(code)|
    case ToServer(k) => 0 < k <= |n.toServer|
    case ToClient(k) => 0 < k <= |n.toClient|
    case ClientSends(_) => !n.clientGone && n.client.Connected?
    case ServerSends(_) => !n.serverGone && n.server == Answered(SUCCEEDED)
    case ClientBreaks => !n.clientGone
    case ServerBreaks => !n.serverGone
    case LosesToServer => n.clientGone && n.toServer != []
    case LosesToClient => n.serverGone && n.toClient != []
  }

  function Step(t: Target, n: Net, e: Event): Net
    requires Enabled(n, e)
  {
    match e
    case ClientReads =>
      var k := n.client.Need();
      var (pc, out) := ClientRead(t.ip, t.host, t.port, n.client, n.clientIn[..k]);
      n.(client := pc, clientIn := n.clientIn[k..], toServer := n.toServer + out)
    case ServerReads =>
      var k := n.server.Need();
      var (pc, out) := ServerRead(t.ip, n.server, n.serverIn[..k]);
      n.(server := pc, serverIn := n.serverIn[k..], toClient := n.toClient + out,
         asked := if pc.Dialling? then Some((pc.host, pc.port)) else n.asked)
    case ClientSeesEof => n.(client := Failed(ShortReply), clientIn := [])
    case ServerSeesEof =>
      n.(server := Refused(Eof), serverIn := [], toClient := n.toClient + ServerEof(n.server))
    case DialEnds(code, k) => n.(server := Answered(code), sent := k, toClient := n.toClient + Reply(code)[..k])
    case ToServer(k) => n.(toServer := n.toServer[k..], serverIn := n.serverIn + n.toServer[..k])
    case ToClient(k) => n.(toClient := n.toClient[k..], clientIn := n.clientIn + n.toClient[..k])
    case ClientSends(bs) => n.(toServer := n.toServer + bs, clientPayload := n.clientPayload + bs)
    case ServerSends(bs) => n.(toClient := n.toClient + bs, serverPayload := n.serverPayload + bs)
    case ClientBreaks => n.(clientGone := true)
    case ServerBreaks => n.(serverGone := true)
    case LosesToServer => n.(toServer := [])
    case LosesToClient => n.(toClient := [])
  }

  predicate Schedule(t: Target, n: Net, es: seq<Event>)
    decreases |es|
  {
    es == [] || (Enabled(n, es[0]) && Schedule(t, Step(t, n, es[0]), es[1..]))
  }

  function After(t: Target, n: Net, es: seq<Event>): Net
    requires Schedule(t, n, es)
    decreases |es|
  {
    if es == [] then n else After(t, Step(t, n, es[0]), es[1..])
  }

  /** Neither end is inside the handshake any more: each is done with it or has broken off. */
  predicate Finished(n: Net) {
    && (n.clientGone || !n.client.Reading())
    && (n.serverGone || (!n.server.Reading() && !n.server.Dialling?))
  }

  // ---- The joint invariant ----

  /** The client has written its request. */
  predicate Requested(t: Target, pc: ClientPc) {
    !pc.AwaitMethod? && !(pc.Failed? && TooLong(t.ip, t.host))
  }

  /** The suffix of the client's stream the server has still to read at its program counter. */
  ghost function ServerExpects(t: Target, n: Net): Bytes {
    var dst := DestinationOf(t.ip, t.host);
    var port := PortBytes(t.port);
    match n.server
    case Hello => GREETING
    case Methods(_) => [NO_AUTH]
    case Request => if Requested(t, n.client) && !TooLong(t.ip, t.host) then RequestMessage(0, dst, port) else []
    case Address(_, _) => if dst.Domain? then [] else dst.octets + port
    case NameLength(_) => if dst.Domain? && |dst.name| < 256 then [|dst.name|] + (dst.name + port) else []
    case Name(_, _) => if dst.Domain? then dst.name + port else []
    case Port(_, _) => port
    case Answered(_) => n.clientPayload
    case _ => []
  }

  /** What the server's program counter has kept of the request. */
  ghost predicate ServerKnows(t: Target, n: Net) {
    var dst := DestinationOf(t.ip, t.host);
    match n.server
    case Hello => n.client.AwaitMethod?
    case Methods(c) => c == 1 && n.client.AwaitMethod?
    case Address(cmd, atyp) => cmd == CONNECT && !dst.Domain? && atyp == (if dst.Ip4? then IPV4 else IPV6)
    case NameLength(cmd) => cmd == CONNECT && dst.Domain? && |dst.name| < 256
    case Name(cmd, c) => cmd == CONNECT && dst.Domain? && c == |dst.name|
    case Port(cmd, h) => cmd == CONNECT && h == Canonical(t.ip, t.host)
    case Dialling(h, p) => h == Canonical(t.ip, t.host) && p == t.port % 0x10000
    case _ => true
  }

  /** The reply as far as it went out, and the payload behind it. */
  function Answer(n: Net): Bytes
    requires n.server.Answered?
  {
    Clip(Reply(n.server.code), n.sent) + n.serverPayload
  }

  /** A success reply that was cut short: what follows it stands where the rest of it should. */
  predicate Misread(n: Net) {
    n.server == Answered(SUCCEEDED) && n.sent < 10
  }

  /** The suffix of the server's stream the client has still to read at its program counter. */
  ghost function ClientExpects(n: Net): Bytes {
    match n.client
    case AwaitMethod => if n.server.Hello? || n.server.Methods? then [] else ACCEPTANCE
    case AwaitReply => if n.server.Answered? then Answer(n) else []
    case BoundAddress(_) => [0, 0, 0, 0] + ([0, 0] + n.serverPayload)
    case BoundPort => [0, 0] + n.serverPayload
    case Connected => n.serverPayload
    case _ => []
  }

  /** Why a client has failed: it was told so, or the stream ended. */
  ghost predicate Fails(t: Target, n: Net, error: ConnectError) {
    || (n.serverGone && error == ShortReply)
    || (TooLong(t.ip, t.host) && error == Code(ADDRESS_NOT_SUPPORTED))
    || (n.server.Answered? && n.server.code != SUCCEEDED
        && error == if n.sent >= 4 then Code(n.server.code) else ShortReply)
    || (Misread(n) && n.sent + |n.serverPayload| >= 4)
  }

  /** The client has read a success code. */
  predicate ReadSuccess(pc: ClientPc) {
    pc.BoundAddress? || pc.BoundNameLength? || pc.BoundName? || pc.BoundPort? || pc.Connected?
  }

  /** How far each end can be relative to the other. */
  ghost predicate Aligned(t: Target, n: Net) {
    && (n.client.AwaitMethod? ==> n.server.Hello? || n.server.Methods? || n.server.Request? || n.server.Refused?)
    && (n.client.AwaitReply? ==> !n.server.Hello? && !n.server.Methods?)
    && (TooLong(t.ip, t.host) ==>
          (n.client.AwaitMethod? || n.client.Failed?)
          && (n.server.Hello? || n.server.Methods? || n.server.Request? || n.server.Refused?))
    && (ReadSuccess(n.client) ==> n.server == Answered(SUCCEEDED) && n.sent + |n.serverPayload| >= 4)
    && n.sent <= 10
    && (n.clientPayload != [] ==> n.client.Connected?)
    && (n.serverPayload != [] ==> n.server == Answered(SUCCEEDED))
    && (n.client.Failed? ==> Fails(t, n, n.client.error))
    && (n.server.Refused? ==>
          n.server.error == Eof && (n.clientGone || (TooLong(t.ip, t.host) && n.client.Failed?)))
    && (if n.server.Dialling? || n.server.Answered? then n.asked == Some((Canonical(t.ip, t.host), t.port % 0x10000))
        else n.asked == None)
  }

  /** `left` is what is still to come: all of it, or some of it from an end that has broken off. */
  predicate Sees(left: Bytes, expected: Bytes, gone: bool) {
    left <= expected && (gone || left == expected)
  }

  ghost predicate ServerInv(t: Target, n: Net) {
    !n.serverGone ==> ServerKnows(t, n) && Sees(n.serverIn + n.toServer, ServerExpects(t, n), n.clientGone)
  }

  ghost predicate ClientInv(n: Net) {
    !n.clientGone && !n.client.Failed? && (!Misread(n) || n.client.AwaitReply?) ==>
      && (n.client.BoundAddress? ==> n.client.atyp == IPV4) && !n.client.BoundNameLength? && !n.client.BoundName?
      && Sees(n.clientIn + n.toClient, ClientExpects(n), n.serverGone)
  }

  ghost predicate Inv(t: Target, n: Net) {
    Aligned(t, n) && ServerInv(t, n) && ClientInv(n)
  }

  /** A full read takes the head of what is expected. */
  lemma TakeChunk(delivered: Bytes, flight: Bytes, head: Bytes, tail: Bytes, gone: bool)
    requires Sees(delivered + flight, head + tail, gone) && |delivered| >= |head|
    ensures delivered[..|head|] == head && Sees(delivered[|head|..] + flight, tail, gone)
  {
    var left := delivered + flight;
    assert left == (head + tail)[..|left|];
    assert delivered[..|head|] == left[..|head|] == head;
    assert delivered[|head|..] + flight == left[|head|..];
    assert left[|head|..] == (head + tail)[|head|..][..|left| - |head|] == tail[..|left| - |head|];
  }

  // ---- The client's reads ----

  lemma {:induction false} MethodReadKeepsInv(t: Target, n: Net)
    requires Inv(t, n) && Enabled(n, ClientReads) && n.client.AwaitMethod?
    ensures Inv(t, Step(t, n, ClientReads))
  {
    var n' := Step(t, n, ClientReads);
    assert n.server.Request?;
    TakeChunk(n.clientIn, n.toClient, ACCEPTANCE, [], n.serverGone);
    if TooLong(t.ip, t.host) {
      assert n'.toServer == n.toServer;
    } else if !n.serverGone {
      assert n.serverIn + n.toServer == [];
      assert n'.serverIn + n'.toServer == EncodeRequest(t.ip, t.host, t.port);
    }
  }

  lemma {:induction false} ReplyReadKeepsInv(t: Target, n: Net)
    requires Inv(t, n) && Enabled(n, ClientReads) && n.client.AwaitReply?
    ensures Inv(t, Step(t, n, ClientReads))
  {
    hide Answer, Clip, Reply, RequestMessage, Canonical, PortBytes, DestinationOf;
    ReplyHeader(t, n);
    assert Step(t, n, ClientReads).toServer == n.toServer;
  }

  /** The header the client reads: the server's own if four bytes of the reply went out, else some of the payload. */
  lemma {:induction false} ReplyHeader(t: Target, n: Net)
    requires Inv(t, n) && Enabled(n, ClientReads) && n.client.AwaitReply?
    ensures n.server.Answered? && n.sent + |n.serverPayload| >= 4 && (n.sent < 4 ==> Misread(n))
    ensures n.sent >= 4 ==> n.clientIn[..4] == [VERSION, n.server.code, 0, IPV4]
    ensures n.sent == 10 ==>
      Sees(n.clientIn[4..] + n.toClient, [0, 0, 0, 0] + ([0, 0] + n.serverPayload), n.serverGone)
  {
    hide ServerExpects, ServerKnows, Fails, TooLong, Canonical, Answer, AnswerTail;
    AnswerParts(n);
    if n.sent >= 4 {
      TakeChunk(n.clientIn, n.toClient, [VERSION, n.server.code, 0, IPV4], AnswerTail(n), n.serverGone);
    }
  }

  /** The answer from its fifth byte on. */
  function AnswerTail(n: Net): Bytes
    requires n.sent >= 4
  {
    Clip([0, 0, 0, 0, 0, 0], n.sent - 4) + n.serverPayload
  }

  lemma {:induction false} AnswerParts(n: Net)
    requires n.server.Answered? && n.sent <= 10
    ensures |Answer(n)| == n.sent + |n.serverPayload|
    ensures n.sent >= 4 ==> Answer(n) == [VERSION, n.server.code, 0, IPV4] + AnswerTail(n)
    ensures n.sent == 10 ==> AnswerTail(n) == [0, 0, 0, 0] + ([0, 0] + n.serverPayload)
  {
    var header, zeros := [VERSION, n.server.code, 0, IPV4], [0, 0, 0, 0, 0, 0];
    assert Reply(n.server.code) == header + zeros;
    if n.sent >= 4 {
      assert Clip(header + zeros, n.sent) == header + Clip(zeros, n.sent - 4);
    }
  }

  lemma {:induction false} BoundReadKeepsInv(t: Target, n: Net)
    requires Inv(t, n) && Enabled(n, ClientReads) && ReadSuccess(n.client)
    ensures Inv(t, Step(t, n, ClientReads))
  {
    hide ClientRead, Answer, Fails, Canonical, RequestMessage, DestinationOf, PortBytes;
    BoundNext(t, n.client, n.clientIn[..n.client.Need()]);
    assert Step(t, n, ClientReads).toServer == n.toServer;
    if !Misread(n) {
      BoundChunk(n);
    }
  }

  /** The reads of the bound address lead on to the next, write nothing and end connected. */
  lemma BoundNext(t: Target, pc: ClientPc, bs: Bytes)
    requires pc.Reading() && ReadSuccess(pc) && |bs| == pc.Need()
    ensures var (next, out) := ClientRead(t.ip, t.host, t.port, pc, bs);
      && out == [] && ReadSuccess(next)
      && (pc.BoundAddress? ==> next == BoundPort) && (pc.BoundPort? ==> next == Connected)
  {
  }

  lemma {:induction false} BoundChunk(n: Net)
    requires ClientInv(n) && Enabled(n, ClientReads) && ReadSuccess(n.client) && !Misread(n)
    ensures n.client == BoundAddress(IPV4) ==>
      Sees(n.clientIn[4..] + n.toClient, [0, 0] + n.serverPayload, n.serverGone)
    ensures n.client.BoundPort? ==> Sees(n.clientIn[2..] + n.toClient, n.serverPayload, n.serverGone)
    ensures n.client == BoundAddress(IPV4) || n.client.BoundPort?
  {
    if n.client.BoundAddress? {
      TakeChunk(n.clientIn, n.toClient, [0, 0, 0, 0], [0, 0] + n.serverPayload, n.serverGone);
    } else {
      TakeChunk(n.clientIn, n.toClient, [0, 0], n.serverPayload, n.serverGone);
    }
  }

  lemma {:induction false} ClientEofKeepsInv(t: Target, n: Net)
    requires Inv(t, n) && Enabled(n, ClientSeesEof)
    ensures Inv(t, Step(t, n, ClientSeesEof))
  {
    assert n.clientIn + n.toClient == n.clientIn;
    if !n.serverGone {
      assert n.server.Answered? && n.client.AwaitReply?;
      assert |Answer(n)| < 4;
    }
  }

  // ---- The server's reads ----

  lemma {:induction false} GreetingReadKeepsInv(t: Target, n: Net)
    requires Inv(t, n) && Enabled(n, ServerReads) && (n.server.Hello? || n.server.Methods?)
    ensures Inv(t, Step(t, n, ServerReads))
  {
    var n' := Step(t, n, ServerReads);
    if n.server.Hello? {
      assert GREETING == [VERSION, 1] + [NO_AUTH];
      TakeChunk(n.serverIn, n.toServer, [VERSION, 1], [NO_AUTH], n.clientGone);
      assert n'.toClient == n.toClient;
    } else {
      TakeChunk(n.serverIn, n.toServer, [NO_AUTH], [], n.clientGone);
      if !n.clientGone {
        assert n.clientIn + n.toClient == [];
        assert n'.clientIn + n'.toClient == ACCEPTANCE;
      }
    }
  }

  lemma {:induction false} RequestReadKeepsInv(t: Target, n: Net)
    requires Inv(t, n) && Enabled(n, ServerReads) && n.server.Request?
    ensures Inv(t, Step(t, n, ServerReads))
  {
    var dst := DestinationOf(t.ip, t.host);
    var port := PortBytes(t.port);
    match dst {
      case Ip4(b) => TakeChunk(n.serverIn, n.toServer, [VERSION, CONNECT, 0, IPV4], b + port, n.clientGone);
      case Ip6(b) => TakeChunk(n.serverIn, n.toServer, [VERSION, CONNECT, 0, IPV6], b + port, n.clientGone);
      case Domain(d) =>
        TakeChunk(n.serverIn, n.toServer, [VERSION, CONNECT, 0, DOMAIN], [|d|] + (d + port), n.clientGone);
    }
    assert Step(t, n, ServerReads).toClient == n.toClient;
  }

  lemma {:induction false} AddressReadKeepsInv(t: Target, n: Net)
    requires t.ip.Lawful() && Inv(t, n) && Enabled(n, ServerReads) && n.server.Address?
    ensures Inv(t, Step(t, n, ServerReads))
  {
    TakeChunk(n.serverIn, n.toServer, DestinationOf(t.ip, t.host).octets, PortBytes(t.port), n.clientGone);
    assert Step(t, n, ServerReads).toClient == n.toClient;
  }

  lemma {:induction false} NameReadKeepsInv(t: Target, n: Net)
    requires Inv(t, n) && Enabled(n, ServerReads) && (n.server.NameLength? || n.server.Name?)
    ensures Inv(t, Step(t, n, ServerReads))
  {
    var dst := DestinationOf(t.ip, t.host);
    var port := PortBytes(t.port);
    if n.server.NameLength? {
      TakeChunk(n.serverIn, n.toServer, [|dst.name|], dst.name + port, n.clientGone);
    } else {
      TakeChunk(n.serverIn, n.toServer, dst.name, port, n.clientGone);
    }
    assert Step(t, n, ServerReads).toClient == n.toClient;
  }

  lemma {:induction false} PortReadKeepsInv(t: Target, n: Net)
    requires Inv(t, n) && Enabled(n, ServerReads) && n.server.Port?
    ensures Inv(t, Step(t, n, ServerReads))
  {
    var port := PortBytes(t.port);
    assert port == port + [];
    TakeChunk(n.serverIn, n.toServer, port, [], n.clientGone);
    assert Step(t, n, ServerReads).toClient == n.toClient;
  }

  lemma {:induction false} ServerEofKeepsInv(t: Target, n: Net)
    requires Inv(t, n) && Enabled(n, ServerSeesEof)
    ensures Inv(t, Step(t, n, ServerSeesEof))
  {
    assert n.clientGone || (TooLong(t.ip, t.host) && n.client.Failed?);
  }

  lemma {:induction false} DialKeepsInv(t: Target, n: Net, code: byte, k: nat)
    requires Inv(t, n) && Enabled(n, DialEnds(code, k))
    ensures Inv(t, Step(t, n, DialEnds(code, k)))
  {
    hide Clip, Canonical, RequestMessage, DestinationOf, PortBytes, Reply;
    var n' := Step(t, n, DialEnds(code, k));
    CutReply(code, k);
    if !n.clientGone && !n.client.Failed? {
      assert n.client.AwaitReply?;
      assert n.clientIn + n.toClient == [];
      assert n.clientIn + (n.toClient + Reply(code)[..k]) == (n.clientIn + n.toClient) + Reply(code)[..k];
      assert Answer(n') == Reply(code)[..k] + [];
    }
  }

  lemma CutReply(code: byte, k: nat)
    requires k <= |Reply(code)|
    ensures k <= 10 && Reply(code)[..k] == Clip(Reply(code), k)
  {
  }

  // ---- Everything else ----

  /** Both have come equally far. */
  predicate SamePlace(n: Net, n': Net) {
    n'.client == n.client && n'.server == n.server && n'.sent == n.sent && n'.asked == n.asked
    && n'.clientPayload == n.clientPayload && n'.serverPayload == n.serverPayload
    && (n.clientGone ==> n'.clientGone) && (n.serverGone ==> n'.serverGone)
  }

  lemma SamePlaceAligned(t: Target, n: Net, n': Net)
    requires SamePlace(n, n') && Aligned(t, n)
    ensures Aligned(t, n')
  {
    hide Canonical;
  }

  lemma SamePlaceExpects(t: Target, n: Net, n': Net)
    requires SamePlace(n, n')
    ensures ServerKnows(t, n') == ServerKnows(t, n) && ServerExpects(t, n') == ServerExpects(t, n)
    ensures ClientExpects(n') == ClientExpects(n) && Misread(n') == Misread(n)
  {
    hide RequestMessage, Canonical, PortBytes, Reply;
  }

  /**
   The invariant looks at a stream only as a whole, so a delivery cannot disturb it; a loss or a break
   only makes it look at less.
   */
  lemma {:induction false} TransportKeepsInv(t: Target, n: Net, e: Event)
    requires Inv(t, n) && Enabled(n, e)
    requires e.ToServer? || e.ToClient? || e.Breaks() || e.LosesToServer? || e.LosesToClient?
    ensures Inv(t, Step(t, n, e))
  {
    hide Aligned, ServerKnows, ServerExpects, ClientExpects, Misread;
    var n' := Step(t, n, e);
    SamePlaceAligned(t, n, n');
    SamePlaceExpects(t, n, n');
    if e.LosesToServer? {
      assert n'.serverIn + n'.toServer <= n.serverIn + n.toServer;
    } else {
      assert n'.serverIn + n'.toServer == n.serverIn + n.toServer;
    }
    if e.LosesToClient? {
      assert n'.clientIn + n'.toClient <= n.clientIn + n.toClient;
    } else {
      assert n'.clientIn + n'.toClient == n.clientIn + n.toClient;
    }
  }

  lemma {:induction false} ClientSendsKeepsInv(t: Target, n: Net, bs: Bytes)
    requires Inv(t, n) && Enabled(n, ClientSends(bs))
    ensures Inv(t, Step(t, n, ClientSends(bs)))
  {
    var n' := Step(t, n, ClientSends(bs));
    assert n'.serverIn + n'.toServer == (n.serverIn + n.toServer) + bs;
  }

  lemma {:induction false} ServerSendsKeepsInv(t: Target, n: Net, bs: Bytes)
    requires Inv(t, n) && Enabled(n, ServerSends(bs))
    ensures Inv(t, Step(t, n, ServerSends(bs)))
  {
    hide Aligned, ServerKnows, ServerExpects, Answer, ClientExpects;
    var n' := Step(t, n, ServerSends(bs));
    assert n'.clientIn + n'.toClient == (n.clientIn + n.toClient) + bs;
    SendsAligned(t, n, bs);
    if !n.clientGone && !n.client.Failed? && (!Misread(n) || n.client.AwaitReply?) {
      PayloadExpected(n, bs);
    }
  }

  lemma SendsAligned(t: Target, n: Net, bs: Bytes)
    requires Aligned(t, n) && n.server == Answered(SUCCEEDED)
    ensures n.client.AwaitReply? || ReadSuccess(n.client) || n.client.Failed?
    ensures var n' := n.(toClient := n.toClient + bs, serverPayload := n.serverPayload + bs);
      Aligned(t, n') && ServerKnows(t, n') && ServerExpects(t, n') == ServerExpects(t, n)
  {
    hide Canonical;
  }

  lemma {:induction false} PayloadExpected(n: Net, bs: Bytes)
    requires n.server == Answered(SUCCEEDED) && (n.client.AwaitReply? || ReadSuccess(n.client))
    requires !n.client.BoundNameLength? && !n.client.BoundName?
    ensures ClientExpects(n.(toClient := n.toClient + bs, serverPayload := n.serverPayload + bs))
         == ClientExpects(n) + bs
  {
    hide Clip, Reply;
    match n.client
    case AwaitReply =>
      var reply := Clip(Reply(SUCCEEDED), n.sent);
      assert (reply + n.serverPayload) + bs == reply + (n.serverPayload + bs);
    case BoundAddress(_) =>
      assert ([0, 0, 0, 0] + ([0, 0] + n.serverPayload)) + bs == [0, 0, 0, 0] + ([0, 0] + (n.serverPayload + bs));
    case BoundPort =>
      assert ([0, 0] + n.serverPayload) + bs == [0, 0] + (n.serverPayload + bs);
    case _ =>
  }

  lemma {:induction false} StepKeepsInv(t: Target, n: Net, e: Event)
    requires t.ip.Lawful() && Inv(t, n) && Enabled(n, e)
    ensures Inv(t, Step(t, n, e))
  {
    hide Inv, Step;
    match e
    case ClientReads =>
      if n.client.AwaitMethod? {
        MethodReadKeepsInv(t, n);
      } else if n.client.AwaitReply? {
        ReplyReadKeepsInv(t, n);
      } else {
        BoundReadKeepsInv(t, n);
      }
    case ServerReads =>
      if n.server.Hello? || n.server.Methods? {
        GreetingReadKeepsInv(t, n);
      } else if n.server.Request? {
        RequestReadKeepsInv(t, n);
      } else if n.server.Address? {
        AddressReadKeepsInv(t, n);
      } else if n.server.Port? {
        PortReadKeepsInv(t, n);
      } else {
        NameReadKeepsInv(t, n);
      }
    case ClientSeesEof => ClientEofKeepsInv(t, n);
    case ServerSeesEof => ServerEofKeepsInv(t, n);
    case DialEnds(code, k) => DialKeepsInv(t, n, code, k);
    case ClientSends(bs) => ClientSendsKeepsInv(t, n, bs);
    case ServerSends(bs) => ServerSendsKeepsInv(t, n, bs);
    case _ => TransportKeepsInv(t, n, e);
  }

  lemma {:induction false} InvAlways(t: Target, n: Net, es: seq<Event>)
    requires t.ip.Lawful() && Inv(t, n) && Schedule(t, n, es)
    ensures Inv(t, After(t, n, es))
    decreases |es|
  {
    if es != [] {
      StepKeepsInv(t, n, es[0]);
      InvAlways(t, Step(t, n, es[0]), es[1..]);
    }
  }

  lemma {:induction false} Reachable(t: Target, es: seq<Event>)
    requires t.ip.Lawful() && Schedule(t, Start(), es)
    ensures Inv(t, After(t, Start(), es))
  {
    InvAlways(t, Start(), es);
  }

  // ---- Main results ----

  /** The upstream is relayed behind a success reply that never went out whole. */
  predicate Unreported(n: Net) {
    Misread(n) && !n.serverGone
  }

  /**
   Whatever the schedule, and whoever has broken off, an unfinished handshake always has a next step
   that needs no payload and no further break, as long as a success is not left unreported.
   */
  lemma {:induction false} NoDeadlock(t: Target, es: seq<Event>) returns (e: Event)
    requires t.ip.Lawful() && Schedule(t, Start(), es)
    requires !Finished(After(t, Start(), es)) && !Unreported(After(t, Start(), es))
    ensures Enabled(After(t, Start(), es), e) && !e.Payload() && !e.Breaks()
  {
    hide Inv, Schedule, After, Finished, Unreported, Enabled;
    Reachable(t, es);
    e := NextEvent(t, After(t, Start(), es));
  }

  lemma {:induction false} NextEvent(t: Target, n: Net) returns (e: Event)
    requires t.ip.Lawful() && Inv(t, n) && !Finished(n) && !Unreported(n)
    ensures Enabled(n, e) && !e.Payload() && !e.Breaks()
  {
    hide Inv, Unreported;
    if n.toServer != [] {
      e := ToServer(1);
    } else if n.toClient != [] {
      e := ToClient(1);
    } else if Enabled(n, DialEnds(GENERAL_FAILURE, 10)) {
      e := DialEnds(GENERAL_FAILURE, 10);
    } else if Enabled(n, ServerReads) {
      e := ServerReads;
    } else if Enabled(n, ClientReads) {
      e := ClientReads;
    } else {
      OnlyEofIsLeft(t, n);
      e := if Enabled(n, ServerSeesEof) then ServerSeesEof else ClientSeesEof;
    }
  }

  /** With both streams drained, only an end whose peer is over can be waiting. */
  lemma {:induction false} OnlyEofIsLeft(t: Target, n: Net)
    requires t.ip.Lawful() && Inv(t, n) && !Finished(n) && !Unreported(n) && n.toServer == [] && n.toClient == []
    requires !Enabled(n, ServerReads) && !Enabled(n, ClientReads) && (n.serverGone || !n.server.Dialling?)
    ensures Enabled(n, ServerSeesEof) || Enabled(n, ClientSeesEof)
  {
    hide ServerExpects, ServerKnows, RequestMessage, Canonical;
    assert n.serverIn + n.toServer == n.serverIn;
    assert n.clientIn + n.toClient == n.clientIn;
    if !n.serverGone && n.server.Reading() && !n.clientGone {
      ServerWaits(t, n, n.serverIn);
    }
  }

  /** A server that has read all a client still there has sent waits only for a request not yet written. */
  lemma {:induction false} ServerWaits(t: Target, n: Net, left: Bytes)
    requires t.ip.Lawful() && ServerKnows(t, n) && left == ServerExpects(t, n)
    requires n.server.Reading() && |left| < n.server.Need()
    ensures n.server.Request? && (TooLong(t.ip, t.host) || !Requested(t, n.client))
  {
    hide Canonical;
  }

  /**
   Behind a success that came too late to be reported nothing moves until the upstream sends or an end
   breaks off.
   */
  lemma {:induction false} UnreportedSuccessStalls(t: Target, es: seq<Event>, e: Event)
    requires t.ip.Lawful() && Schedule(t, Start(), es)
    requires var n := After(t, Start(), es);
      && n.server == Answered(SUCCEEDED) && n.sent == 0 && n.serverPayload == []
      && !n.clientGone && !n.serverGone && Enabled(n, e)
    ensures e.Payload() || e.Breaks()
  {
    hide Schedule, After;
    Reachable(t, es);
    var n := After(t, Start(), es);
    assert n.client.AwaitReply?;
    assert Answer(n) == [];
  }

  /** Decreases with every step that is not payload. */
  function Measure(n: Net): nat {
    600 * (n.client.Rank() + n.server.Rank()) + |n.toServer| + |n.toClient|
    + (if n.clientGone then 0 else 1) + (if n.serverGone then 0 else 1)
  }

  lemma {:induction false} StepDecreases(t: Target, n: Net, e: Event)
    requires t.ip.Lawful() && Enabled(n, e) && !e.Payload()
    ensures Measure(Step(t, n, e)) < Measure(n)
  {
    hide ClientRead, ServerRead, ServerEof, EncodeRequest;
    match e
    case ClientReads => ClientMessageSize(t, n.client, n.clientIn[..n.client.Need()]);
    case ServerReads => ServerMessageSize(t, n.server, n.serverIn[..n.server.Need()]);
    case ServerSeesEof => EofMessageSize(n.server);
    case _ =>
  }

  lemma EofMessageSize(pc: ServerPc)
    ensures |ServerEof(pc)| <= 10
  {
  }

  lemma {:induction false} ClientMessageSize(t: Target, pc: ClientPc, bs: Bytes)
    requires t.ip.Lawful() && pc.Reading() && |bs| == pc.Need()
    ensures |ClientRead(t.ip, t.host, t.port, pc, bs).1| <= 262
  {
  }

  lemma {:induction false} ServerMessageSize(t: Target, pc: ServerPc, bs: Bytes)
    requires pc.Reading() && |bs| == pc.Need()
    ensures |ServerRead(t.ip, pc, bs).1| <= 10
  {
  }

  /** Every payload-free schedule ends: with NoDeadlock, the handshake always completes. */
  lemma {:induction false} Terminates(t: Target, n: Net, es: seq<Event>)
    requires t.ip.Lawful() && Schedule(t, n, es) && forall i :: 0 <= i < |es| ==> !es[i].Payload()
    ensures |es| <= Measure(n)
    decreases |es|
  {
    if es != [] {
      StepDecreases(t, n, es[0]);
      Terminates(t, Step(t, n, es[0]), es[1..]);
    }
  }

  /**
   How a client that has not broken off ends: by the dial's code if enough of the reply went out, past a
   success with every later byte still to be read. A hostname that does not fit is never sent. If the
   server has broken off the stream may have ended before that, or lose its end.
   */
  ghost predicate ClientOutcome(t: Target, n: Net) {
    || (n.serverGone && n.client == Failed(ShortReply))
    || if TooLong(t.ip, t.host) then n.client == Failed(Code(ADDRESS_NOT_SUPPORTED))
       else
         && n.server.Answered?
         && if n.server.code != SUCCEEDED then
              n.client == Failed(if n.sent >= 4 then Code(n.server.code) else ShortReply)
            else n.sent == 10 ==>
              n.client == Connected && Sees(n.clientIn + n.toClient, n.serverPayload, n.serverGone)
  }

  /**
   How a server that has not broken off ends: it has asked the dial for the canonical host and the
   16-bit port and the client's later bytes are still to be read, or it has asked for nothing and seen
   the end of the stream of a client that broke off or never sent its request.
   */
  ghost predicate ServerOutcome(t: Target, n: Net) {
    || (n.server == Refused(Eof) && n.asked == None && (n.clientGone || TooLong(t.ip, t.host)))
    || (n.server.Answered? && n.asked == Some((Canonical(t.ip, t.host), t.port % 0x10000))
        && Sees(n.serverIn + n.toServer, n.clientPayload, n.clientGone))
  }

  /** Every schedule that finishes ends the same way. */
  lemma {:induction false} HandshakeOutcome(t: Target, es: seq<Event>)
    requires t.ip.Lawful() && Schedule(t, Start(), es) && Finished(After(t, Start(), es))
    ensures var n := After(t, Start(), es);
      && (!n.clientGone ==> ClientOutcome(t, n))
      && (!n.serverGone ==> ServerOutcome(t, n))
  {
    hide After, Schedule, Inv, ClientOutcome, ServerOutcome;
    Reachable(t, es);
    var n := After(t, Start(), es);
    if !n.clientGone {
      ClientEnds(t, n);
    }
    if !n.serverGone {
      ServerEnds(t, n);
    }
  }

  lemma {:induction false} ClientEnds(t: Target, n: Net)
    requires Inv(t, n) && !n.clientGone && !n.client.Reading()
    ensures ClientOutcome(t, n)
  {
    hide ServerInv, Canonical;
  }

  lemma {:induction false} ServerEnds(t: Target, n: Net)
    requires Inv(t, n) && !n.serverGone && !n.server.Reading() && !n.server.Dialling?
    ensures ServerOutcome(t, n)
  {
    hide ClientInv, Fails, Canonical;
  }

  /**
   Neither end ever finds fault with the other: whatever breaks, no schedule brings a wrong version or a
   refused method. The server gives up only on a client that broke off or never sent its request, the
   client only on a refusal, a reply that was cut short or a server that broke off.
   */
  lemma {:induction false} OnlyTheDialCanFail(t: Target, es: seq<Event>)
    requires t.ip.Lawful() && Schedule(t, Start(), es)
    ensures var n := After(t, Start(), es);
      && (n.server.Refused? ==> n.server.error == Eof && (n.clientGone || TooLong(t.ip, t.host)))
      && (n.client.Failed? ==>
            || (n.client.error == ShortReply && n.serverGone)
            || (n.client.error == Code(ADDRESS_NOT_SUPPORTED) && TooLong(t.ip, t.host))
            || (n.server.Answered? && n.client.error == Code(n.server.code) && n.server.code != SUCCEEDED)
            || (n.server.Answered? && n.sent < 10))
  {
    hide After, Schedule;
    Reachable(t, es);
  }

  /**
   Wherever an end breaks off, and whatever the other does then, no other destination is ever asked for,
   none at all by a server that gives up, and a client is connected only to a server whose dial succeeded.
   */
  lemma {:induction false} BreakingOffIsSafe(t: Target, es: seq<Event>)
    requires t.ip.Lawful() && Schedule(t, Start(), es)
    ensures var n := After(t, Start(), es);
      && (n.asked == None || n.asked == Some((Canonical(t.ip, t.host), t.port % 0x10000)))
      && (n.server.Refused? ==> n.asked == None)
      && (n.client.Connected? ==> n.server == Answered(SUCCEEDED) && n.asked.Some?)
      && (n.clientPayload != [] ==> n.client.Connected?)
  {
    hide After, Schedule, Canonical;
    Reachable(t, es);
  }

  /** A break is noticed: a server that breaks off before it answers leaves the client with a short reply. */
  lemma {:induction false} BreakIsNoticed(t: Target) returns (es: seq<Event>)
    ensures Schedule(t, Start(), es) && Finished(After(t, Start(), es))
    ensures After(t, Start(), es).client == Failed(ShortReply)
  {
    es := [ServerBreaks, ClientSeesEof];
    var n1 := Step(t, Start(), ServerBreaks);
    var n2 := Step(t, n1, ClientSeesEof);
    assert es[1..] == [ClientSeesEof] && es[1..][1..] == [];
    assert Schedule(t, n2, []) && Schedule(t, n1, [ClientSeesEof]);
    assert After(t, n1, [ClientSeesEof]) == n2;
  }
}
