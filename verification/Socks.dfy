/**
 Both ends of RFC 1928 as the proxy speaks it (no-auth CONNECT only).

 Each end is a reactor: a program counter, the number of bytes the next
 `io.ReadFull` waits for, and what the code does with exactly those bytes.
 `Serve` and `Connect` run a reactor over a whole incoming stream; module
 SocksNet runs the two against each other one scheduling step at a time.
 */
module Socks {
  import opened Common

  type byte = x: int | 0 <= x < 256
  type Bytes = seq<byte>

  const VERSION: byte := 5
  const NO_AUTH: byte := 0
  const NO_ACCEPTABLE: byte := 0xff
  const CONNECT: byte := 1
  const IPV4: byte := 1
  const DOMAIN: byte := 3
  const IPV6: byte := 4

  const SUCCEEDED: byte := 0
  const GENERAL_FAILURE: byte := 1
  const HOST_UNREACHABLE: byte := 4
  const CONNECTION_REFUSED: byte := 5
  const COMMAND_NOT_SUPPORTED: byte := 7
  const ADDRESS_NOT_SUPPORTED: byte := 8

  // ---- IP address text ----

  datatype Addr = V4(octets: Bytes) | V6(octets: Bytes, zone: Bytes)

  /** The two `netip` functions the protocol code calls: text to address and back. */
  datatype IpText = IpText(parse: Bytes -> Option<Addr>, show: Addr -> Bytes)
  {
    /** What `netip` documents: parsing yields 4 or 16 octets, and a zone-free address reads back from its text. */
    ghost predicate Lawful() {
      && (forall t: Bytes :: parse(t).Some? ==> |parse(t).value.octets| == if parse(t).value.V4? then 4 else 16)
      && (forall b: Bytes :: |b| == 4 ==> parse(show(V4(b))) == Some(V4(b)))
      && (forall b: Bytes :: |b| == 16 ==> parse(show(V6(b, []))) == Some(V6(b, [])))
    }
  }

  /** The host a server decodes from what a client encodes: an address loses its zone and is re-rendered. */
  function Canonical(ip: IpText, host: Bytes): Bytes {
    match ip.parse(host)
    case None => host
    case Some(V4(b)) => ip.show(V4(b))
    case Some(V6(b, _)) => ip.show(V6(b, []))
  }

  // ---- Messages ----

  function Reply(code: byte): Bytes {
    [VERSION, code, 0, IPV4, 0, 0, 0, 0, 0, 0]
  }

  /** The port as two big-endian bytes, after the truncation to uint16. */
  function PortBytes(port: int): Bytes {
    var p := port % 0x10000;
    [p / 256, p % 256]
  }

  /** What goes out of a message on a connection that takes only `room` more bytes. */
  function Clip(bs: Bytes, room: nat): Bytes {
    if |bs| <= room then bs else bs[..room]
  }

  const GREETING: Bytes := [VERSION, 1, NO_AUTH]
  const ACCEPTANCE: Bytes := [VERSION, NO_AUTH]
  const REFUSAL: Bytes := [VERSION, NO_ACCEPTABLE]

  /** A destination as section 5 of RFC 1928 encodes it. */
  datatype Destination = Ip4(octets: Bytes) | Ip6(octets: Bytes) | Domain(name: Bytes)
  {
    ghost predicate Valid() {
      match this
      case Ip4(b) => |b| == 4
      case Ip6(b) => |b| == 16
      case Domain(n) => |n| < 256
    }

    function Text(ip: IpText): Bytes {
      match this
      case Ip4(b) => ip.show(V4(b))
      case Ip6(b) => ip.show(V6(b, []))
      case Domain(n) => n
    }
  }

  /** A CONNECT request to `dst`, followed by `tail` (the port, and whatever comes after it). */
  function RequestMessage(rsv: byte, dst: Destination, tail: Bytes): Bytes
    requires dst.Domain? ==> |dst.name| < 256
  {
    match dst
    case Ip4(b) => [VERSION, CONNECT, rsv, IPV4] + (b + tail)
    case Ip6(b) => [VERSION, CONNECT, rsv, IPV6] + (b + tail)
    case Domain(n) => [VERSION, CONNECT, rsv, DOMAIN] + ([|n|] + (n + tail))
  }

  /** The destination a client encodes for `host`: an address if it parses as one, its zone dropped. */
  function DestinationOf(ip: IpText, host: Bytes): Destination {
    match ip.parse(host)
    case Some(V4(b)) => Ip4(b)
    case Some(V6(b, _)) => Ip6(b)
    case None => Domain(host)
  }

  /** A hostname longer than one length byte can say is not sent. */
  predicate TooLong(ip: IpText, host: Bytes) {
    ip.parse(host).None? && |host| > 255
  }

  function EncodeRequest(ip: IpText, host: Bytes, port: int): Bytes
    requires !TooLong(ip, host)
  {
    RequestMessage(0, DestinationOf(ip, host), PortBytes(port))
  }

  // ---- Server reactor (readSocksRequest, readAddr) ----

  datatype RequestError = Eof | BadVersion | NoMethod | BadAddress | BadCommand | GreetingNotSent

  datatype ServerPc =
    | Hello
    | Methods(count: byte)
    | Request
    | Address(cmd: byte, atyp: byte)
    | NameLength(cmd: byte)
    | Name(cmd: byte, length: byte)
    | Port(cmd: byte, host: Bytes)
    | Dialling(host: Bytes, port: nat)
    | Answered(code: byte)
    | Refused(error: RequestError)
  {
    predicate Reading() { !Dialling? && !Answered? && !Refused? }

    /** Bytes the pending io.ReadFull waits for. */
    function Need(): nat {
      match this
      case Hello => 2
      case Methods(n) => n
      case Request => 4
      case Address(_, atyp) => if atyp == IPV6 then 16 else 4
      case NameLength(_) => 1
      case Name(_, n) => n
      case Port(_, _) => 2
      case _ => 0
    }

    function Rank(): nat {
      match this
      case Hello => 7
      case Methods(_) => 6
      case Request => 5
      case NameLength(_) => 4
      case Name(_, _) | Address(_, _) => 3
      case Port(_, _) => 2
      case Dialling(_, _) => 1
      case Answered(_) | Refused(_) => 0
    }
  }

  /** One completed read: the next program counter and what is written to the client. */
  function ServerRead(ip: IpText, pc: ServerPc, bs: Bytes): (step: (ServerPc, Bytes))
    requires pc.Reading() && |bs| == pc.Need()
    ensures step.0.Rank() < pc.Rank() && !step.0.Answered?
  {
    match pc
    case Hello =>
      if bs[0] != VERSION then (Refused(BadVersion), []) else (Methods(bs[1]), [])
    case Methods(_) =>
      if NO_AUTH in bs then (Request, ACCEPTANCE) else (Refused(NoMethod), REFUSAL)
    case Request =>
      if bs[0] != VERSION then (Refused(BadVersion), [])
      else if bs[3] == IPV4 || bs[3] == IPV6 then (Address(bs[1], bs[3]), [])
      else if bs[3] == DOMAIN then (NameLength(bs[1]), [])
      else (Refused(BadAddress), Reply(ADDRESS_NOT_SUPPORTED))
    case Address(cmd, atyp) =>
      (Port(cmd, ip.show(if atyp == IPV6 then V6(bs, []) else V4(bs))), [])
    case NameLength(cmd) => (Name(cmd, bs[0]), [])
    case Name(cmd, _) => (Port(cmd, bs), [])
    case Port(cmd, host) =>
      if cmd != CONNECT then (Refused(BadCommand), Reply(COMMAND_NOT_SUPPORTED))
      else (Dialling(host, bs[0] as int * 256 + bs[1] as int), [])
  }

  /** The stream ended inside a read: an address read reports code 8, any other read is silent. */
  function ServerEof(pc: ServerPc): Bytes {
    if pc.Address? || pc.NameLength? || pc.Name? then Reply(ADDRESS_NOT_SUPPORTED) else []
  }

  /** Where a run stopped, the input it left unread, and everything it wrote. */
  datatype ServerRun = ServerRun(pc: ServerPc, rest: Bytes, out: Bytes)

  function Serve(ip: IpText, pc: ServerPc, input: Bytes): (run: ServerRun)
    ensures !run.pc.Reading() && |run.rest| <= |input|
    decreases pc.Rank()
  {
    if !pc.Reading() then ServerRun(pc, input, [])
    else if |input| < pc.Need() then ServerRun(Refused(Eof), [], ServerEof(pc))
    else
      var (next, out) := ServerRead(ip, pc, input[..pc.Need()]);
      var run := Serve(ip, next, input[pc.Need()..]);
      run.(out := out + run.out)
  }

  // ---- Client reactor (socksConnect) ----

  datatype ConnectError =
    | MethodRefused(chosen: byte)
    | Code(code: byte)  // a *socksError
    | BadBoundAddress
    | ShortReply
    | WriteFailed

  datatype ClientPc =
    | AwaitMethod
    | AwaitReply
    | BoundAddress(atyp: byte)
    | BoundNameLength
    | BoundName(length: byte)
    | BoundPort
    | Connected
    | Failed(error: ConnectError)
  {
    predicate Reading() { !Connected? && !Failed? }

    function Need(): nat {
      match this
      case AwaitMethod => 2
      case AwaitReply => 4
      case BoundAddress(atyp) => if atyp == IPV6 then 16 else 4
      case BoundNameLength => 1
      case BoundName(n) => n
      case BoundPort => 2
      case _ => 0
    }

    function Rank(): nat {
      match this
      case AwaitMethod => 5
      case AwaitReply => 4
      case BoundNameLength => 3
      case BoundName(_) | BoundAddress(_) => 2
      case BoundPort => 1
      case Connected | Failed(_) => 0
    }
  }

  function ClientRead(ip: IpText, host: Bytes, port: int, pc: ClientPc, bs: Bytes): (step: (ClientPc, Bytes))
    requires pc.Reading() && |bs| == pc.Need()
    ensures step.0.Rank() < pc.Rank()
  {
    match pc
    case AwaitMethod =>
      if bs[0] != VERSION || bs[1] != NO_AUTH then (Failed(MethodRefused(bs[1])), [])
      else if TooLong(ip, host) then (Failed(Code(ADDRESS_NOT_SUPPORTED)), [])
      else (AwaitReply, EncodeRequest(ip, host, port))
    case AwaitReply =>
      if bs[1] != SUCCEEDED then (Failed(Code(bs[1])), [])
      else if bs[3] == IPV4 || bs[3] == IPV6 then (BoundAddress(bs[3]), [])
      else if bs[3] == DOMAIN then (BoundNameLength, [])
      else (Failed(BadBoundAddress), [])
    case BoundAddress(_) => (BoundPort, [])
    case BoundNameLength => (BoundName(bs[0]), [])
    case BoundName(_) => (BoundPort, [])
    case BoundPort => (Connected, [])
  }

  datatype ClientRun = ClientRun(pc: ClientPc, rest: Bytes, out: Bytes)

  function Connect(ip: IpText, host: Bytes, port: int, pc: ClientPc, input: Bytes): (run: ClientRun)
    ensures !run.pc.Reading()
    decreases pc.Rank()
  {
    if !pc.Reading() then ClientRun(pc, input, [])
    else if |input| < pc.Need() then ClientRun(Failed(ShortReply), [], [])
    else
      var (next, out) := ClientRead(ip, host, port, pc, input[..pc.Need()]);
      var run := Connect(ip, host, port, next, input[pc.Need()..]);
      run.(out := out + run.out)
  }

  // ---- The request grammar of RFC 1928, sections 3 to 5 ----

  predicate ValidMethods(methods: Bytes) {
    |methods| < 256 && NO_AUTH in methods
  }

  /** A greeting offering `methods`, a CONNECT to `dst` with any reserved byte, then `rest`. */
  ghost function Handshake(methods: Bytes, rsv: byte, dst: Destination, port: nat, rest: Bytes): Bytes
    requires |methods| < 256 && dst.Valid()
  {
    [VERSION, |methods|] + (methods + RequestMessage(rsv, dst, PortBytes(port) + rest))
  }

  ghost predicate IsHandshake(ip: IpText, input: Bytes, host: Bytes, port: nat, rest: Bytes) {
    exists methods: Bytes, rsv: byte, dst: Destination ::
      ValidMethods(methods) && dst.Valid() && port < 0x10000
      && input == Handshake(methods, rsv, dst, port, rest) && host == dst.Text(ip)
  }

  /** One read of a run: exactly `chunk` is consumed. */
  lemma {:induction false} ServeStep(ip: IpText, pc: ServerPc, chunk: Bytes, tail: Bytes)
    requires pc.Reading() && |chunk| == pc.Need()
    ensures var (next, out) := ServerRead(ip, pc, chunk);
            var run := Serve(ip, next, tail);
            Serve(ip, pc, chunk + tail) == run.(out := out + run.out)
  {
    assert (chunk + tail)[..|chunk|] == chunk && (chunk + tail)[|chunk|..] == tail;
  }

  /** The decoder reads every handshake of the grammar back and leaves what follows it untouched. */
  lemma {:induction false} DecodeHandshake(ip: IpText, methods: Bytes, rsv: byte, dst: Destination,
      port: nat, rest: Bytes)
    requires ValidMethods(methods) && dst.Valid() && port < 0x10000
    ensures Serve(ip, Hello, Handshake(methods, rsv, dst, port, rest))
         == ServerRun(Dialling(dst.Text(ip), port), rest, ACCEPTANCE)
  {
    var tail := PortBytes(port) + rest;
    DecodeGreeting(ip, methods, RequestMessage(rsv, dst, tail));
    DecodeRequest(ip, rsv, dst, tail);
    DecodePort(ip, dst.Text(ip), port, rest);
  }

  lemma {:induction false} DecodeGreeting(ip: IpText, methods: Bytes, tail: Bytes)
    requires ValidMethods(methods)
    ensures var run := Serve(ip, Request, tail);
            Serve(ip, Hello, [VERSION, |methods|] + (methods + tail)) == run.(out := ACCEPTANCE + run.out)
  {
    ServeStep(ip, Hello, [VERSION, |methods|], methods + tail);
    ServeStep(ip, Methods(|methods|), methods, tail);
  }

  lemma {:induction false} DecodePort(ip: IpText, host: Bytes, port: nat, rest: Bytes)
    requires port < 0x10000
    ensures Serve(ip, Port(CONNECT, host), PortBytes(port) + rest) == ServerRun(Dialling(host, port), rest, [])
  {
    ServeStep(ip, Port(CONNECT, host), PortBytes(port), rest);
  }

  lemma {:induction false} DecodeRequest(ip: IpText, rsv: byte, dst: Destination, tail: Bytes)
    requires dst.Valid()
    ensures Serve(ip, Request, RequestMessage(rsv, dst, tail)) == Serve(ip, Port(CONNECT, dst.Text(ip)), tail)
  {
    hide Serve;
    match dst
    case Ip4(b) =>
      ServeStep(ip, Request, [VERSION, CONNECT, rsv, IPV4], b + tail);
      ServeStep(ip, Address(CONNECT, IPV4), b, tail);
    case Ip6(b) =>
      ServeStep(ip, Request, [VERSION, CONNECT, rsv, IPV6], b + tail);
      ServeStep(ip, Address(CONNECT, IPV6), b, tail);
    case Domain(n) =>
      ServeStep(ip, Request, [VERSION, CONNECT, rsv, DOMAIN], [|n|] + (n + tail));
      ServeStep(ip, NameLength(CONNECT), [|n|], n + tail);
      ServeStep(ip, Name(CONNECT, |n|), n, tail);
  }

  /**
   The server accepts exactly the grammar: a request is decoded as (host, port, rest) iff the stream is
   that handshake.
   */
  lemma {:induction false} AcceptsExactlyTheGrammar(ip: IpText, input: Bytes, host: Bytes, port: nat, rest: Bytes)
    ensures Serve(ip, Hello, input) == ServerRun(Dialling(host, port), rest, ACCEPTANCE)
       <==> IsHandshake(ip, input, host, port, rest)
  {
    if IsHandshake(ip, input, host, port, rest) {
      var methods: Bytes, rsv: byte, dst: Destination :|
        ValidMethods(methods) && dst.Valid() && port < 0x10000
        && input == Handshake(methods, rsv, dst, port, rest) && host == dst.Text(ip);
      DecodeHandshake(ip, methods, rsv, dst, port, rest);
    }
    if Serve(ip, Hello, input) == ServerRun(Dialling(host, port), rest, ACCEPTANCE) {
      var methods, rsv, dst := ParseHandshake(ip, input);
    }
  }

  /** The handshake an accepted stream starts with. */
  lemma {:induction false} ParseHandshake(ip: IpText, input: Bytes)
    returns (methods: Bytes, rsv: byte, dst: Destination)
    requires Serve(ip, Hello, input).pc.Dialling?
    ensures ValidMethods(methods) && dst.Valid()
    ensures var run := Serve(ip, Hello, input);
            run.pc.port < 0x10000 && run.pc.host == dst.Text(ip)
            && input == Handshake(methods, rsv, dst, run.pc.port, run.rest)
  {
    var hello, a := FirstRead(ip, Hello, input);
    var request;
    methods, request := FirstRead(ip, Methods(hello[1]), a);
    assert hello == [VERSION, |methods|];
    var tail;
    rsv, dst, tail := ParseRequest(ip, request);
    ParsePort(ip, CONNECT, dst.Text(ip), tail);
  }

  lemma {:induction false} ParseRequest(ip: IpText, input: Bytes) returns (rsv: byte, dst: Destination, tail: Bytes)
    requires Serve(ip, Request, input).pc.Dialling?
    ensures dst.Valid() && input == RequestMessage(rsv, dst, tail)
    ensures Serve(ip, Port(CONNECT, dst.Text(ip)), tail).pc == Serve(ip, Request, input).pc
    ensures Serve(ip, Port(CONNECT, dst.Text(ip)), tail).rest == Serve(ip, Request, input).rest
  {
    var header, after := FirstRead(ip, Request, input);
    rsv := header[2];
    var cmd, atyp := header[1], header[3];
    assert header == [VERSION, cmd, rsv, atyp];
    if atyp == DOMAIN {
      var length, named := FirstRead(ip, NameLength(cmd), after);
      var name, t := FirstRead(ip, Name(cmd, length[0]), named);
      assert length == [|name|];
      dst, tail := Domain(name), t;
    } else {
      var octets, t := FirstRead(ip, Address(cmd, atyp), after);
      dst, tail := if atyp == IPV6 then Ip6(octets) else Ip4(octets), t;
    }
    ParsePort(ip, cmd, dst.Text(ip), tail);
  }

  lemma {:induction false} ParsePort(ip: IpText, cmd: byte, host: Bytes, input: Bytes)
    requires Serve(ip, Port(cmd, host), input).pc.Dialling?
    ensures var run := Serve(ip, Port(cmd, host), input);
            cmd == CONNECT && run.pc.host == host && run.pc.port < 0x10000
            && input == PortBytes(run.pc.port) + run.rest
  {
    hide Serve;
    var pc := Port(cmd, host);
    var port, rest := FirstRead(ip, pc, input);
    FirstStep(ip, ServerRead(ip, pc, port).0, rest);
    assert port == PortBytes(Serve(ip, pc, input).pc.port);
  }

  /** Splits an accepted stream at its first read. */
  lemma {:induction false} FirstRead(ip: IpText, pc: ServerPc, input: Bytes) returns (chunk: Bytes, tail: Bytes)
    requires pc.Reading() && Serve(ip, pc, input).pc.Dialling?
    ensures |chunk| == pc.Need() && input == chunk + tail
    ensures Serve(ip, pc, input).pc == Serve(ip, ServerRead(ip, pc, chunk).0, tail).pc
    ensures Serve(ip, pc, input).rest == Serve(ip, ServerRead(ip, pc, chunk).0, tail).rest
  {
    hide Serve, ServerRead;
    FirstStep(ip, pc, input);
    chunk, tail := input[..pc.Need()], input[pc.Need()..];
    assert input == chunk + tail;
    ServeStep(ip, pc, chunk, tail);
  }

  /** A run that did not end on a short read depends only on the bytes it consumed. */
  lemma {:induction false} ServeExtends(ip: IpText, pc: ServerPc, input: Bytes, more: Bytes)
    requires Serve(ip, pc, input).pc != Refused(Eof)
    ensures Serve(ip, pc, input + more) == Serve(ip, pc, input).(rest := Serve(ip, pc, input).rest + more)
    decreases pc.Rank()
  {
    hide Serve, ServerRead;
    FirstStep(ip, pc, input);
    FirstStep(ip, pc, input + more);
    if pc.Reading() {
      var head, tail := input[..pc.Need()], input[pc.Need()..];
      assert input == head + tail && input + more == head + (tail + more);
      ServeStep(ip, pc, head, tail);
      ServeStep(ip, pc, head, tail + more);
      ServeExtends(ip, ServerRead(ip, pc, head).0, tail, more);
    }
  }

  /** A run is over, or is cut short in its next read, or has that read in full. */
  lemma {:induction false} FirstStep(ip: IpText, pc: ServerPc, input: Bytes)
    ensures !pc.Reading() ==> Serve(ip, pc, input) == ServerRun(pc, input, [])
    ensures pc.Reading() && |input| < pc.Need() ==> Serve(ip, pc, input) == ServerRun(Refused(Eof), [], ServerEof(pc))
  {
  }

  // ---- Transcripts ----

  /** Everything the server may write before it relays: RFC 1928, sections 3 and 6. */
  predicate LegalTranscript(out: Bytes) {
    || out == []
    || out == REFUSAL
    || out == ACCEPTANCE
    || (|out| == 12 && out == ACCEPTANCE + Reply(out[3]))
  }

  lemma {:induction false} ServeIsLegal(ip: IpText, input: Bytes)
    ensures LegalTranscript(Serve(ip, Hello, input).out)
    ensures Serve(ip, Hello, input).pc.Dialling? ==> Serve(ip, Hello, input).out == ACCEPTANCE
    ensures |Serve(ip, Hello, input).out| == 12 ==> Serve(ip, Hello, input).out[3] != SUCCEEDED
  {
    hide Serve;
    var agreed := GreetingRun(ip, input);
    if agreed.Some? {
      TailIsLegal(ip, Request, agreed.value);
      assert (ACCEPTANCE + Reply(ADDRESS_NOT_SUPPORTED))[3] == ADDRESS_NOT_SUPPORTED;
      assert (ACCEPTANCE + Reply(COMMAND_NOT_SUPPORTED))[3] == COMMAND_NOT_SUPPORTED;
    }
  }

  /** The greeting either ends the run, or is accepted and the rest of the stream is read as a request. */
  lemma {:induction false} GreetingRun(ip: IpText, input: Bytes) returns (agreed: Option<Bytes>)
    ensures var run := Serve(ip, Hello, input);
            match agreed
            case Some(tail) => run == Serve(ip, Request, tail).(out := ACCEPTANCE + Serve(ip, Request, tail).out)
            case None => run.pc.Refused? && (run.out == [] || run.out == REFUSAL)
  {
    agreed := None;
    if |input| >= 2 && input[0] == VERSION {
      var a := input[2..];
      if |a| >= input[1] && NO_AUTH in a[..input[1]] {
        agreed := Some(a[input[1]..]);
        assert Serve(ip, Methods(input[1]), a).pc == Serve(ip, Request, agreed.value).pc;
      }
    }
  }

  /** After the acceptance at most one reply is written, never a success, and none on the way to a dial. */
  lemma {:induction false} TailIsLegal(ip: IpText, pc: ServerPc, input: Bytes)
    requires pc != Hello && !pc.Methods?
    ensures var run := Serve(ip, pc, input);
            run.out == [] || run.out == Reply(ADDRESS_NOT_SUPPORTED) || run.out == Reply(COMMAND_NOT_SUPPORTED)
    ensures Serve(ip, pc, input).pc.Dialling? ==> Serve(ip, pc, input).out == []
    decreases pc.Rank()
  {
    if pc.Reading() && |input| >= pc.Need() {
      var n := pc.Need();
      TailIsLegal(ip, ServerRead(ip, pc, input[..n]).0, input[n..]);
    }
  }
}
