/**
 The bytes of RFC 1928, sections 3 to 6, as numbers: what the two ends put on the
 wire, and a reading of whole streams to compare the reactors with.
 */
module Wire {
  import opened Common
  import opened Socks
  import opened SocksIo

  /** The port in network byte order, whatever the integer, as a uint16 conversion leaves it. */
  function Port16(port: int): Bytes {
    [(port / 256) % 256, port % 256]
  }

  lemma PortIs16(port: int)
    ensures PortBytes(port) == Port16(port)
  {
    var p := port % 0x10000;
    assert port == (port / 0x10000) * 0x10000 + p;
    assert port / 256 == (port / 0x10000) * 256 + p / 256;
    assert port % 256 == p % 256;
    assert (port / 256) % 256 == p / 256;
  }

  /** A host that reads as an address is sent as its octets, any other as its length and its bytes. */
  lemma {:induction false} MessagesAre(ip: IpText, host: Bytes, port: int, code: byte)
    requires ip.Lawful() && !TooLong(ip, host)
    ensures GREETING == [5, 1, 0] && ACCEPTANCE == [5, 0] && REFUSAL == [5, 255]
    ensures Reply(code) == [5, code, 0, 1, 0, 0, 0, 0, 0, 0]
    ensures EncodeRequest(ip, host, port)
         == match ip.parse(host)
            case Some(V4(octets)) => [5, 1, 0, 1] + octets + Port16(port)
            case Some(V6(octets, _)) => [5, 1, 0, 4] + octets + Port16(port)
            case None => [5, 1, 0, 3, |host|] + host + Port16(port)
  {
    PortIs16(port);
    hide PortBytes, Port16;
    match ip.parse(host)
    case Some(V4(b)) => assert [5, 1, 0, 1] + (b + PortBytes(port)) == [5, 1, 0, 1] + b + PortBytes(port);
    case Some(V6(b, _)) => assert [5, 1, 0, 4] + (b + PortBytes(port)) == [5, 1, 0, 4] + b + PortBytes(port);
    case None =>
      assert [5, 1, 0, 3] + ([|host|] + (host + PortBytes(port))) == [5, 1, 0, 3, |host|] + host + PortBytes(port);
  }

  /** The length of the address of this type that `bs` starts with, if it is all there. */
  function AddressSize(atyp: byte, bs: Bytes): Option<nat> {
    if atyp == 1 && |bs| >= 4 then Some(4)
    else if atyp == 4 && |bs| >= 16 then Some(16)
    else if atyp == 3 && |bs| >= 1 && |bs| - 1 >= bs[0] then Some(1 + bs[0] as int)
    else None
  }

  lemma AddressIsThere(ip: IpText, atyp: byte, bs: Bytes)
    ensures match AddressAt(ip, atyp, bs)
            case None => AddressSize(atyp, bs) == None
            case Some((_, rest)) => AddressSize(atyp, bs) == Some(|bs| - |rest|) && rest == bs[|bs| - |rest|..]
  {
    if atyp == 3 && |bs| >= 1 && |bs| - 1 >= bs[0] {
      assert bs[1..][bs[0]..] == bs[bs[0] + 1..];
    }
  }

  // ---- The server ----

  /** What a client that sends `input` and no more is told before any dial. */
  function ServerSays(input: Bytes): Bytes {
    if |input| < 2 || input[0] != 5 || |input[2..]| < input[1] then []
    else if 0 !in input[2..][..input[1]] then [5, 255]
    else [5, 0] + RequestSays(input[2..][input[1]..])
  }

  /** Nothing for a request cut short or to be dialled; 8 for an address, 7 for a command it does not take. */
  function RequestSays(request: Bytes): Bytes {
    if |request| < 4 || request[0] != 5 then []
    else
      match AddressSize(request[3], request[4..])
      case None => [5, 8, 0, 1, 0, 0, 0, 0, 0, 0]
      case Some(n) =>
        if |request| < 4 + n + 2 || request[1] == 1 then [] else [5, 7, 0, 1, 0, 0, 0, 0, 0, 0]
  }

  /** The server's answers are those, byte for byte, on every stream. */
  lemma {:induction false} ServerSaysSo(ip: IpText, input: Bytes)
    ensures Serve(ip, Hello, input).out == ServerSays(input)
  {
    hide Serve, RequestSays;
    FirstStep(ip, Hello, input);
    if |input| >= 2 {
      var hello, a := input[..2], input[2..];
      assert input == hello + a;
      ServeStep(ip, Hello, hello, a);
      if hello[0] != 5 {
        FirstStep(ip, Refused(BadVersion), a);
      } else {
        FirstStep(ip, Methods(hello[1]), a);
        if |a| >= hello[1] {
          var methods, request := a[..hello[1]], a[hello[1]..];
          assert a == methods + request;
          ServeStep(ip, Methods(hello[1]), methods, request);
          FirstStep(ip, Refused(NoMethod), request);
          RequestSaysSo(ip, request);
        }
      }
    }
  }

  lemma {:induction false} RequestSaysSo(ip: IpText, request: Bytes)
    ensures Serve(ip, Request, request).out == RequestSays(request)
  {
    hide Serve, AddressAt, AddressSize;
    FirstStep(ip, Request, request);
    if |request| >= 4 {
      var header, a := request[..4], request[4..];
      assert request == header + a && header == [header[0], header[1], header[2], header[3]];
      if header[0] != 5 {
        ServeStep(ip, Request, header, a);
        FirstStep(ip, Refused(BadVersion), a);
      } else {
        ServeAddress(ip, header[1], header[2], header[3], a);
        AddressIsThere(ip, header[3], a);
        var at := AddressAt(ip, header[3], a);
        if at.Some? {
          PortSaysSo(ip, header[1], at.value.0, at.value.1);
        }
      }
    }
  }

  lemma {:induction false} PortSaysSo(ip: IpText, cmd: byte, host: Bytes, bs: Bytes)
    ensures Serve(ip, Port(cmd, host), bs).out
         == if |bs| < 2 || cmd == 1 then [] else [5, 7, 0, 1, 0, 0, 0, 0, 0, 0]
  {
  }

  /** A greeting that offers no-auth and a CONNECT (1) by name are dialled, for port 256 * hi + lo; the rest is left. */
  lemma {:induction false} DialsWhatIsSent(ip: IpText, methods: Bytes, rsv: byte, name: Bytes, hi: byte, lo: byte,
      rest: Bytes)
    requires |methods| < 256 && 0 in methods && |name| < 256
    ensures Serve(ip, Hello, ByName(methods, rsv, name, [hi, lo] + rest))
         == ServerRun(Dialling(name, 256 * hi as int + lo as int), rest, [5, 0])
  {
    var port: nat := 256 * hi as int + lo as int;
    assert PortBytes(port) == [hi, lo];
    DecodeHandshake(ip, methods, rsv, Domain(name), port, rest);
    hide Serve;
  }

  /** A greeting with these methods, and a CONNECT to a host by name. */
  function ByName(methods: Bytes, rsv: byte, name: Bytes, tail: Bytes): Bytes
    requires |methods| < 256 && |name| < 256
  {
    var request := [5, 1, rsv, 3] + ([|name|] + (name + tail));
    [5, |methods|] + (methods + request)
  }

  // ---- The client ----

  /** Where a client whose upstream sends `input` and no more ends up, and what it leaves to be relayed. */
  function ClientEnds(tooLong: bool, input: Bytes): (ClientPc, Bytes) {
    if |input| < 2 then (Failed(ShortReply), [])
    else if input[0] != 5 || input[1] != 0 then (Failed(MethodRefused(input[1])), [])
    else if tooLong then (Failed(Code(8)), [])
    else ReplyEnds(input[2..])
  }

  /** A zero code, an address of a known type and a port make a connection; version and reserved byte do not matter. */
  function ReplyEnds(reply: Bytes): (ClientPc, Bytes) {
    if |reply| < 4 then (Failed(ShortReply), [])
    else if reply[1] != 0 then (Failed(Code(reply[1])), [])
    else
      match AddressSize(reply[3], reply[4..])
      case None => (Failed(if reply[3] == 1 || reply[3] == 3 || reply[3] == 4 then ShortReply else BadBoundAddress), [])
      case Some(n) => if |reply| < 4 + n + 2 then (Failed(ShortReply), []) else (Connected, reply[4 + n + 2..])
  }

  /** The client ends there on every stream, and connected, leaves exactly the payload. */
  lemma {:induction false} ClientEndsSo(ip: IpText, host: Bytes, port: int, input: Bytes)
    ensures var run := Connect(ip, host, port, AwaitMethod, input);
      var (pc, rest) := ClientEnds(TooLong(ip, host), input);
      run.pc == pc && (pc == Connected ==> run.rest == rest)
  {
    hide Connect, ReplyEnds, EncodeRequest, TooLong;
    if |input| < 2 {
      ConnectStops(ip, host, port, AwaitMethod, input);
    } else {
      var chosen, reply := input[..2], input[2..];
      assert input == chosen + reply;
      ConnectStep(ip, host, port, AwaitMethod, chosen, reply);
      FailedStays(ip, host, port, MethodRefused(chosen[1]), reply);
      FailedStays(ip, host, port, Code(8), reply);
      ReplyEndsSo(ip, host, port, reply);
    }
  }

  lemma FailedStays(ip: IpText, host: Bytes, port: int, error: ConnectError, input: Bytes)
    ensures Connect(ip, host, port, Failed(error), input).pc == Failed(error)
  {
  }

  lemma {:induction false} ReplyEndsSo(ip: IpText, host: Bytes, port: int, reply: Bytes)
    ensures var run := Connect(ip, host, port, AwaitReply, reply);
      var (pc, rest) := ReplyEnds(reply);
      run.pc == pc && (pc == Connected ==> run.rest == rest)
  {
    hide Connect, AddressAt, AddressSize;
    if |reply| < 4 {
      ConnectStops(ip, host, port, AwaitReply, reply);
    } else {
      var header, a := reply[..4], reply[4..];
      assert reply == header + a && header == [header[0], header[1], header[2], header[3]];
      if header[1] != 0 {
        ConnectStep(ip, host, port, AwaitReply, header, a);
        FailedStays(ip, host, port, Code(header[1]), a);
      } else {
        ConnectAddress(ip, host, port, header[0], header[2], header[3], a);
        AddressIsThere(ip, header[3], a);
        var at := AddressAt(ip, header[3], a);
        if at.Some? {
          BoundPortEnds(ip, host, port, at.value.1);
          var n := AddressSize(header[3], a).value;
          assert |at.value.1| >= 2 ==> at.value.1[2..] == reply[4 + n + 2..];
        }
      }
    }
  }

  lemma {:induction false} BoundPortEnds(ip: IpText, host: Bytes, port: int, bs: Bytes)
    ensures var run := Connect(ip, host, port, BoundPort, bs);
      if |bs| < 2 then run.pc == Failed(ShortReply) else run.pc == Connected && run.rest == bs[2..]
  {
  }
}
