/**
 The protocol code as it is written: blocking reads and writes on a connection,
 proved to do what the reactors of module Socks say on every incoming stream.
 */
module SocksIo {
  import opened Common
  import opened Socks

  /** The receiving half of a connection: every byte that arrives before it ends. */
  class Reader {
    var pending: Bytes

    /** io.ReadFull: `n` bytes, or an error with the stream used up. */
    method ReadFull(n: nat) returns (ok: bool, bs: Bytes)
      modifies this
      ensures ok == (n <= |old(pending)|)
      ensures if ok then old(pending) == bs + pending && |bs| == n else pending == []
    {
      ok := n <= |pending|;
      if ok {
        bs, pending := pending[..n], pending[n..];
      } else {
        bs, pending := pending, [];
      }
    }
  }

  /** The sending half: the connection takes `room` more bytes and then fails. */
  class Writer {
    var sent: Bytes
    var room: nat

    method Write(bs: Bytes) returns (ok: bool)
      modifies this
      ensures ok == (|bs| <= old(room))
      ensures sent == old(sent) + Clip(bs, old(room))
      ensures room == old(room) - |Clip(bs, old(room))|
    {
      ok := |bs| <= room;
      sent, room := sent + Clip(bs, room), room - |Clip(bs, room)|;
    }

    /** The deadline passes: no further write succeeds. */
    method Expire()
      modifies this
      ensures sent == old(sent) && room == 0
    {
      room := 0;
    }
  }

  /** Two writes in a row reach the wire as one write of both: the second only if the first went out whole. */
  lemma ClipTwice(sent: Bytes, a: Bytes, b: Bytes, room: nat)
    ensures |a| <= room ==> (sent + a) + Clip(b, room - |a|) == sent + Clip(a + b, room)
    ensures |a| > room ==> sent + Clip(a, room) == sent + Clip(a + b, room)
  {
  }

  // ---- readAddr ----

  predicate KnownType(atyp: byte) {
    atyp == IPV4 || atyp == IPV6 || atyp == DOMAIN
  }

  /** The address field of type `atyp` at the head of `input`: its text, and what follows. */
  function AddressAt(ip: IpText, atyp: byte, input: Bytes): Option<(Bytes, Bytes)> {
    if atyp == IPV4 || atyp == IPV6 then
      var n := if atyp == IPV6 then 16 else 4;
      if |input| < n then None
      else Some((ip.show(if atyp == IPV6 then V6(input[..n], []) else V4(input[..n])), input[n..]))
    else if atyp == DOMAIN && |input| >= 1 && |input| - 1 >= input[0] then
      Some((input[1..][..input[0]], input[1..][input[0]..]))
    else None
  }

  method ReadAddr(ip: IpText, r: Reader, atyp: byte) returns (host: Option<Bytes>)
    modifies r
    ensures host.Some? == AddressAt(ip, atyp, old(r.pending)).Some?
    ensures host.Some? ==> AddressAt(ip, atyp, old(r.pending)) == Some((host.value, r.pending))
  {
    ghost var input := r.pending;
    if atyp == IPV4 || atyp == IPV6 {
      var size := 4;
      if atyp == IPV6 {
        size := 16;
      }
      var ok, buf := r.ReadFull(size);
      if !ok {
        return None;
      }
      assert buf == input[..size] && r.pending == input[size..];
      return Some(ip.show(if atyp == IPV6 then V6(buf, []) else V4(buf)));
    } else if atyp == DOMAIN {
      var ok, n := r.ReadFull(1);
      if !ok {
        return None;
      }
      ghost var named := r.pending;
      assert named == input[1..];
      var buf;
      ok, buf := r.ReadFull(n[0]);
      if !ok {
        return None;
      }
      assert buf == named[..n[0]] && r.pending == named[n[0]..];
      return Some(buf);
    }
    return None;
  }

  /** The server reactor reads an address as readAddr does; any failure there is answered with code 8. */
  lemma {:induction false} ServeAddress(ip: IpText, cmd: byte, rsv: byte, atyp: byte, input: Bytes)
    ensures var run := Serve(ip, Request, [VERSION, cmd, rsv, atyp] + input);
            match AddressAt(ip, atyp, input)
            case Some((host, rest)) => run == Serve(ip, Port(cmd, host), rest)
            case None => run.out == Reply(ADDRESS_NOT_SUPPORTED)
                         && run.pc == Refused(if KnownType(atyp) then Eof else BadAddress)
  {
    ServeStep(ip, Request, [VERSION, cmd, rsv, atyp], input);
    if atyp == DOMAIN {
      hide Serve;
      ServeName(ip, cmd, input);
    }
  }

  lemma {:induction false} ServeName(ip: IpText, cmd: byte, input: Bytes)
    ensures var run := Serve(ip, NameLength(cmd), input);
            match AddressAt(ip, DOMAIN, input)
            case Some((host, rest)) => run == Serve(ip, Port(cmd, host), rest)
            case None => run == ServerRun(Refused(Eof), [], Reply(ADDRESS_NOT_SUPPORTED))
  {
    if |input| >= 1 {
      var named := input[1..];
      assert Serve(ip, Name(cmd, input[0]), named)
          == if |named| < input[0] then ServerRun(Refused(Eof), [], Reply(ADDRESS_NOT_SUPPORTED))
             else Serve(ip, Port(cmd, named[..input[0]]), named[input[0]..]);
    }
  }

  /** So does the client reactor, on the bound address of a success reply. */
  lemma {:induction false} ConnectAddress(ip: IpText, host: Bytes, port: int, ver: byte, rsv: byte, atyp: byte,
      input: Bytes)
    ensures var run := Connect(ip, host, port, AwaitReply, [ver, SUCCEEDED, rsv, atyp] + input);
            match AddressAt(ip, atyp, input)
            case Some((_, rest)) => run == Connect(ip, host, port, BoundPort, rest)
            case None => run.pc == Failed(if KnownType(atyp) then ShortReply else BadBoundAddress)
  {
    ConnectStep(ip, host, port, AwaitReply, [ver, SUCCEEDED, rsv, atyp], input);
    if atyp == DOMAIN {
      hide Connect;
      ConnectName(ip, host, port, input);
    }
  }

  lemma {:induction false} ConnectName(ip: IpText, host: Bytes, port: int, input: Bytes)
    ensures var run := Connect(ip, host, port, BoundNameLength, input);
            match AddressAt(ip, DOMAIN, input)
            case Some((_, rest)) => run == Connect(ip, host, port, BoundPort, rest)
            case None => run == ClientRun(Failed(ShortReply), [], [])
  {
    if |input| >= 1 {
      var named := input[1..];
      assert Connect(ip, host, port, BoundName(input[0]), named)
          == if |named| < input[0] then ClientRun(Failed(ShortReply), [], [])
             else Connect(ip, host, port, BoundPort, named[input[0]..]);
    }
  }

  // ---- readSocksRequest and writeSocksReply ----

  method WriteSocksReply(w: Writer, code: byte)
    modifies w
    ensures w.sent == old(w.sent) + Clip(Reply(code), old(w.room))
    ensures w.room == old(w.room) - |Clip(Reply(code), old(w.room))|
  {
    var _ := w.Write(Reply(code));
  }

  /** The scan for the no-auth method. */
  method OffersNoAuth(methods: Bytes) returns (noAuth: bool)
    ensures noAuth == (NO_AUTH in methods)
  {
    noAuth := false;
    for i := 0 to |methods|
      invariant noAuth == (NO_AUTH in methods[..i])
    {
      if methods[i] == NO_AUTH {
        noAuth := true;
      }
    }
    assert methods[..|methods|] == methods;
  }

  /**
   What readSocksRequest returns for a client whose whole stream runs as `run`, when the connection
   takes `room` bytes: the host and port exactly when the reactor reaches the dial and the acceptance
   could be sent, leaving the reader just past the request; the reactor's error otherwise.
   */
  ghost predicate RequestRead(run: ServerRun, room: nat, r: Result<(Bytes, nat), RequestError>, rest: Bytes) {
    match r
    case Ok((host, port)) => room >= 2 && run == ServerRun(Dialling(host, port), rest, ACCEPTANCE)
    case Err(e) => if e == GreetingNotSent then room < 2 && ACCEPTANCE <= run.out else run.pc == Refused(e)
  }

  /** Writes what the reactor writes, as far as the connection takes it. */
  method ReadSocksRequest(ip: IpText, br: Reader, w: Writer) returns (r: Result<(Bytes, nat), RequestError>)
    modifies br, w
    ensures RequestRead(Serve(ip, Hello, old(br.pending)), old(w.room), r, br.pending)
    ensures w.sent == old(w.sent) + Clip(Serve(ip, Hello, old(br.pending)).out, old(w.room))
    ensures r.Ok? ==> w.room == old(w.room) - |ACCEPTANCE|
  {
    ghost var sent, room := w.sent, w.room;
    var refused := AgreeMethod(ip, br, w);
    if refused.Some? {
      r := Err(refused.value);
    } else {
      ClipTwice(sent, ACCEPTANCE, Serve(ip, Request, br.pending).out, room);
      r := ReadConnect(ip, br, w);
    }
  }

  /** The greeting: version, offered methods, and the answer to them. */
  method AgreeMethod(ip: IpText, br: Reader, w: Writer) returns (error: Option<RequestError>)
    modifies br, w
    ensures match error
            case None => old(w.room) >= 2 && w.room == old(w.room) - 2 && w.sent == old(w.sent) + ACCEPTANCE
                         && Continues(Serve(ip, Hello, old(br.pending)), Serve(ip, Request, br.pending))
            case Some(e) => RequestRead(Serve(ip, Hello, old(br.pending)), old(w.room), Err(e), br.pending)
                            && w.sent == old(w.sent) + Clip(Serve(ip, Hello, old(br.pending)).out, old(w.room))
  {
    hide Serve;
    FirstStep(ip, Hello, br.pending);
    var ok, hdr := br.ReadFull(2);
    if !ok {
      return Some(Eof);
    }
    ServeStep(ip, Hello, hdr, br.pending);
    FirstStep(ip, ServerRead(ip, Hello, hdr).0, br.pending);
    if hdr[0] != VERSION {
      return Some(BadVersion);
    }
    var methods;
    ok, methods := br.ReadFull(hdr[1]);
    if !ok {
      return Some(Eof);
    }
    ServeStep(ip, Methods(hdr[1]), methods, br.pending);
    FirstStep(ip, Refused(NoMethod), br.pending);
    var noAuth := OffersNoAuth(methods);
    if !noAuth {
      var _ := w.Write(REFUSAL);
      return Some(NoMethod);
    }
    ClipTwice(w.sent, ACCEPTANCE, Serve(ip, Request, br.pending).out, w.room);
    ok := w.Write(ACCEPTANCE);
    if !ok {
      return Some(GreetingNotSent);
    }
    return None;
  }

  /** `whole` is `tail` after the acceptance has been written. */
  ghost predicate Continues(whole: ServerRun, tail: ServerRun) {
    whole == tail.(out := ACCEPTANCE + tail.out)
  }

  /** The CONNECT request, once the method is agreed. */
  method ReadConnect(ip: IpText, br: Reader, w: Writer) returns (r: Result<(Bytes, nat), RequestError>)
    modifies br, w
    ensures w.sent == old(w.sent) + Clip(Serve(ip, Request, old(br.pending)).out, old(w.room))
    ensures r.Ok? ==> w.room == old(w.room)
    ensures match r
            case Ok((host, port)) =>
              Serve(ip, Request, old(br.pending)) == ServerRun(Dialling(host, port), br.pending, [])
            case Err(e) => e != GreetingNotSent && Serve(ip, Request, old(br.pending)).pc == Refused(e)
  {
    hide Serve, AddressAt;
    FirstStep(ip, Request, br.pending);
    var ok, req := br.ReadFull(4);
    if !ok {
      return Err(Eof);
    }
    if req[0] != VERSION {
      ServeStep(ip, Request, req, br.pending);
      FirstStep(ip, Refused(BadVersion), br.pending);
      return Err(BadVersion);
    }
    assert req == [VERSION, req[1], req[2], req[3]];
    ServeAddress(ip, req[1], req[2], req[3], br.pending);
    var host := ReadAddr(ip, br, req[3]);
    if host.None? {
      WriteSocksReply(w, ADDRESS_NOT_SUPPORTED);
      return Err(if KnownType(req[3]) then Eof else BadAddress);
    }
    r := ReadPort(ip, br, w, req[1], host.value);
  }

  method ReadPort(ip: IpText, br: Reader, w: Writer, cmd: byte, host: Bytes)
    returns (r: Result<(Bytes, nat), RequestError>)
    modifies br, w
    ensures w.sent == old(w.sent) + Clip(Serve(ip, Port(cmd, host), old(br.pending)).out, old(w.room))
    ensures r.Ok? ==> w.room == old(w.room)
    ensures match r
            case Ok((h, port)) =>
              Serve(ip, Port(cmd, host), old(br.pending)) == ServerRun(Dialling(h, port), br.pending, [])
            case Err(e) => e != GreetingNotSent && Serve(ip, Port(cmd, host), old(br.pending)).pc == Refused(e)
  {
    hide Serve;
    FirstStep(ip, Port(cmd, host), br.pending);
    var ok, portBuf := br.ReadFull(2);
    if !ok {
      return Err(Eof);
    }
    ServeStep(ip, Port(cmd, host), portBuf, br.pending);
    FirstStep(ip, ServerRead(ip, Port(cmd, host), portBuf).0, br.pending);
    if cmd != CONNECT {
      WriteSocksReply(w, COMMAND_NOT_SUPPORTED);
      return Err(BadCommand);
    }
    return Ok((host, portBuf[0] as int * 256 + portBuf[1] as int));
  }

  // ---- socksConnect ----

  /** One read of the client reactor. */
  lemma {:induction false} ConnectStep(ip: IpText, host: Bytes, port: int, pc: ClientPc, chunk: Bytes, tail: Bytes)
    requires pc.Reading() && |chunk| == pc.Need()
    ensures var (next, out) := ClientRead(ip, host, port, pc, chunk);
            var run := Connect(ip, host, port, next, tail);
            Connect(ip, host, port, pc, chunk + tail) == run.(out := out + run.out)
  {
    assert (chunk + tail)[..|chunk|] == chunk && (chunk + tail)[|chunk|..] == tail;
  }

  /** The client is done, or the stream ends inside its next read. */
  lemma ConnectStops(ip: IpText, host: Bytes, port: int, pc: ClientPc, input: Bytes)
    requires !pc.Reading() || |input| < pc.Need()
    ensures Connect(ip, host, port, pc, input)
         == if pc.Reading() then ClientRun(Failed(ShortReply), [], []) else ClientRun(pc, input, [])
  {
  }

  /** The client writes nothing after its request. */
  lemma {:induction false} SilentAfterRequest(ip: IpText, host: Bytes, port: int, pc: ClientPc, input: Bytes)
    requires pc != AwaitMethod
    ensures Connect(ip, host, port, pc, input).out == []
    decreases pc.Rank()
  {
    if pc.Reading() && |input| >= pc.Need() {
      SilentAfterRequest(ip, host, port, ClientRead(ip, host, port, pc, input[..pc.Need()]).0, input[pc.Need()..]);
    }
  }

  /** What socksConnect returns when the reactor's run is `run` and the connection takes `room` bytes. */
  ghost predicate ConnectReturned(run: ClientRun, room: nat, error: Option<ConnectError>, rest: Bytes) {
    if |run.out| > room then error == Some(ConnectError.WriteFailed)
    else if run.pc.Connected? then error == None && rest == run.rest
    else run.pc.Failed? && error == Some(run.pc.error)
  }

  /**
   Ends with the reactor's outcome and leaves the reader where the reactor stops, provided the
   connection takes every byte; otherwise the write error is returned.
   */
  method SocksConnect(ip: IpText, r: Reader, w: Writer, host: Bytes, port: int) returns (error: Option<ConnectError>)
    modifies r, w
    ensures ConnectReturned(Dialogue(ip, host, port, old(r.pending)), old(w.room), error, r.pending)
    ensures w.sent == old(w.sent) + Clip(Dialogue(ip, host, port, old(r.pending)).out, old(w.room))
  {
    ClipTwice(w.sent, GREETING, Connect(ip, host, port, AwaitMethod, r.pending).out, w.room);
    var ok := w.Write(GREETING);
    if !ok {
      return Some(ConnectError.WriteFailed);
    }
    error := AfterGreeting(ip, r, w, host, port);
  }

  /** The whole client side: its greeting, then the reactor. */
  function Dialogue(ip: IpText, host: Bytes, port: int, input: Bytes): ClientRun {
    var run := Connect(ip, host, port, AwaitMethod, input);
    run.(out := GREETING + run.out)
  }

  method AfterGreeting(ip: IpText, r: Reader, w: Writer, host: Bytes, port: int) returns (error: Option<ConnectError>)
    modifies r, w
    ensures ConnectReturned(Connect(ip, host, port, AwaitMethod, old(r.pending)), old(w.room), error, r.pending)
    ensures w.sent == old(w.sent) + Clip(Connect(ip, host, port, AwaitMethod, old(r.pending)).out, old(w.room))
  {
    var ok, resp := r.ReadFull(2);
    if !ok {
      return Some(ShortReply);
    }
    ConnectStep(ip, host, port, AwaitMethod, resp, r.pending);
    if resp[0] != VERSION || resp[1] != NO_AUTH {
      return Some(MethodRefused(resp[1]));
    }
    if TooLong(ip, host) {
      return Some(Code(ADDRESS_NOT_SUPPORTED));
    }
    SilentAfterRequest(ip, host, port, AwaitReply, r.pending);
    ok := w.Write(EncodeRequest(ip, host, port));
    if !ok {
      return Some(ConnectError.WriteFailed);
    }
    error := ReadReply(ip, r, host, port);
  }

  method ReadReply(ip: IpText, r: Reader, ghost host: Bytes, ghost port: int) returns (error: Option<ConnectError>)
    modifies r
    ensures ConnectReturned(Connect(ip, host, port, AwaitReply, old(r.pending)).(out := []), 0, error, r.pending)
  {
    hide Connect, AddressAt;
    ghost var input := r.pending;
    var ok, reply := r.ReadFull(4);
    if !ok {
      ConnectStops(ip, host, port, AwaitReply, input);
      return Some(ShortReply);
    }
    ConnectStep(ip, host, port, AwaitReply, reply, r.pending);
    if reply[1] != SUCCEEDED {
      ConnectStops(ip, host, port, Failed(Code(reply[1])), r.pending);
      return Some(Code(reply[1]));
    }
    assert reply == [reply[0], SUCCEEDED, reply[2], reply[3]];
    ConnectAddress(ip, host, port, reply[0], reply[2], reply[3], r.pending);
    var bound := ReadAddr(ip, r, reply[3]);
    if bound.None? {
      return Some(if KnownType(reply[3]) then ShortReply else BadBoundAddress);
    }
    ghost var tail := r.pending;
    var portBuf;
    ok, portBuf := r.ReadFull(2);
    if !ok {
      ConnectStops(ip, host, port, BoundPort, tail);
      return Some(ShortReply);
    }
    ConnectStep(ip, host, port, BoundPort, portBuf, r.pending);
    ConnectStops(ip, host, port, Connected, r.pending);
    return None;
  }
}
