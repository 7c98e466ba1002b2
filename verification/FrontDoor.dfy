/**
 handleSocks, dial and replyCode on whole streams, and chains of front doors.
 Errors are Go error chains: the layers that errors.As and errors.Is walk through.
 */
module FrontDoor {
  import opened Common
  import opened Socks
  import opened SocksIo

  datatype Layer =
    | SocksLayer(code: byte)
    | DnsLayer
    | OpLayer(timeout: bool)
    | RefusedLayer  // ECONNREFUSED
    | OtherLayer

  type Chain = seq<Layer>

  function FirstSocks(err: Chain): (code: Option<byte>)
    ensures code.Some? <==> exists i :: 0 <= i < |err| && err[i].SocksLayer?
    ensures code.Some? ==> SocksLayer(code.value) in err
  {
    if err == [] then None
    else if err[0].SocksLayer? then Some(err[0].code)
    else FirstSocks(err[1..])
  }

  function FirstOp(err: Chain): Option<bool> {
    if err == [] then None
    else if err[0].OpLayer? then Some(err[0].timeout)
    else FirstOp(err[1..])
  }

  function ReplyCode(err: Chain): byte {
    match FirstSocks(err)
    case Some(code) => code
    case None =>
      if DnsLayer in err then HOST_UNREACHABLE
      else match FirstOp(err)
           case Some(timeout) =>
             if timeout then HOST_UNREACHABLE
             else if RefusedLayer in err then CONNECTION_REFUSED
             else GENERAL_FAILURE
           case None => GENERAL_FAILURE
  }

  /** An error of the network stack: it has no SOCKS layer. */
  ghost predicate NetError(err: Chain) {
    forall i :: 0 <= i < |err| ==> !err[i].SocksLayer?
  }

  /** Layer i is the first operation layer of the chain. */
  ghost predicate FirstOpAt(err: Chain, i: nat) {
    i < |err| && err[i].OpLayer? && forall j :: 0 <= j < i ==> !err[j].OpLayer?
  }

  /** Some operation failed, and the outermost one that did was not a timeout, or was. */
  ghost predicate OpFailed(err: Chain, timeout: bool) {
    exists i: nat :: FirstOpAt(err, i) && err[i].timeout == timeout
  }

  /** Layer i is the first SOCKS layer of the chain. */
  ghost predicate FirstSocksAt(err: Chain, i: nat) {
    i < |err| && err[i].SocksLayer? && forall j :: 0 <= j < i ==> !err[j].SocksLayer?
  }

  /**
   The reply code of section 6 of RFC 1928 an error calls for: the upstream's own if it gave one; else 4,
   host unreachable, for a failed lookup or an operation that timed out; 5, connection refused, for one
   that did not and was refused; 1, general failure, for everything else.
   */
  ghost predicate CallsFor(err: Chain, code: int) {
    && (forall i: nat :: FirstSocksAt(err, i) ==> code == err[i].code)
    && ((forall i: nat :: !FirstSocksAt(err, i)) ==>
          var unreachable := DnsLayer in err || OpFailed(err, true);
          var refused := OpFailed(err, false) && RefusedLayer in err;
          code == if unreachable then 4 else if refused then 5 else 1)
  }

  lemma {:induction false} FirstSocksFinds(err: Chain)
    ensures match FirstSocks(err)
            case None => forall i: nat :: !FirstSocksAt(err, i)
            case Some(code) => exists i: nat :: FirstSocksAt(err, i) && err[i].code == code
  {
    if err != [] && !err[0].SocksLayer? {
      FirstSocksFinds(err[1..]);
      if FirstSocks(err[1..]).Some? {
        var i: nat :| FirstSocksAt(err[1..], i) && err[1..][i].code == FirstSocks(err).value;
        assert FirstSocksAt(err, i + 1) by {
          assert forall j :: 0 < j < i + 1 ==> err[j] == err[1..][j - 1];
        }
      }
    } else if err != [] {
      assert FirstSocksAt(err, 0);
    }
  }

  lemma {:induction false} FirstOpFinds(err: Chain)
    ensures match FirstOp(err)
            case None => !OpFailed(err, true) && !OpFailed(err, false)
            case Some(timeout) => OpFailed(err, timeout) && !OpFailed(err, !timeout)
  {
    if err != [] && !err[0].OpLayer? {
      FirstOpFinds(err[1..]);
      forall i: nat ensures FirstOpAt(err, i) <==> i > 0 && FirstOpAt(err[1..], i - 1) {
        if i > 0 && FirstOpAt(err[1..], i - 1) {
          assert forall j :: 0 < j < i ==> err[j] == err[1..][j - 1];
        }
        if i > 0 && FirstOpAt(err, i) {
          assert forall j :: 0 <= j < i - 1 ==> err[1..][j] == err[j + 1];
        }
      }
      forall t: bool ensures OpFailed(err, t) <==> OpFailed(err[1..], t) {
        if OpFailed(err[1..], t) {
          var i: nat :| FirstOpAt(err[1..], i) && err[1..][i].timeout == t;
          assert FirstOpAt(err, i + 1);
        }
      }
    } else if err != [] {
      assert FirstOpAt(err, 0);
      assert forall i: nat :: FirstOpAt(err, i) ==> i == 0;
    }
  }

  /** replyCode gives every error the code it calls for, and no other code is called for. */
  lemma {:induction false} CodeCalledFor(err: Chain)
    ensures forall code: int :: CallsFor(err, code) <==> code == ReplyCode(err)
  {
    FirstSocksFinds(err);
    FirstOpFinds(err);
    hide FirstSocks, FirstOp, OpFailed;
  }

  // ---- dial ----

  /**
   What the network does with one dial; `io` is the error of a read or write that fails underneath. A
   live upstream comes with the bytes it goes on to send.
   */
  datatype Attempt =
    | Direct(outcome: Result<Bytes, Chain>)
    | Unreachable(error: Chain)
    | Tunnel(response: Bytes, room: nat, io: Chain)
  {
    ghost predicate Genuine() {
      match this
      case Direct(Ok(_)) => true
      case Direct(Err(e)) => NetError(e)
      case Unreachable(e) => NetError(e)
      case Tunnel(_, _, io) => NetError(io)
    }
  }

  /** The error socksConnect returns, as a chain. */
  function ConnectChain(error: ConnectError, io: Chain): Chain {
    match error
    case Code(code) => [SocksLayer(code), OtherLayer]
    case MethodRefused(_) => [OtherLayer]
    case BadBoundAddress => [OtherLayer, OtherLayer]
    case ShortReply => [OtherLayer] + io
    case WriteFailed => io
  }

  /** The client's outcome against an upstream that sends `response`, on a connection taking `room` bytes. */
  function ConnectResult(ip: IpText, host: Bytes, port: int, response: Bytes, room: nat): Result<Bytes, ConnectError> {
    var run := Dialogue(ip, host, port, response);
    if |run.out| > room then Err(ConnectError.WriteFailed)
    else if run.pc.Failed? then Err(run.pc.error)
    else Ok(run.rest)
  }

  /** A live connection and what it goes on to send, or the error dial returns. */
  function Dial(ip: IpText, host: Bytes, port: int, attempt: Attempt): Result<Bytes, Chain> {
    match attempt
    case Direct(outcome) => outcome
    case Unreachable(e) => Err([SocksLayer(GENERAL_FAILURE), OtherLayer] + e)
    case Tunnel(response, room, io) =>
      match ConnectResult(ip, host, port, response, room)
      case Ok(payload) => Ok(payload)
      case Err(error) => Err(ConnectChain(error, io))
  }

  /** The only codes socksConnect puts in an error are refusals: a success reply is never one. */
  lemma {:induction false} FailureCodeIsNotSuccess(ip: IpText, host: Bytes, port: int, pc: ClientPc, input: Bytes)
    requires pc != Failed(Code(SUCCEEDED))
    ensures Connect(ip, host, port, pc, input).pc != Failed(Code(SUCCEEDED))
    decreases pc.Rank()
  {
    if pc.Reading() && |input| >= pc.Need() {
      FailureCodeIsNotSuccess(ip, host, port, ClientRead(ip, host, port, pc, input[..pc.Need()]).0, input[pc.Need()..]);
    }
  }

  /** No error dial can return is reported as a success. */
  lemma {:induction false} DialErrorIsNotSuccess(ip: IpText, host: Bytes, port: int, attempt: Attempt)
    requires attempt.Genuine() && Dial(ip, host, port, attempt).Err?
    ensures ReplyCode(Dial(ip, host, port, attempt).error) != SUCCEEDED
  {
    hide Connect, ReplyCode, FirstSocks;
    match attempt
    case Direct(outcome) => NetErrorIsNotSuccess(outcome.error);
    case Unreachable(e) => SocksCode(GENERAL_FAILURE, e);
    case Tunnel(response, room, io) =>
      FailureCodeIsNotSuccess(ip, host, port, AwaitMethod, response);
      ConnectErrorIsNotSuccess(ConnectResult(ip, host, port, response, room).error, io);
  }

  lemma NetErrorIsNotSuccess(err: Chain)
    requires NetError(err)
    ensures ReplyCode(err) != SUCCEEDED
  {
    assert FirstSocks(err).None?;
  }

  lemma SocksCode(code: byte, err: Chain)
    ensures ReplyCode([SocksLayer(code), OtherLayer] + err) == code
  {
    assert ([SocksLayer(code), OtherLayer] + err)[0] == SocksLayer(code);
  }

  lemma {:induction false} ConnectErrorIsNotSuccess(error: ConnectError, io: Chain)
    requires error != Code(SUCCEEDED) && NetError(io)
    ensures ReplyCode(ConnectChain(error, io)) != SUCCEEDED
  {
    hide ReplyCode, FirstSocks;
    match error
    case Code(code) => RefusalReports(code, io);
    case _ => NetErrorIsNotSuccess(ConnectChain(error, io));
  }

  // ---- handleSocks ----

  /** The deadline handle sets when it accepts, and the dialler's own timeout, in nanoseconds. */
  const HANDSHAKE_TIMEOUT: nat := 10_000_000_000
  const DIAL_TIMEOUT: nat := 10_000_000_000

  /**
   The client's connection, which takes `room` bytes and then fails, and the time since accept at
   which the dial is over. The deadline is lifted only after the reply, whose write error is ignored.
   */
  datatype Client = Client(room: nat, dialEnds: nat)
  {
    /** How many bytes of a reply still go out: none once the deadline has passed. */
    function Left(): nat {
      if dialEnds >= HANDSHAKE_TIMEOUT || room < |ACCEPTANCE| then 0 else room - |ACCEPTANCE|
    }
  }

  /**
   What is written between the dial and the relay. A live upstream found while shutting down is closed
   without a reply.
   */
  function Answered(dialled: Result<Bytes, Chain>, client: Client, closing: bool): Bytes {
    match dialled
    case Err(e) => Clip(Reply(ReplyCode(e)), client.Left())
    case Ok(_) => if closing then [] else Clip(Reply(SUCCEEDED), client.Left())
  }

  /** Everything handleSocks writes to a client that sends `input` in time, up to the relay. */
  function Transcript(ip: IpText, input: Bytes, attempt: Attempt, client: Client, closing: bool): Bytes {
    var run := Serve(ip, Hello, input);
    if !run.pc.Dialling? || client.room < |ACCEPTANCE| then Clip(run.out, client.room)
    else run.out + Answered(Dial(ip, run.pc.host, run.pc.port, attempt), client, closing)
  }

  /** The relay is reached: the dial returned a live upstream and the server is not shutting down. */
  predicate Live(ip: IpText, input: Bytes, attempt: Attempt, client: Client, closing: bool) {
    var pc := Serve(ip, Hello, input).pc;
    pc.Dialling? && client.room >= |ACCEPTANCE| && Dial(ip, pc.host, pc.port, attempt).Ok? && !closing
  }

  /**
   What a client sees is the beginning of a legal transcript. It sees a whole success reply exactly
   when there is a live upstream and the reply goes out whole; the code of a success is never written
   without a live upstream; and when the dial ends past the deadline, or finds the server closing, there
   is no reply at all.
   */
  lemma {:induction false} TranscriptIsLegal(ip: IpText, input: Bytes, attempt: Attempt, client: Client, closing: bool)
    returns (whole: Bytes)
    requires attempt.Genuine()
    ensures LegalTranscript(whole) && Transcript(ip, input, attempt, client, closing) <= whole
    ensures Transcript(ip, input, attempt, client, closing) == ACCEPTANCE + Reply(SUCCEEDED)
       <==> Live(ip, input, attempt, client, closing) && client.Left() >= 10
    ensures var t := Transcript(ip, input, attempt, client, closing);
            |t| >= 4 && t[3] == SUCCEEDED ==> Live(ip, input, attempt, client, closing)
    ensures var pc := Serve(ip, Hello, input).pc;
      pc.Dialling? && client.room >= 2
      && (client.dialEnds >= 10_000_000_000 || (closing && Dial(ip, pc.host, pc.port, attempt).Ok?)) ==>
        Transcript(ip, input, attempt, client, closing) == [5, 0]
  {
    hide Serve, Connect, ReplyCode;
    ServeIsLegal(ip, input);
    var run := Serve(ip, Hello, input);
    assert (ACCEPTANCE + Reply(SUCCEEDED))[3] == SUCCEEDED;
    if !run.pc.Dialling? || client.room < |ACCEPTANCE| {
      whole := run.out;
    } else {
      var dialled := Dial(ip, run.pc.host, run.pc.port, attempt);
      var code := CodeOf(dialled);
      whole := ACCEPTANCE + Reply(code);
      assert whole[3] == code;
      if dialled.Err? {
        DialErrorIsNotSuccess(ip, run.pc.host, run.pc.port, attempt);
      }
    }
  }

  /** The code a dial's outcome calls for, by what the network did. */
  ghost predicate ReplyIs(ip: IpText, host: Bytes, port: nat, attempt: Attempt, code: int) {
    match attempt
    case Direct(Ok(_)) => code == 0
    case Direct(Err(e)) => CallsFor(e, code)
    case Unreachable(_) => code == 1
    case Tunnel(response, room, io) =>
      match ConnectResult(ip, host, port, response, room)
      case Ok(_) => code == 0
      case Err(Code(c)) => code == c
      case Err(WriteFailed) => CallsFor(io, code)
      case Err(ShortReply) => CallsFor([OtherLayer] + io, code)
      case Err(_) => code == 1
  }

  lemma {:induction false} DialCalledFor(ip: IpText, host: Bytes, port: nat, attempt: Attempt)
    ensures ReplyIs(ip, host, port, attempt, CodeOf(Dial(ip, host, port, attempt)))
  {
    hide Connect, ReplyCode, CallsFor;
    match attempt
    case Direct(outcome) =>
      if outcome.Err? {
        CodeCalledFor(outcome.error);
      }
    case Unreachable(e) => SocksCode(GENERAL_FAILURE, e);
    case Tunnel(response, room, io) =>
      var result := ConnectResult(ip, host, port, response, room);
      if result.Err? {
        CodeCalledFor(ConnectChain(result.error, io));
        match result.error
        case Code(c) => RefusalReports(c, io);
        case MethodRefused(_) => PlainError([OtherLayer]);
        case BadBoundAddress => PlainError([OtherLayer, OtherLayer]);
        case _ =>
      }
  }

  lemma PlainError(err: Chain)
    requires err == [OtherLayer] || err == [OtherLayer, OtherLayer]
    ensures ReplyCode(err) == 1
  {
    assert FirstSocks(err).None?;
    assert FirstOp([OtherLayer]).None? && FirstOp([]).None?;
    assert |err| == 2 ==> err[1..] == [OtherLayer];
  }

  /** What a client is sent when there is time for it: the acceptance, then a reply whose second byte is that code. */
  ghost predicate Answers(ip: IpText, host: Bytes, port: nat, attempt: Attempt, sent: Bytes) {
    exists code: byte :: ReplyIs(ip, host, port, attempt, code) && sent == [5, 0, 5, code, 0, 1, 0, 0, 0, 0, 0, 0]
  }

  lemma {:induction false} TimelyReply(ip: IpText, input: Bytes, attempt: Attempt, client: Client)
    requires Serve(ip, Hello, input).pc.Dialling? && client.room >= 12 && client.dialEnds < 10_000_000_000
    ensures var pc := Serve(ip, Hello, input).pc;
      Answers(ip, pc.host, pc.port, attempt, Transcript(ip, input, attempt, client, false))
  {
    hide Serve, Dial, ReplyCode, ReplyIs;
    var pc := Serve(ip, Hello, input).pc;
    ServeIsLegal(ip, input);
    DialCalledFor(ip, pc.host, pc.port, attempt);
    var code: byte := CodeOf(Dial(ip, pc.host, pc.port, attempt));
    assert ReplyIs(ip, pc.host, pc.port, attempt, code);
    assert ACCEPTANCE + Reply(code) == [5, 0, 5, code, 0, 1, 0, 0, 0, 0, 0, 0];
  }

  /**
   handleSocks up to the relay, with track's answer and the dial's end as parameters: it writes the
   transcript, and relays a live upstream from just past the request.
   */
  method HandleSocks(ip: IpText, br: Reader, conn: Writer, network: (Bytes, nat) -> Attempt,
      dialEnds: nat, closing: bool) returns (upstream: Option<Bytes>)
    modifies br, conn
    ensures var client := Client(old(conn.room), dialEnds);
            var pc := Serve(ip, Hello, old(br.pending)).pc;
            var attempt := if pc.Dialling? then network(pc.host, pc.port) else Unreachable([]);
      && conn.sent == old(conn.sent) + Transcript(ip, old(br.pending), attempt, client, closing)
      && (upstream.Some? <==> Live(ip, old(br.pending), attempt, client, closing))
      && (upstream.Some? ==> Dial(ip, pc.host, pc.port, attempt) == Ok(upstream.value)
                             && br.pending == Serve(ip, Hello, old(br.pending)).rest)
    ensures var pc := Serve(ip, Hello, old(br.pending)).pc;
      pc.Dialling? && old(conn.room) >= 12 && dialEnds < 10_000_000_000 && !closing ==>
        Answers(ip, pc.host, pc.port, network(pc.host, pc.port), conn.sent[|old(conn.sent)|..])
  {
    hide Serve, Dial, Answered, Answers;
    ghost var sent, client := conn.sent, Client(conn.room, dialEnds);
    ghost var reached := Serve(ip, Hello, br.pending).pc;
    if reached.Dialling? && conn.room >= 12 && dialEnds < 10_000_000_000 && !closing {
      TimelyReply(ip, br.pending, network(reached.host, reached.port), client);
    }
    var request := ReadSocksRequest(ip, br, conn);
    if request.Err? {
      return None;
    }
    var (host, port) := request.value;
    var dialled := Dial(ip, host, port, network(host, port));
    var live := AnswerDial(conn, dialled, dialEnds, closing);
    assert conn.sent == sent + (ACCEPTANCE + Answered(dialled, client, closing));
    assert conn.sent[|sent|..] == ACCEPTANCE + Answered(dialled, client, closing);
    return if live then Some(dialled.value) else None;
  }

  /** What handleSocks does with the outcome of the dial. */
  method AnswerDial(conn: Writer, dialled: Result<Bytes, Chain>, dialEnds: nat, closing: bool) returns (live: bool)
    modifies conn
    ensures conn.sent == old(conn.sent) + Answered(dialled, Client(old(conn.room) + |ACCEPTANCE|, dialEnds), closing)
    ensures live <==> dialled.Ok? && !closing
  {
    hide ReplyCode;
    if dialEnds >= HANDSHAKE_TIMEOUT {
      conn.Expire();
    }
    if dialled.Err? {
      WriteSocksReply(conn, ReplyCode(dialled.error));
      return false;
    }
    if closing {
      return false;
    }
    WriteSocksReply(conn, SUCCEEDED);
    return true;
  }

  // ---- Round trips between the two ends ----

  /** The server decodes what socksConnect encodes, and whatever is pipelined behind it stays unread. */
  lemma {:induction false} RequestRoundTrip(ip: IpText, host: Bytes, port: int, rest: Bytes)
    requires ip.Lawful() && !TooLong(ip, host)
    ensures Serve(ip, Hello, GREETING + (EncodeRequest(ip, host, port) + rest))
         == ServerRun(Dialling(Canonical(ip, host), port % 0x10000), rest, ACCEPTANCE)
  {
    hide Serve, Canonical, DestinationOf, RequestMessage, PortBytes, Handshake;
    var dst := DestinationOf(ip, host);
    TextIsCanonical(ip, host);
    MessageTail(dst, PortBytes(port), rest);
    PortOf16Bits(port);
    GreetingIsHandshake(0, dst, port % 0x10000, rest);
    DecodeHandshake(ip, [NO_AUTH], 0, dst, port % 0x10000, rest);
  }

  lemma PortOf16Bits(port: int)
    ensures PortBytes(port) == PortBytes(port % 0x10000)
  {
  }

  lemma GreetingIsHandshake(rsv: byte, dst: Destination, port: nat, rest: Bytes)
    requires dst.Valid()
    ensures GREETING + RequestMessage(rsv, dst, PortBytes(port) + rest) == Handshake([NO_AUTH], rsv, dst, port, rest)
  {
    hide RequestMessage, PortBytes;
    var request := RequestMessage(rsv, dst, PortBytes(port) + rest);
    assert GREETING + request == [VERSION, |[NO_AUTH]|] + ([NO_AUTH] + request);
  }

  lemma TextIsCanonical(ip: IpText, host: Bytes)
    requires ip.Lawful() && !TooLong(ip, host)
    ensures DestinationOf(ip, host).Valid() && DestinationOf(ip, host).Text(ip) == Canonical(ip, host)
  {
  }

  lemma {:induction false} MessageTail(dst: Destination, port: Bytes, rest: Bytes)
    requires dst.Valid()
    ensures RequestMessage(0, dst, port) + rest == RequestMessage(0, dst, port + rest)
  {
    match dst
    case Domain(n) => assert (n + port) + rest == n + (port + rest);
    case _ => assert (dst.octets + port) + rest == dst.octets + (port + rest);
  }

  /** The client reads the server's reply back: success leaves the relayed bytes unread, a refusal carries its code. */
  lemma {:induction false} ReplyRoundTrip(ip: IpText, host: Bytes, port: int, code: byte, rest: Bytes)
    requires !TooLong(ip, host)
    ensures var run := Connect(ip, host, port, AwaitMethod, ACCEPTANCE + (Reply(code) + rest));
            if code == SUCCEEDED then run == ClientRun(Connected, rest, EncodeRequest(ip, host, port))
            else run.pc == Failed(Code(code)) && run.out == EncodeRequest(ip, host, port)
  {
    hide EncodeRequest;
    WholeReply(ip, host, port, code, rest);
    ConnectStep(ip, host, port, AwaitMethod, ACCEPTANCE, Reply(code) + rest);
    SilentAfterRequest(ip, host, port, AwaitReply, Reply(code) + rest);
  }

  lemma {:induction false} WholeReply(ip: IpText, host: Bytes, port: int, code: byte, rest: Bytes)
    ensures var run := Connect(ip, host, port, AwaitReply, Reply(code) + rest);
            if code == SUCCEEDED then run == ClientRun(Connected, rest, []) else run.pc == Failed(Code(code))
  {
    var tail := [0, 0, 0, 0] + ([0, 0] + rest);
    assert Reply(code) + rest == [VERSION, code, 0, IPV4] + tail;
    ConnectStep(ip, host, port, AwaitReply, [VERSION, code, 0, IPV4], tail);
    if code == SUCCEEDED {
      ConnectStep(ip, host, port, BoundAddress(IPV4), [0, 0, 0, 0], [0, 0] + rest);
      ConnectStep(ip, host, port, BoundPort, [0, 0], rest);
    }
  }

  // ---- Chains of front doors ----

  function CodeOf(dialled: Result<Bytes, Chain>): byte {
    if dialled.Ok? then SUCCEEDED else ReplyCode(dialled.error)
  }

  /** How much of a reply a client reads before it knows the code and, after a success, where the payload starts. */
  function Telling(code: byte): nat {
    if code == SUCCEEDED then 10 else 4
  }

  /**
   A front door as one of its clients meets it. Its route is direct, or leads through a tunnel that is
   down, or through one to another door (an ssh -D or a front door) whose short reads fail with `io`.
   */
  datatype Door =
    | Last(client: Client, dial: (Bytes, nat) -> Result<Bytes, Chain>)
    | Down(client: Client, error: Chain)
    | Through(client: Client, next: Door, io: Chain)
  {
    ghost predicate Genuine() {
      match this
      case Last(_, dial) => forall h: Bytes, p: nat :: dial(h, p).Err? ==> NetError(dial(h, p).error)
      case Down(_, e) => NetError(e)
      case Through(_, next, io) => next.Genuine() && NetError(io)
    }

    /** What the dial at the far end of the chain returns for (host, port). */
    function Far(host: Bytes, port: nat): Result<Bytes, Chain> {
      match this
      case Last(_, dial) => dial(host, port)
      case Down(_, e) => Err([SocksLayer(GENERAL_FAILURE), OtherLayer] + e)
      case Through(_, next, _) => next.Far(host, port)
    }

    /**
     The far end's code passes: this door's reply goes out as far as that code needs, and so does every
     other, or the code put in the place of one that was lost happens to be the same.
     */
    predicate Passes(code: byte) {
      && client.Left() >= Telling(code)
      && (Through? ==> next.Passes(code)
                       || (next.client.Left() < Telling(code) && ReplyCode(ConnectChain(ShortReply, io)) == code))
    }

    /** Every door of the chain gets its whole reply out before its client's deadline. */
    predicate Prompt() {
      client.Left() >= 10 && (Through? ==> next.Prompt())
    }
  }

  /** Enough room for every message of the handshake: a door does not fail to send its request. */
  const ROOM: nat := 1000

  /** What the network does for a door that dials (host, port). */
  function DoorAttempt(ip: IpText, door: Door, host: Bytes, port: nat): Attempt
    decreases door, 0
  {
    match door
    case Last(_, dial) => Direct(dial(host, port))
    case Down(_, e) => Unreachable(e)
    case Through(_, next, io) =>
      var request := if TooLong(ip, host) then GREETING else GREETING + EncodeRequest(ip, host, port);
      Tunnel(Answer(ip, next, request), ROOM, io)
  }

  /** Everything the first door sends for the client stream `input`, relayed payload included. */
  function Answer(ip: IpText, door: Door, input: Bytes): Bytes
    decreases door, 1
  {
    var pc := Serve(ip, Hello, input).pc;
    if !pc.Dialling? then Transcript(ip, input, Unreachable([]), door.client, false)
    else
      var attempt := DoorAttempt(ip, door, pc.host, pc.port);
      Transcript(ip, input, attempt, door.client, false) + Payload(Dial(ip, pc.host, pc.port, attempt), door.client)
  }

  /** What the relay adds. */
  function Payload(dialled: Result<Bytes, Chain>, client: Client): Bytes {
    if dialled.Ok? && client.room >= |ACCEPTANCE| then dialled.value else []
  }

  lemma {:induction false} CanonicalIsStable(ip: IpText, host: Bytes)
    requires ip.Lawful() && !TooLong(ip, host)
    ensures Canonical(ip, Canonical(ip, host)) == Canonical(ip, host) && !TooLong(ip, Canonical(ip, host))
  {
    match ip.parse(host)
    case None =>
    case Some(V4(b)) => assert ip.parse(ip.show(V4(b))) == Some(V4(b));
    case Some(V6(b, _)) => assert ip.parse(ip.show(V6(b, []))) == Some(V6(b, []));
  }

  /** What a door that has read its request sends after its dial, the acceptance before it included. */
  function Said(dialled: Result<Bytes, Chain>, client: Client): Bytes {
    if client.room < |ACCEPTANCE| then Clip(ACCEPTANCE, client.room)
    else ACCEPTANCE + (Answered(dialled, client, false) + Payload(dialled, client))
  }

  lemma {:induction false} DoorSays(ip: IpText, door: Door, host: Bytes, port: int)
    requires ip.Lawful() && !TooLong(ip, host)
    ensures var h, p := Canonical(ip, host), port % 0x10000;
      Answer(ip, door, GREETING + EncodeRequest(ip, host, port))
      == Said(Dial(ip, h, p, DoorAttempt(ip, door, h, p)), door.client)
  {
    hide Serve, Dial, DoorAttempt, EncodeRequest, Canonical, Answer, Said;
    var input := GREETING + EncodeRequest(ip, host, port);
    assert input == GREETING + (EncodeRequest(ip, host, port) + []);
    RequestRoundTrip(ip, host, port, []);
    AnswerIsSaid(ip, door, input, Canonical(ip, host), port % 0x10000);
  }

  lemma {:induction false} AnswerIsSaid(ip: IpText, door: Door, input: Bytes, host: Bytes, port: nat)
    requires Serve(ip, Hello, input) == ServerRun(Dialling(host, port), [], ACCEPTANCE)
    ensures Answer(ip, door, input) == Said(Dial(ip, host, port, DoorAttempt(ip, door, host, port)), door.client)
  {
    hide Serve, Dial, DoorAttempt, Answered;
    var dialled := Dial(ip, host, port, DoorAttempt(ip, door, host, port));
    var reply, payload := Answered(dialled, door.client, false), Payload(dialled, door.client);
    assert (ACCEPTANCE + reply) + payload == ACCEPTANCE + (reply + payload);
    assert Clip(ACCEPTANCE, door.client.room) + [] == Clip(ACCEPTANCE, door.client.room);
  }

  // ---- What a client makes of it ----

  /** A success reply is at least seven bytes long, and ten when it says its bound address is IPv4. */
  lemma {:induction false} ReplyLength(ip: IpText, host: Bytes, port: int, input: Bytes)
    requires Connect(ip, host, port, AwaitReply, input).pc.Connected?
    ensures |input| >= 4 && |Connect(ip, host, port, AwaitReply, input).rest| + 7 <= |input|
    ensures input[3] == IPV4 ==> |Connect(ip, host, port, AwaitReply, input).rest| + 10 == |input|
  {
    hide Connect, AddressAt;
    FirstReply(ip, host, port, input);
    assert input == [input[0], SUCCEEDED, input[2], input[3]] + input[4..];
    ConnectAddress(ip, host, port, input[0], input[2], input[3], input[4..]);
    AddressLength(ip, input[3], input[4..]);
    PortLength(ip, host, port, AddressAt(ip, input[3], input[4..]).value.1);
  }

  lemma {:induction false} FirstReply(ip: IpText, host: Bytes, port: int, input: Bytes)
    requires Connect(ip, host, port, AwaitReply, input).pc.Connected?
    ensures |input| >= 4 && input[1] == SUCCEEDED
  {
  }

  lemma {:induction false} AddressLength(ip: IpText, atyp: byte, input: Bytes)
    ensures match AddressAt(ip, atyp, input)
            case None => true
            case Some((_, rest)) => if atyp == IPV4 then |rest| + 4 == |input| else |rest| < |input|
  {
  }

  lemma {:induction false} PortLength(ip: IpText, host: Bytes, port: int, input: Bytes)
    requires Connect(ip, host, port, BoundPort, input).pc.Connected?
    ensures |Connect(ip, host, port, BoundPort, input).rest| + 2 == |input|
  {
  }

  /** socksConnect past an accepted greeting reads what follows it. */
  lemma {:induction false} AfterAcceptance(ip: IpText, host: Bytes, port: int, tail: Bytes)
    requires !TooLong(ip, host)
    ensures var run := Connect(ip, host, port, AwaitMethod, ACCEPTANCE + tail);
            run.pc == Connect(ip, host, port, AwaitReply, tail).pc
            && run.rest == Connect(ip, host, port, AwaitReply, tail).rest && run.out == EncodeRequest(ip, host, port)
  {
    hide EncodeRequest;
    ConnectStep(ip, host, port, AwaitMethod, ACCEPTANCE, tail);
    SilentAfterRequest(ip, host, port, AwaitReply, tail);
  }

  /** A refusal is understood from its first four bytes; anything shorter is a short reply. */
  lemma {:induction false} HearsRefusal(ip: IpText, host: Bytes, port: int, code: byte, left: nat)
    requires code != SUCCEEDED
    ensures Connect(ip, host, port, AwaitReply, Clip(Reply(code), left)).pc
         == Failed(if left >= 4 then Code(code) else ShortReply)
  {
    var reply := Clip(Reply(code), left);
    if left >= 4 {
      var header, tail := [VERSION, code, 0, IPV4], reply[4..];
      assert reply == header + tail;
      hide Connect, Clip;
      ConnectStep(ip, host, port, AwaitReply, header, tail);
      ConnectStops(ip, host, port, Failed(Code(code)), tail);
    } else {
      assert |reply| < 4;
    }
  }

  /**
   A success reply that went out whole leaves the payload; of one cut short, a client that takes itself
   to be connected has eaten some.
   */
  lemma {:induction false} HearsSuccess(ip: IpText, host: Bytes, port: int, payload: Bytes, left: nat)
    ensures var run := Connect(ip, host, port, AwaitReply, Clip(Reply(SUCCEEDED), left) + payload);
      if left >= 10 then run == ClientRun(Connected, payload, [])
      else run.pc.Connected? ==> |run.rest| < |payload|
  {
    hide Connect;
    var input := Clip(Reply(SUCCEEDED), left) + payload;
    if left >= 10 {
      WholeReply(ip, host, port, SUCCEEDED, payload);
    } else if Connect(ip, host, port, AwaitReply, input).pc.Connected? {
      ReplyLength(ip, host, port, input);
      assert left >= 4 ==> input[3] == Reply(SUCCEEDED)[3];
    }
  }

  /** The client's run against a door whose dial returned `dialled`. */
  lemma {:induction false} ClientHears(ip: IpText, host: Bytes, port: int,
      dialled: Result<Bytes, Chain>, client: Client)
    requires !TooLong(ip, host) && (dialled.Err? ==> ReplyCode(dialled.error) != SUCCEEDED)
    ensures var run := Connect(ip, host, port, AwaitMethod, Said(dialled, client));
      && (run.out == [] || run.out == EncodeRequest(ip, host, port))
      && match dialled
         case Err(e) => run.pc == Failed(if client.Left() >= 4 then Code(ReplyCode(e)) else ShortReply)
         case Ok(payload) =>
           if client.Left() >= 10 then run.pc == Connected && run.rest == payload
           else run.pc.Connected? ==> |run.rest| < |payload|
  {
    hide ReplyCode, EncodeRequest;
    if client.room < |ACCEPTANCE| {
      assert |Said(dialled, client)| < 2;
    } else {
      hide Connect, Reply;
      var tail := Answered(dialled, client, false) + Payload(dialled, client);
      AfterAcceptance(ip, host, port, tail);
      match dialled
      case Err(e) =>
        assert tail == Clip(Reply(ReplyCode(e)), client.Left());
        HearsRefusal(ip, host, port, ReplyCode(e), client.Left());
      case Ok(payload) => HearsSuccess(ip, host, port, payload, client.Left());
    }
  }

  lemma {:induction false} RequestSize(ip: IpText, host: Bytes, port: int)
    requires ip.Lawful() && !TooLong(ip, host)
    ensures |EncodeRequest(ip, host, port)| <= 262
  {
    assert |PortBytes(port)| == 2;
  }

  /** The dial of a door through a tunnel to one whose own dial returned `behind`. */
  lemma {:induction false} TunnelDial(ip: IpText, host: Bytes, port: nat,
      behind: Result<Bytes, Chain>, client: Client, io: Chain)
    requires ip.Lawful() && !TooLong(ip, host) && NetError(io)
    requires behind.Err? ==> ReplyCode(behind.error) != SUCCEEDED
    ensures var dialled := Dial(ip, host, port, Tunnel(Said(behind, client), ROOM, io));
      && (dialled.Err? ==> ReplyCode(dialled.error) != SUCCEEDED)
      && match behind
         case Err(e) =>
           dialled.Err? && ReplyCode(dialled.error)
                           == if client.Left() >= 4 then ReplyCode(e) else ReplyCode(ConnectChain(ShortReply, io))
         case Ok(payload) =>
           if client.Left() >= 10 then dialled == Ok(payload)
           else dialled.Ok? ==> |dialled.value| < |payload|
  {
    hide Connect, EncodeRequest, ReplyCode, Said, Reply;
    var attempt := Tunnel(Said(behind, client), ROOM, io);
    ClientHears(ip, host, port, behind, client);
    RequestSize(ip, host, port);
    if Dial(ip, host, port, attempt).Err? {
      DialErrorIsNotSuccess(ip, host, port, attempt);
    }
    if behind.Err? {
      RefusalReports(ReplyCode(behind.error), io);
    }
  }

  lemma {:induction false} RefusalReports(code: byte, io: Chain)
    ensures ReplyCode(ConnectChain(Code(code), io)) == code
  {
    assert ConnectChain(Code(code), io)[0] == SocksLayer(code);
  }

  /**
   The dial of the first door against the far end's: a refusal never turns into a connection, no
   payload is made up, and the far end's code and payload get past this door exactly when it Passes.
   */
  lemma {:induction false} DoorOutcome(ip: IpText, door: Door, host: Bytes, port: nat)
    requires ip.Lawful() && door.Genuine() && !TooLong(ip, host) && Canonical(ip, host) == host && port < 0x10000
    ensures var far := door.Far(host, port);
      var dialled := Dial(ip, host, port, DoorAttempt(ip, door, host, port));
      && (far.Err? ==> dialled.Err? && ReplyCode(far.error) != SUCCEEDED)
      && (dialled.Err? ==> ReplyCode(dialled.error) != SUCCEEDED)
      && (dialled.Ok? ==> |dialled.value| <= |far.value|)
      && (door.client.Left() >= Telling(CodeOf(far)) && SameOutcome(dialled, far) <==> door.Passes(CodeOf(far)))
    decreases door
  {
    hide Dial, Answer, Canonical, EncodeRequest, Said, ReplyCode;
    var far, attempt := door.Far(host, port), DoorAttempt(ip, door, host, port);
    match door
    case Last(_, _) => DirectDial(ip, host, port, attempt);
    case Down(_, e) => UnreachableDial(ip, host, port, e);
    case Through(_, next, io) =>
      DoorOutcome(ip, next, host, port);
      var behind := Dial(ip, host, port, DoorAttempt(ip, next, host, port));
      DoorSays(ip, next, host, port);
      assert attempt == Tunnel(Said(behind, next.client), ROOM, io);
      TunnelDial(ip, host, port, behind, next.client, io);
      ConnectErrorIsNotSuccess(ShortReply, io);
  }

  /** Same code, and after a success the same payload. */
  predicate SameOutcome(dialled: Result<Bytes, Chain>, far: Result<Bytes, Chain>) {
    CodeOf(dialled) == CodeOf(far) && (far.Ok? ==> dialled == far)
  }

  lemma {:induction false} DirectDial(ip: IpText, host: Bytes, port: nat, attempt: Attempt)
    requires attempt.Direct? && attempt.Genuine()
    ensures Dial(ip, host, port, attempt) == attempt.outcome
    ensures attempt.outcome.Err? ==> ReplyCode(attempt.outcome.error) != SUCCEEDED
  {
    if attempt.outcome.Err? {
      DialErrorIsNotSuccess(ip, host, port, attempt);
    }
  }

  lemma {:induction false} UnreachableDial(ip: IpText, host: Bytes, port: nat, error: Chain)
    ensures Dial(ip, host, port, Unreachable(error)) == Err([SocksLayer(GENERAL_FAILURE), OtherLayer] + error)
    ensures ReplyCode([SocksLayer(GENERAL_FAILURE), OtherLayer] + error) == GENERAL_FAILURE
  {
    SocksCode(GENERAL_FAILURE, error);
  }

  // ---- Main results on chains ----

  /** The client's run of socksConnect for (host, port) through the first door. */
  function ThroughChain(ip: IpText, door: Door, host: Bytes, port: int): ClientRun
    requires !TooLong(ip, host)
  {
    Connect(ip, host, port, AwaitMethod, Answer(ip, door, GREETING + EncodeRequest(ip, host, port)))
  }

  /**
   However many front doors lie between them, the client gets the outcome of the far end's dial, made
   for the canonical host and the 16-bit port, exactly when that code passes every door: its refusal,
   or a connection on which every byte the far end sends is still to be read.
   */
  lemma {:induction false} CodeIsTransparentIff(ip: IpText, door: Door, host: Bytes, port: int)
    requires ip.Lawful() && door.Genuine() && !TooLong(ip, host)
    ensures var far := door.Far(Canonical(ip, host), port % 0x10000);
      var run := ThroughChain(ip, door, host, port);
      match far
      case Ok(payload) => run.pc == Connected && run.rest == payload <==> door.Passes(SUCCEEDED)
      case Err(e) => run.pc == Failed(Code(ReplyCode(e))) <==> door.Passes(ReplyCode(e))
  {
    hide Connect, Dial, Said, DoorAttempt, Answer, EncodeRequest, ReplyCode;
    var h, p := Canonical(ip, host), port % 0x10000;
    CanonicalIsStable(ip, host);
    DoorOutcome(ip, door, h, p);
    DoorSays(ip, door, host, port);
    ClientHears(ip, host, port, Dial(ip, h, p, DoorAttempt(ip, door, h, p)), door.client);
  }

  /** A success passes exactly the prompt chains, and those pass every code. */
  lemma {:induction false} PromptPasses(door: Door, code: byte)
    requires door.Genuine()
    ensures door.Prompt() ==> door.Passes(code)
    ensures door.Passes(SUCCEEDED) ==> door.Prompt()
  {
    hide ReplyCode;
    if door.Through? {
      PromptPasses(door.next, code);
      ConnectErrorIsNotSuccess(ShortReply, door.io);
    }
  }

  /** When every door gets its reply out in time the client gets the far end's code, and all of its payload. */
  lemma {:induction false} CodeIsTransparent(ip: IpText, door: Door, host: Bytes, port: int)
    requires ip.Lawful() && door.Genuine() && !TooLong(ip, host) && door.Prompt()
    ensures var far := door.Far(Canonical(ip, host), port % 0x10000);
      var run := ThroughChain(ip, door, host, port);
      && run.pc == (if far.Ok? then Connected else Failed(Code(ReplyCode(far.error))))
      && (far.Ok? ==> run.rest == far.value)
  {
    hide ThroughChain, ReplyCode, Canonical;
    var far := door.Far(Canonical(ip, host), port % 0x10000);
    PromptPasses(door, CodeOf(far));
    CodeIsTransparentIff(ip, door, host, port);
  }

  // ---- On the clock ----

  /**
   The times of a chain whose connections last: a door accepts its client before it dials, and a dial
   through a door that is past its own deadline has not ended before that, so it ends past this one's.
   */
  predicate Nested(door: Door) {
    door.Through? ==>
      && (door.next.client.dialEnds >= HANDSHAKE_TIMEOUT ==> door.client.dialEnds >= HANDSHAKE_TIMEOUT)
      && Nested(door.next)
  }

  /** No door's dial ends past its client's deadline. */
  predicate InTime(door: Door) {
    door.client.dialEnds < HANDSHAKE_TIMEOUT && (door.Through? ==> InTime(door.next))
  }

  /** Every client's connection takes all that is written to it. */
  predicate Sound(door: Door) {
    door.client.room >= |ACCEPTANCE| + 10 && (door.Through? ==> Sound(door.next))
  }

  /**
   On the clock a code only ever passes doors that are in time, so a lost reply it gets past was lost to
   a broken connection; and with sound connections every code passes exactly if the first door is in time.
   */
  lemma {:induction false} PassesInTime(door: Door, code: byte)
    requires Nested(door)
    ensures door.client.dialEnds < HANDSHAKE_TIMEOUT ==> InTime(door)
    ensures door.Passes(code) ==> InTime(door)
    ensures Sound(door) ==> (door.Passes(code) <==> door.client.dialEnds < HANDSHAKE_TIMEOUT)
  {
    hide ReplyCode;
    if door.Through? {
      PassesInTime(door.next, code);
    }
  }

  /** Over sound connections the client gets the far end's outcome exactly when the first door's dial ends in time. */
  lemma {:induction false} OutcomeOnTheClock(ip: IpText, door: Door, host: Bytes, port: int)
    requires ip.Lawful() && door.Genuine() && !TooLong(ip, host) && Nested(door) && Sound(door)
    ensures var far := door.Far(Canonical(ip, host), port % 0x10000);
      var run := ThroughChain(ip, door, host, port);
      door.client.dialEnds < HANDSHAKE_TIMEOUT <==>
        match far
        case Ok(payload) => run.pc == Connected && run.rest == payload
        case Err(e) => run.pc == Failed(Code(ReplyCode(e)))
  {
    hide ThroughChain, ReplyCode, Canonical;
    PassesInTime(door, CodeOf(door.Far(Canonical(ip, host), port % 0x10000)));
    CodeIsTransparentIff(ip, door, host, port);
  }

  /**
   A door whose connection breaks is not always noticed: a lost reply is reported as a general failure,
   which may be what was lost.
   */
  lemma {:induction false} LostReplyCanAgree(client: Client, broken: Client, error: Chain)
    requires client.Left() >= 10 && broken.Left() == 0 && broken.dialEnds < HANDSHAKE_TIMEOUT
    ensures var door := Through(client, Down(broken, error), []);
      && Nested(door) && InTime(door) && !door.Prompt()
      && CodeOf(door.Far([], 0)) == GENERAL_FAILURE && door.Passes(GENERAL_FAILURE)
  {
    assert ([SocksLayer(GENERAL_FAILURE), OtherLayer] + error)[0] == SocksLayer(GENERAL_FAILURE);
    var short := ConnectChain(ShortReply, []);
    assert short == [OtherLayer] && FirstSocks(short[1..]).None? && FirstOp(short[1..]).None?;
    assert ReplyCode(short) == GENERAL_FAILURE;
  }

  /**
   A dial that fails by running into its own timeout, or into that of the tunnelled handshake, began
   after accept, so it ends past the deadline: its code never reaches the client.
   */
  lemma {:induction false} TimeoutIsNeverReported(ip: IpText, door: Door, host: Bytes, port: int, dialBegins: nat)
    requires ip.Lawful() && door.Genuine() && !TooLong(ip, host)
    requires var h, p := Canonical(ip, host), port % 0x10000; Dial(ip, h, p, DoorAttempt(ip, door, h, p)).Err?
    requires door.client.dialEnds >= dialBegins + DIAL_TIMEOUT
    ensures ThroughChain(ip, door, host, port).pc == Failed(ShortReply)
  {
    hide Connect, Said, EncodeRequest, ReplyCode, Answer, Dial, DoorAttempt;
    var h, p := Canonical(ip, host), port % 0x10000;
    CanonicalIsStable(ip, host);
    DoorOutcome(ip, door, h, p);
    DoorSays(ip, door, host, port);
    ClientHears(ip, host, port, Dial(ip, h, p, DoorAttempt(ip, door, h, p)), door.client);
  }

  /**
   Behind a success that comes too late the client reads the upstream's first bytes as the reply: an SSH
   banner as code 0x53.
   */
  lemma {:induction false} BannerReadAsReply(ip: IpText, host: Bytes, port: int, client: Client, more: Bytes)
    requires ip.Lawful() && !TooLong(ip, host) && client.room >= |ACCEPTANCE| && client.dialEnds >= HANDSHAKE_TIMEOUT
    ensures var banner := [0x53, 0x53, 0x48, 0x2d];  // "SSH-"
      ThroughChain(ip, Last(client, (h, p) => Ok(banner + more)), host, port).pc == Failed(Code(0x53))
  {
    hide Said, EncodeRequest, ReplyCode, Answer, Connect, Canonical, Dial, DoorAttempt;
    var upstream: Bytes := [0x53, 0x53, 0x48, 0x2d] + more;
    var door := Last(client, (h, p) => Ok(upstream));
    DoorSays(ip, door, host, port);
    LateSuccessSays(ip, door, Canonical(ip, host), port % 0x10000, upstream);
    AfterAcceptance(ip, host, port, upstream);
    BannerStep(ip, host, port, more);
  }

  /** A late success says nothing but what the upstream says. */
  lemma {:induction false} LateSuccessSays(ip: IpText, door: Door, host: Bytes, port: nat, upstream: Bytes)
    requires door.Last? && door.client.room >= |ACCEPTANCE| && door.client.dialEnds >= HANDSHAKE_TIMEOUT
    requires door.dial(host, port) == Ok(upstream)
    ensures Said(Dial(ip, host, port, DoorAttempt(ip, door, host, port)), door.client) == ACCEPTANCE + upstream
  {
    hide Answer;
    assert [] + upstream == upstream;
  }

  lemma {:induction false} BannerStep(ip: IpText, host: Bytes, port: int, more: Bytes)
    ensures Connect(ip, host, port, AwaitReply, [0x53, 0x53, 0x48, 0x2d] + more).pc == Failed(Code(0x53))
  {
    ConnectStep(ip, host, port, AwaitReply, [0x53, 0x53, 0x48, 0x2d], more);
  }

  // ---- The client's own bytes ----

  /** What reaches the far end of what the first door is sent: each live door relays what follows its request. */
  function Received(ip: IpText, door: Door, input: Bytes): Bytes
    decreases door
  {
    var run := Serve(ip, Hello, input);
    if !run.pc.Dialling? || door.client.room < |ACCEPTANCE| then []
    else if Dial(ip, run.pc.host, run.pc.port, DoorAttempt(ip, door, run.pc.host, run.pc.port)).Err? then []
    else if !door.Through? then run.rest
    else if TooLong(ip, run.pc.host) then []
    else Received(ip, door.next, GREETING + (EncodeRequest(ip, run.pc.host, run.pc.port) + run.rest))
  }

  /**
   Everything a client sends behind its request reaches the far end, in order and with nothing added, if
   the first door's dial succeeds, whether or not its reply gets out; and nothing does if it fails.
   */
  lemma {:induction false} ClientBytesArrive(ip: IpText, door: Door, host: Bytes, port: int, rest: Bytes)
    requires ip.Lawful() && door.Genuine() && !TooLong(ip, host)
    ensures var h, p := Canonical(ip, host), port % 0x10000;
      Received(ip, door, GREETING + (EncodeRequest(ip, host, port) + rest))
      == if door.client.room >= |ACCEPTANCE| && Dial(ip, h, p, DoorAttempt(ip, door, h, p)).Ok? then rest else []
    decreases door
  {
    hide Serve, Dial, DoorAttempt, EncodeRequest, Canonical, TooLong;
    var h, p := Canonical(ip, host), port % 0x10000;
    RequestRoundTrip(ip, host, port, rest);
    CanonicalIsStable(ip, host);
    if door.Through? {
      ClientBytesArrive(ip, door.next, h, p, rest);
      LiveAllTheWay(ip, door, h, p);
    }
  }

  /** A dial through a tunnel succeeds only if the next door's has, and got its acceptance out. */
  lemma {:induction false} LiveAllTheWay(ip: IpText, door: Door, host: Bytes, port: nat)
    requires ip.Lawful() && door.Genuine() && door.Through?
    requires !TooLong(ip, host) && Canonical(ip, host) == host && port < 0x10000
    ensures Dial(ip, host, port, DoorAttempt(ip, door, host, port)).Ok? ==>
      door.next.client.room >= |ACCEPTANCE| && Dial(ip, host, port, DoorAttempt(ip, door.next, host, port)).Ok?
  {
    hide Dial, Answer, Canonical, EncodeRequest, Said, ReplyCode, TooLong;
    var behind := Dial(ip, host, port, DoorAttempt(ip, door.next, host, port));
    DoorOutcome(ip, door.next, host, port);
    DoorSays(ip, door.next, host, port);
    TunnelDial(ip, host, port, behind, door.next.client, door.io);
    assert DoorAttempt(ip, door, host, port) == Tunnel(Said(behind, door.next.client), ROOM, door.io);
    if door.next.client.room < |ACCEPTANCE| {
      UnacceptedFails(ip, host, port, behind, door.next.client, door.io);
    }
  }

  lemma {:induction false} UnacceptedFails(ip: IpText, host: Bytes, port: nat,
      behind: Result<Bytes, Chain>, client: Client, io: Chain)
    requires client.room < |ACCEPTANCE|
    ensures Dial(ip, host, port, Tunnel(Said(behind, client), ROOM, io)).Err?
  {
    assert |Said(behind, client)| < 2;
    ConnectStops(ip, host, port, AwaitMethod, Said(behind, client));
    hide Connect, Said;
  }
}
