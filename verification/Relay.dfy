/**
 One proxied connection from its first byte to the end of `relay`: the buffered
 reader that may run ahead of the request, the reply, and the two copies.
 */
module Relay {
  import opened Socks
  import opened SocksIo

  datatype Phase = Copying | AtEnd | Broken

  /** One direction. Bytes leave `source` for `held` when read and `held` for `written` when written. */
  datatype Copy = Copy(
    source: Bytes,       // everything the sending peer has sent so far
    ended: bool,         // whether it has closed its sending half
    taken: nat,          // how much of it has been read off the socket
    held: Bytes,         // read but not yet written on
    window: nat,         // how much more the receiving peer takes before it reads on
    written: Bytes,      // written to the receiving peer by this copy
    phase: Phase,
    halfClosed: bool)    // whether the receiving peer's write half has been closed

  datatype Stage = Handshaking | Agreed | ToDial(host: Bytes, port: nat) | Rejected | Relaying | Returned

  datatype Session = Session(
    stage: Stage,
    expired: bool,       // the handshake deadline passed before it was lifted
    request: nat,        // length of the SOCKS request, once it has been read
    replied: nat,        // how much of the success reply went out
    up: Copy,            // client to upstream
    down: Copy,          // upstream to client
    toClient: Bytes)     // everything written to the client: SOCKS messages, then relayed bytes

  datatype Direction = Up | Down

  datatype Event =
    | PeerSends(d: Direction, bs: Bytes)
    | PeerEnds(d: Direction)
    | PeerReads(d: Direction, k: nat)  // the receiving peer makes room
    | Expires
    | Fill(d: Direction, k: nat)
    | GreetingRead(k: nat)             // k bytes of the acceptance go out; if not all, the handler returns
    | RequestRead
    | GivesUp                          // a bad or unfinished request, or the server is shutting down
    | DialEnds(code: byte, k: nat)     // k bytes of the reply go out; its write error is ignored
    | Write(d: Direction, k: nat)
    | WriteFails(d: Direction, k: nat)
    | ReadFails(d: Direction)
    | SeesEnd(d: Direction)
    | HalfClose(d: Direction)
    | Return
  {
    predicate OfCopy() { !Expires? && !GreetingRead? && !RequestRead? && !GivesUp? && !DialEnds? && !Return? }
  }

  function At(s: Session, d: Direction): Copy {
    if d.Up? then s.up else s.down
  }

  /** With the receive windows the upstream and the client start from. */
  function Start(upstream: nat, client: nat): Session {
    var idle := Copy([], false, 0, [], upstream, [], Copying, false);
    Session(Handshaking, false, 0, 0, idle, idle.(window := client), [])
  }

  /** A complete greeting that offers no-auth. */
  predicate HasGreeting(bs: Bytes) {
    |bs| >= 2 && bs[0] == VERSION && |bs[2..]| >= bs[1] && NO_AUTH in bs[2..][..bs[1]]
  }

  /** The request is complete in the reader's buffer, behind the greeting already answered. */
  predicate RequestHeld(ip: IpText, s: Session) {
    s.stage.Agreed? && Serve(ip, Hello, s.up.held).pc.Dialling?
  }

  /**
   Whether the server reads this direction's source now: for the request in time, then whenever a copy
   holds nothing.
   */
  predicate Reads(ip: IpText, s: Session, d: Direction) {
    if s.stage.Handshaking? then d.Up? && !s.expired && !HasGreeting(s.up.held)
    else if s.stage.Agreed? then d.Up? && !s.expired && !RequestHeld(ip, s)
    else s.stage.Relaying? && At(s, d).phase.Copying? && At(s, d).held == []
  }

  /** Whether the connection lets this step of a copy happen now. */
  predicate Allowed(ip: IpText, s: Session, e: Event)
    requires e.OfCopy()
  {
    match e
    case PeerSends(_, _) | PeerEnds(_) => e.d.Down? ==> s.stage.Relaying?
    case PeerReads(_, _) => true
    case Fill(d, _) => Reads(ip, s, d)
    case _ => s.stage.Relaying?
  }

  predicate CopyCan(c: Copy, e: Event)
    requires e.OfCopy()
  {
    match e
    case PeerSends(_, _) | PeerEnds(_) => !c.ended
    case PeerReads(_, _) => true
    case Fill(_, k) => c.phase.Copying? && 0 < k && c.taken + k <= |c.source|
    case Write(_, k) => c.phase.Copying? && 0 < k <= |c.held| && k <= c.window
    case WriteFails(_, k) => c.phase.Copying? && k < |c.held| && k <= c.window
    case ReadFails(_) => c.phase.Copying?
    case SeesEnd(_) => c.phase.Copying? && c.ended && c.taken == |c.source| && c.held == []
    case HalfClose(_) => !c.phase.Copying? && !c.halfClosed
  }

  function CopyStep(c: Copy, e: Event): Copy
    requires e.OfCopy() && CopyCan(c, e)
  {
    match e
    case PeerSends(_, bs) => c.(source := c.source + bs)
    case PeerEnds(_) => c.(ended := true)
    case PeerReads(_, k) => c.(window := c.window + k)
    case Fill(_, k) => c.(taken := c.taken + k, held := c.held + c.source[c.taken..c.taken + k])
    case Write(_, k) => Forward(c, k)
    case WriteFails(_, k) => Forward(c, k).(phase := Broken)
    case ReadFails(_) => c.(phase := Broken)
    case SeesEnd(_) => c.(phase := AtEnd)
    case HalfClose(_) => c.(halfClosed := true)
  }

  function Forward(c: Copy, k: nat): Copy
    requires k <= |c.held| && k <= c.window
  {
    c.(held := c.held[k..], window := c.window - k, written := c.written + c.held[..k])
  }

  predicate Enabled(ip: IpText, s: Session, e: Event) {
    match e
    case Expires | GivesUp => s.stage.Handshaking? || s.stage.Agreed? || s.stage.ToDial?
    case GreetingRead(k) =>
      s.stage.Handshaking? && HasGreeting(s.up.held) && k <= |ACCEPTANCE| && (s.expired ==> k == 0)
    case RequestRead => RequestHeld(ip, s)
    case DialEnds(code, k) => s.stage.ToDial? && k <= |Reply(code)| && (s.expired ==> k == 0)
    case Return => s.stage.Relaying? && s.up.halfClosed && s.down.halfClosed
    case _ => Allowed(ip, s, e) && CopyCan(At(s, e.d), e)
  }

  function Step(ip: IpText, s: Session, e: Event): Session
    requires Enabled(ip, s, e)
  {
    match e
    case Expires => s.(expired := true)
    case GreetingRead(k) =>
      s.(stage := if k == |ACCEPTANCE| then Agreed else Rejected, toClient := s.toClient + ACCEPTANCE[..k])
    case RequestRead =>
      var run := Serve(ip, Hello, s.up.held);
      s.(stage := ToDial(run.pc.host, run.pc.port),
         request := |s.up.held| - |run.rest|,
         up := s.up.(held := run.rest))
    case GivesUp => s.(stage := Rejected)
    case DialEnds(code, k) =>
      var t := s.(toClient := s.toClient + Reply(code)[..k]);
      if code == SUCCEEDED then t.(stage := Relaying, replied := k) else t.(stage := Rejected)
    case Return => s.(stage := Returned)
    case _ =>
      if e.d.Up? then s.(up := CopyStep(s.up, e))
      else s.(down := CopyStep(s.down, e), toClient := s.toClient + Carried(s.down, e))
  }

  /** What a step writes to the receiving peer. */
  function Carried(c: Copy, e: Event): Bytes
    requires e.OfCopy() && CopyCan(c, e)
  {
    if e.Write? || e.WriteFails? then c.held[..e.k] else []
  }

  predicate Run(ip: IpText, s: Session, es: seq<Event>)
    decreases |es|
  {
    es == [] || (Enabled(ip, s, es[0]) && Run(ip, Step(ip, s, es[0]), es[1..]))
  }

  function After(ip: IpText, s: Session, es: seq<Event>): Session
    requires Run(ip, s, es)
    decreases |es|
  {
    if es == [] then s else After(ip, Step(ip, s, es[0]), es[1..])
  }

  // ---- Invariant ----

  /** `skip` bytes of the source were consumed by the handshake; the rest is written, held or still to be read. */
  ghost predicate Conserved(c: Copy, skip: nat) {
    && skip <= c.taken <= |c.source|
    && c.source[skip..c.taken] == c.written + c.held
    && (c.phase.AtEnd? ==> c.ended && c.taken == |c.source| && c.held == [])
    && (c.halfClosed ==> !c.phase.Copying?)
  }

  /** What the client has been sent before the first relayed byte. */
  function Greeted(replied: nat): Bytes {
    ACCEPTANCE + Clip(Reply(SUCCEEDED), replied)
  }

  ghost predicate Inv(ip: IpText, s: Session) {
    && Conserved(s.up, s.request)
    && Conserved(s.down, 0)
    && (s.stage.Handshaking? || s.stage.Agreed? || s.stage.ToDial? || s.stage.Rejected? ==>
          s.up.written == [] && s.up.phase.Copying? && s.down.source == [])
    && match s.stage
       case Handshaking => s.request == 0 && s.toClient == []
       case Agreed => s.request == 0 && s.toClient == ACCEPTANCE
       case ToDial(host, port) =>
         s.toClient == ACCEPTANCE
         && Serve(ip, Hello, s.up.source[..s.request]) == ServerRun(Dialling(host, port), [], ACCEPTANCE)
       case Rejected => true
       case _ =>
         && s.toClient == Greeted(s.replied) + s.down.written && s.replied <= 10 && (s.expired ==> s.replied == 0)
         && RequestIs(ip, s)
         && (s.stage.Returned? ==> s.up.halfClosed && s.down.halfClosed)
  }

  /** The first `request` bytes are one whole request, nothing less and nothing more. */
  ghost predicate RequestIs(ip: IpText, s: Session)
    requires s.request <= |s.up.source|
  {
    var run := Serve(ip, Hello, s.up.source[..s.request]);
    run.pc.Dialling? && run.rest == []
  }

  /** The request read out of a buffer is a prefix of it, and reads the same on its own. */
  lemma {:induction false} ServeConsumes(ip: IpText, pc: ServerPc, input: Bytes) returns (used: Bytes)
    requires Serve(ip, pc, input).pc != Refused(Eof)
    ensures input == used + Serve(ip, pc, input).rest
    ensures Serve(ip, pc, used) == Serve(ip, pc, input).(rest := [])
    decreases pc.Rank()
  {
    hide Serve, ServerRead;
    FirstStep(ip, pc, input);
    if pc.Reading() {
      var head, tail := input[..pc.Need()], input[pc.Need()..];
      assert input == head + tail;
      ServeStep(ip, pc, head, tail);
      var rest := ServeConsumes(ip, ServerRead(ip, pc, head).0, tail);
      used := head + rest;
      ServeStep(ip, pc, head, rest);
    } else {
      used := [];
      FirstStep(ip, pc, []);
    }
  }

  /** The request taken off the front of the buffer. */
  lemma {:induction false} RequestTaken(c: Copy, used: Bytes, rest: Bytes)
    requires Conserved(c, 0) && c.written == [] && c.phase.Copying? && c.held == used + rest
    ensures Conserved(c.(held := rest), |used|) && c.source[..|used|] == used
  {
    assert c.source[0..c.taken] == used + rest;
    assert c.source[..|used|] == c.source[0..c.taken][..|used|];
    assert c.source[|used|..c.taken] == c.source[0..c.taken][|used|..] == [] + rest;
  }

  lemma {:induction false} RequestReadKeepsInv(ip: IpText, s: Session)
    requires Inv(ip, s) && Enabled(ip, s, RequestRead)
    ensures Inv(ip, Step(ip, s, RequestRead))
  {
    hide Serve, Conserved;
    var used := ServeConsumes(ip, Hello, s.up.held);
    ServeIsLegal(ip, s.up.held);
    RequestTaken(s.up, used, Serve(ip, Hello, s.up.held).rest);
    assert Step(ip, s, RequestRead).request == |used|;
  }

  /** A step of a copy keeps it conserved, and only ever adds to its source and to what it has written. */
  lemma {:induction false} CopyStepConserves(c: Copy, skip: nat, e: Event)
    requires Conserved(c, skip) && e.OfCopy() && CopyCan(c, e)
    ensures Conserved(CopyStep(c, e), skip)
    ensures c.source <= CopyStep(c, e).source && CopyStep(c, e).written == c.written + Carried(c, e)
  {
    hide Conserved;
    if e.PeerSends? {
      SendConserves(c, skip, e.bs);
    } else if e.Fill? {
      FillConserves(c, skip, e.k);
    } else if e.Write? {
      ForwardConserves(c, skip, e.k);
    } else if e.WriteFails? {
      ForwardConserves(c, skip, e.k);
      PhaseConserves(Forward(c, e.k), skip, CopyStep(c, e));
    } else {
      PhaseConserves(c, skip, CopyStep(c, e));
    }
  }

  lemma {:induction false} SendConserves(c: Copy, skip: nat, bs: Bytes)
    requires Conserved(c, skip) && !c.ended
    ensures Conserved(c.(source := c.source + bs), skip)
  {
    assert (c.source + bs)[skip..c.taken] == c.source[skip..c.taken];
  }

  lemma {:induction false} FillConserves(c: Copy, skip: nat, k: nat)
    requires Conserved(c, skip) && c.phase.Copying? && c.taken + k <= |c.source|
    ensures Conserved(c.(taken := c.taken + k, held := c.held + c.source[c.taken..c.taken + k]), skip)
  {
    assert c.source[skip..c.taken + k] == c.source[skip..c.taken] + c.source[c.taken..c.taken + k];
  }

  /** A change that moves no byte. */
  lemma PhaseConserves(c: Copy, skip: nat, c': Copy)
    requires Conserved(c, skip)
    requires c'.source == c.source && c'.taken == c.taken && c'.held == c.held && c'.written == c.written
    requires c'.phase == c.phase || c'.phase.Broken?
          || (c'.phase.AtEnd? && c'.ended && c.taken == |c.source| && c.held == [])
    requires (c.ended ==> c'.ended) && (c'.halfClosed ==> c.halfClosed || !c'.phase.Copying?)
    ensures Conserved(c', skip)
  {
  }

  lemma {:induction false} ForwardConserves(c: Copy, skip: nat, k: nat)
    requires Conserved(c, skip) && c.phase.Copying? && k <= |c.held| && k <= c.window
    ensures Conserved(Forward(c, k), skip)
  {
    assert c.held == c.held[..k] + c.held[k..];
  }

  lemma {:induction false} CopyStepKeepsInv(ip: IpText, s: Session, e: Event)
    requires Inv(ip, s) && Enabled(ip, s, e) && e.OfCopy()
    ensures Inv(ip, Step(ip, s, e))
  {
    hide Serve, CopyStep, CopyCan, Carried, Allowed, Conserved, Greeted;
    if !s.stage.Relaying? {
      OnlyPeersMove(ip, s, e);
    }
    var s' := Step(ip, s, e);
    if e.d.Up? {
      CopyStepConserves(s.up, s.request, e);
      RequestStays(ip, s, s');
    } else {
      CopyStepConserves(s.down, 0, e);
      var carried := Carried(s.down, e);
      var greeted := Greeted(s.replied);
      assert (greeted + s.down.written) + carried == greeted + (s.down.written + carried);
      assert s.toClient + [] == s.toClient;
    }
  }

  lemma RequestStays(ip: IpText, s: Session, s': Session)
    requires Conserved(s.up, s.request) && s.up.source <= s'.up.source && s'.request == s.request
    ensures s.request <= |s.up.source| && s'.up.source[..s.request] == s.up.source[..s.request]
  {
  }

  /** Outside a relay no copy writes or ends, and the upstream sends nothing before it. */
  lemma OnlyPeersMove(ip: IpText, s: Session, e: Event)
    requires e.OfCopy() && CopyCan(At(s, e.d), e) && Allowed(ip, s, e) && !s.stage.Relaying?
    ensures var c, c' := At(s, e.d), CopyStep(At(s, e.d), e);
      c'.written == c.written && c'.phase == c.phase && c'.halfClosed == c.halfClosed
      && Carried(c, e) == [] && (e.d.Down? ==> c'.source == c.source)
  {
    hide RequestHeld;
  }

  lemma {:induction false} StepKeepsInv(ip: IpText, s: Session, e: Event)
    requires Inv(ip, s) && Enabled(ip, s, e)
    ensures Inv(ip, Step(ip, s, e))
  {
    hide Serve, Conserved;
    match e
    case RequestRead => RequestReadKeepsInv(ip, s);
    case Expires =>
    case GivesUp =>
    case GreetingRead(k) => assert k == 2 ==> [] + ACCEPTANCE[..k] == ACCEPTANCE;
    case DialEnds(_, _) => DialKeepsInv(ip, s, e);
    case Return =>
    case _ => CopyStepKeepsInv(ip, s, e);
  }

  lemma {:induction false} DialKeepsInv(ip: IpText, s: Session, e: Event)
    requires Inv(ip, s) && Enabled(ip, s, e) && e.DialEnds?
    ensures Inv(ip, Step(ip, s, e))
  {
    hide Serve;
    assert s.down.written == [];
    assert Greeted(e.k) + [] == Greeted(e.k);
  }

  lemma {:induction false} InvAlways(ip: IpText, s: Session, es: seq<Event>)
    requires Inv(ip, s) && Run(ip, s, es)
    ensures Inv(ip, After(ip, s, es))
    decreases |es|
  {
    if es != [] {
      StepKeepsInv(ip, s, es[0]);
      InvAlways(ip, Step(ip, s, es[0]), es[1..]);
    }
  }

  // ---- Main results ----

  /** A direction's payload: all the upstream sends, and what the client sends after its request. */
  function Payload(s: Session, d: Direction): Bytes
    requires s.request <= |s.up.source|
  {
    if d.Up? then s.up.source[s.request..] else s.down.source
  }

  /**
   In every reachable relay the client's stream starts with exactly one request, and what has been
   written to either peer is a prefix of the other's payload, bytes sent early included. A direction
   that ends without an error has delivered everything, and only then (or after an error) is its
   peer's write half closed. relay returns only after both.
   */
  lemma {:induction false} RelayConserves(ip: IpText, upstream: nat, client: nat, es: seq<Event>)
    requires Run(ip, Start(upstream, client), es)
    requires var s := After(ip, Start(upstream, client), es); s.stage.Relaying? || s.stage.Returned?
    ensures var s := After(ip, Start(upstream, client), es);
      && s.request <= |s.up.source| && RequestIs(ip, s)
      && (forall d :: At(s, d).written <= Payload(s, d))
      && (forall d :: At(s, d).phase.AtEnd? ==> At(s, d).ended && At(s, d).written == Payload(s, d))
      && (forall d :: At(s, d).halfClosed ==> !At(s, d).phase.Copying?)
      && (s.stage.Returned? ==> s.up.halfClosed && s.down.halfClosed)
  {
    hide Serve, Run, After;
    InvAlways(ip, Start(upstream, client), es);
    var s := After(ip, Start(upstream, client), es);
    WrittenIsPrefix(s.up, s.request);
    WrittenIsPrefix(s.down, 0);
    assert s.down.source[0..] == s.down.source;
  }

  lemma {:induction false} WrittenIsPrefix(c: Copy, skip: nat)
    requires Conserved(c, skip)
    ensures c.written <= c.source[skip..]
    ensures c.phase.AtEnd? ==> c.written == c.source[skip..]
  {
    assert c.source[skip..] == c.source[skip..c.taken] + c.source[c.taken..];
    if c.phase.AtEnd? {
      assert c.written + c.held == c.written;
    }
  }

  /**
   The client is sent the acceptance, as much of the success reply as went out (nothing once the
   deadline had passed), and then the relayed bytes. So a completed relay has sent it the whole reply
   and then the whole payload exactly when the reply went out whole; a relay that follows a cut reply
   runs on all the same.
   */
  lemma {:induction false} ClientIsSent(ip: IpText, upstream: nat, client: nat, es: seq<Event>)
    requires Run(ip, Start(upstream, client), es)
    requires var s := After(ip, Start(upstream, client), es); s.stage.Relaying? || s.stage.Returned?
    ensures var s := After(ip, Start(upstream, client), es);
      && s.toClient == ACCEPTANCE + Clip(Reply(SUCCEEDED), s.replied) + s.down.written
      && s.replied <= 10 && (s.expired ==> s.replied == 0)
      && (s.replied == 10 ==> s.toClient <= ACCEPTANCE + Reply(SUCCEEDED) + s.down.source)
      && (s.down.phase.AtEnd? ==> (s.toClient == ACCEPTANCE + Reply(SUCCEEDED) + s.down.source <==> s.replied == 10))
  {
    hide Serve, Run, After;
    InvAlways(ip, Start(upstream, client), es);
    var s := After(ip, Start(upstream, client), es);
    WrittenIsPrefix(s.down, 0);
    assert s.down.source[0..] == s.down.source;
    hide Conserved, Inv;
    var head := ACCEPTANCE + Reply(SUCCEEDED);
    if s.replied == 10 {
      assert s.toClient == head + s.down.written;
      assert (head + s.down.source)[..|s.toClient|] == head + s.down.source[..|s.down.written|];
    } else {
      assert |s.toClient| == 2 + s.replied + |s.down.written|;
    }
  }

  lemma {:induction false} RunMore(ip: IpText, s: Session, es: seq<Event>, e: Event)
    requires Run(ip, s, es) && Enabled(ip, After(ip, s, es), e)
    ensures Run(ip, s, es + [e]) && After(ip, s, es + [e]) == Step(ip, After(ip, s, es), e)
    decreases |es|
  {
    hide Enabled, Step;
    if es == [] {
      assert es + [e] == [e];
    } else {
      assert (es + [e])[1..] == es[1..] + [e];
      RunMore(ip, Step(ip, s, es[0]), es[1..], e);
    }
  }

  /**
   That happens: after any request whose dial succeeds past the deadline, the upstream's first bytes
   stand where the reply should.
   */
  lemma {:induction false} RelayWithoutReply(ip: IpText, upstream: nat, client: nat, request: Bytes, banner: Bytes)
    returns (es: seq<Event>)
    requires Serve(ip, Hello, request).pc.Dialling? && 0 < |banner| <= client
    ensures Run(ip, Start(upstream, client), es) && After(ip, Start(upstream, client), es).stage.Relaying?
    ensures After(ip, Start(upstream, client), es).toClient == ACCEPTANCE + banner
  {
    hide Serve, Run, After;
    var s := Start(upstream, client);
    es := LateDial(ip, upstream, client, request);
    RunMore(ip, s, es, PeerSends(Down, banner));
    es := es + [PeerSends(Down, banner)];
    RunMore(ip, s, es, Fill(Down, |banner|));
    es := es + [Fill(Down, |banner|)];
    RunMore(ip, s, es, Write(Down, |banner|));
    es := es + [Write(Down, |banner|)];
  }

  lemma {:induction false} LateDial(ip: IpText, upstream: nat, client: nat, request: Bytes) returns (es: seq<Event>)
    requires Serve(ip, Hello, request).pc.Dialling?
    ensures Run(ip, Start(upstream, client), es)
    ensures var s := After(ip, Start(upstream, client), es);
      s.stage.Relaying? && s.toClient == ACCEPTANCE && s.down == Start(upstream, client).down
  {
    hide Serve, Run, After;
    var s := Start(upstream, client);
    es := RequestArrives(ip, upstream, client, request);
    RequestHasGreeting(ip, request);
    assert [] + ACCEPTANCE[..2] == ACCEPTANCE;
    RunMore(ip, s, es, GreetingRead(2));
    es := es + [GreetingRead(2)];
    RunMore(ip, s, es, RequestRead);
    es := es + [RequestRead];
    RunMore(ip, s, es, Expires);
    es := es + [Expires];
    RunMore(ip, s, es, DialEnds(SUCCEEDED, 0));
    es := es + [DialEnds(SUCCEEDED, 0)];
  }

  /** A whole request starts with such a greeting. */
  lemma {:induction false} RequestHasGreeting(ip: IpText, request: Bytes)
    requires Serve(ip, Hello, request).pc.Dialling?
    ensures HasGreeting(request)
  {
    var hello, a := FirstRead(ip, Hello, request);
    var methods, b := FirstRead(ip, Methods(hello[1]), a);
    assert request[..2] == hello && request[2..] == a && a[..hello[1]] == methods;
  }

  lemma {:induction false} RequestArrives(ip: IpText, upstream: nat, client: nat, request: Bytes)
    returns (es: seq<Event>)
    requires Serve(ip, Hello, request).pc.Dialling?
    ensures Run(ip, Start(upstream, client), es)
    ensures var s := After(ip, Start(upstream, client), es);
      && s.stage.Handshaking? && !s.expired && s.up.held == request
      && s.toClient == [] && s.down == Start(upstream, client).down
  {
    hide Serve, Run, After, Step, Enabled;
    var s := Start(upstream, client);
    EmptyRun(ip, s);
    var sends, fill := PeerSends(Up, request), Fill(Up, |request|);
    FirstSend(ip, s, request);
    RunMore(ip, s, [], sends);
    assert [] + [sends] == [sends];
    FirstFill(ip, Step(ip, s, sends), request);
    RunMore(ip, s, [sends], fill);
    es := [sends] + [fill];
  }

  lemma FirstSend(ip: IpText, s: Session, request: Bytes)
    requires s.stage.Handshaking? && s.up.source == [] && !s.up.ended
    ensures Enabled(ip, s, PeerSends(Up, request))
    ensures Step(ip, s, PeerSends(Up, request)) == s.(up := s.up.(source := request))
  {
    hide Serve;
    assert [] + request == request;
  }

  lemma FirstFill(ip: IpText, s: Session, request: Bytes)
    requires s.stage.Handshaking? && !s.expired && s.up.phase.Copying? && s.up.held == [] && s.up.taken == 0
    requires s.up.source == request && Serve(ip, Hello, request).pc.Dialling?
    ensures Enabled(ip, s, Fill(Up, |request|))
    ensures Step(ip, s, Fill(Up, |request|)) == s.(up := s.up.(taken := |request|, held := request))
  {
    hide Serve;
    RequestHasGreeting(ip, request);
    assert [] + request == request && request[0..|request|] == request;
  }

  lemma EmptyRun(ip: IpText, s: Session)
    ensures Run(ip, s, []) && After(ip, s, []) == s
  {
  }

  /** What is dialled does not depend on how the client's stream was cut up, nor on what follows the request. */
  lemma {:induction false} RequestIgnoresFragmentation(ip: IpText, upstream: nat, client: nat,
      es: seq<Event>, future: Bytes)
    requires Run(ip, Start(upstream, client), es) && After(ip, Start(upstream, client), es).stage.ToDial?
    ensures var s := After(ip, Start(upstream, client), es);
      Serve(ip, Hello, s.up.source + future).pc == Dialling(s.stage.host, s.stage.port)
  {
    hide Serve, Run, After;
    InvAlways(ip, Start(upstream, client), es);
    var s := After(ip, Start(upstream, client), es);
    var request, rest := s.up.source[..s.request], s.up.source[s.request..] + future;
    assert s.up.source + future == request + rest;
    ServeExtends(ip, Hello, request, rest);
  }

  /**
   However the client's request arrives, once it has all been sent the server can go on by itself, until
   the deadline: it reads more, answers the greeting, or has the request.
   */
  lemma {:induction false} WholeRequestIsRead(ip: IpText, upstream: nat, client: nat, es: seq<Event>)
    requires Run(ip, Start(upstream, client), es)
    requires var s := After(ip, Start(upstream, client), es);
      (s.stage.Handshaking? || s.stage.Agreed?) && !s.expired && Serve(ip, Hello, s.up.source).pc.Dialling?
    ensures var s := After(ip, Start(upstream, client), es);
      Enabled(ip, s, Fill(Up, 1)) || Enabled(ip, s, GreetingRead(2)) || Enabled(ip, s, RequestRead)
  {
    hide Serve, Run, After;
    InvAlways(ip, Start(upstream, client), es);
    var s := After(ip, Start(upstream, client), es);
    RequestHasGreeting(ip, s.up.source);
    assert s.up.written + s.up.held == s.up.held;
    if s.up.taken == |s.up.source| {
      assert s.up.source[0..s.up.taken] == s.up.source;
    }
  }

  /** The server's own next step in a direction, when there is one. */
  predicate CanAct(ip: IpText, s: Session, d: Direction) {
    || Enabled(ip, s, Write(d, 1))
    || Enabled(ip, s, Fill(d, 1))
    || Enabled(ip, s, SeesEnd(d))
    || Enabled(ip, s, HalfClose(d))
  }

  /** The sending peer is open, and all it has sent has been delivered. */
  predicate SenderIdle(s: Session, d: Direction)
    requires s.request <= |s.up.source|
  {
    At(s, d).phase.Copying? && !At(s, d).ended && At(s, d).written == Payload(s, d)
  }

  /** The receiving peer has stopped reading while there is something to write. */
  predicate ReceiverFull(s: Session, d: Direction) {
    At(s, d).phase.Copying? && At(s, d).held != [] && At(s, d).window == 0
  }

  /**
   A direction of a relay stands still exactly when it is over, its sender is open and has nothing
   undelivered, or its receiver does not read: there is no deadline that would end such a wait.
   */
  lemma {:induction false} RelayWaitsOnlyForPeers(ip: IpText, upstream: nat, client: nat, es: seq<Event>)
    requires Run(ip, Start(upstream, client), es) && After(ip, Start(upstream, client), es).stage.Relaying?
    ensures var s := After(ip, Start(upstream, client), es);
      && s.request <= |s.up.source|
      && (forall d :: !CanAct(ip, s, d) <==> At(s, d).halfClosed || SenderIdle(s, d) || ReceiverFull(s, d))
      && (Enabled(ip, s, Return) <==> forall d :: At(s, d).halfClosed)
  {
    hide Serve, Run, After;
    InvAlways(ip, Start(upstream, client), es);
    var s := After(ip, Start(upstream, client), es);
    assert s.down.source[0..] == s.down.source;
    forall d ensures !CanAct(ip, s, d) <==> At(s, d).halfClosed || SenderIdle(s, d) || ReceiverFull(s, d) {
      CopyWaits(ip, s, d, if d.Up? then s.request else 0);
    }
    assert At(s, Up) == s.up && At(s, Down) == s.down;
  }

  lemma {:induction false} CopyWaits(ip: IpText, s: Session, d: Direction, skip: nat)
    requires s.stage.Relaying? && Conserved(At(s, d), skip) && s.request <= |s.up.source|
    requires Payload(s, d) == At(s, d).source[skip..]
    ensures !CanAct(ip, s, d) <==> At(s, d).halfClosed || SenderIdle(s, d) || ReceiverFull(s, d)
  {
    hide RequestHeld, Payload;
    var c := At(s, d);
    Delivered(c, skip);
    assert c.halfClosed ==> !c.phase.Copying?;
    assert c.taken <= |c.source|;
    hide Conserved;
  }

  /** Everything has been written exactly when nothing is held and nothing is left to read. */
  lemma {:induction false} Delivered(c: Copy, skip: nat)
    requires Conserved(c, skip)
    ensures c.written == c.source[skip..] <==> c.held == [] && c.taken == |c.source|
  {
    assert c.source[skip..] == (c.written + c.held) + c.source[c.taken..];
    assert |c.source[skip..]| == |c.written| + |c.held| + (|c.source| - c.taken);
  }

  function CopyWork(c: Copy): int {
    2 * (|c.source| - c.taken) + |c.held| + (if c.phase.Copying? then 2 else if c.halfClosed then 0 else 1)
  }

  function Work(s: Session): int {
    CopyWork(s.up) + CopyWork(s.down) + (if s.stage.Returned? then 0 else 1)
  }

  /** Every step the relay takes by itself uses up work, so between two actions of the peers there are finitely many. */
  lemma {:induction false} RelayStepsUseWork(ip: IpText, upstream: nat, client: nat, es: seq<Event>, e: Event)
    requires Run(ip, Start(upstream, client), es) && After(ip, Start(upstream, client), es).stage.Relaying?
    requires Enabled(ip, After(ip, Start(upstream, client), es), e) && !e.PeerSends? && !e.PeerEnds? && !e.PeerReads?
    ensures var s := After(ip, Start(upstream, client), es); 0 <= Work(Step(ip, s, e)) < Work(s)
  {
    hide Serve, Run, After, Work, Step, Enabled;
    InvAlways(ip, Start(upstream, client), es);
    StepUsesWork(ip, After(ip, Start(upstream, client), es), e);
  }

  lemma {:induction false} StepUsesWork(ip: IpText, s: Session, e: Event)
    requires Inv(ip, s) && s.stage.Relaying?
    requires Enabled(ip, s, e) && !e.PeerSends? && !e.PeerEnds? && !e.PeerReads?
    ensures 0 <= Work(Step(ip, s, e)) < Work(s)
  {
    hide Serve, CopyStep, CopyCan, Carried, CopyWork, Conserved, Allowed;
    WorkIsPositive(s.up, s.request);
    WorkIsPositive(s.down, 0);
    if e.OfCopy() {
      CopyStepUsesWork(At(s, e.d), if e.d.Up? then s.request else 0, e);
    }
  }

  lemma WorkIsPositive(c: Copy, skip: nat)
    requires Conserved(c, skip)
    ensures CopyWork(c) >= 0
  {
  }

  lemma {:induction false} CopyStepUsesWork(c: Copy, skip: nat, e: Event)
    requires Conserved(c, skip) && e.OfCopy() && CopyCan(c, e) && !e.PeerSends? && !e.PeerEnds? && !e.PeerReads?
    ensures 0 <= CopyWork(CopyStep(c, e)) < CopyWork(c)
  {
  }

  // ---- One copy loop, as io.Copy runs it ----

  /** Moves the stream over in arbitrary chunks until it ends or the destination fails. */
  method CopyAll(dst: Writer, src: Reader) returns (clean: bool)
    modifies dst, src
    ensures dst.sent == old(dst.sent) + Clip(old(src.pending), old(dst.room))
    ensures clean <==> |old(src.pending)| <= old(dst.room)
    ensures clean ==> src.pending == []
  {
    ghost var all, sent, room := src.pending, dst.sent, dst.room;
    clean := true;
    while clean && src.pending != []
      invariant clean ==> Rest(sent, all, room, dst.sent, src.pending, dst.room)
      invariant !clean ==> |all| > room && dst.sent == sent + Clip(all, room)
      decreases clean, |src.pending|
    {
      var k: nat :| 0 < k <= |src.pending|;
      ghost var before := dst.sent;
      var _, chunk := src.ReadFull(k);
      ClipTwice(before, chunk, src.pending, dst.room);
      clean := dst.Write(chunk);
    }
  }

  /** `sent0` plus what fits of `all` is what `sent` will be once what fits of `pending` has been added. */
  ghost predicate Rest(sent0: Bytes, all: Bytes, room0: nat, sent: Bytes, pending: Bytes, room: nat) {
    && sent + Clip(pending, room) == sent0 + Clip(all, room0)
    && (|pending| <= room <==> |all| <= room0)
  }
}
