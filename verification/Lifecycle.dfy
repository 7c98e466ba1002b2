/**
 The life of a proxy.Server: the accept loop, its handlers and Shutdown, as
 goroutines whose steps interleave in any order. Every section under the
 server's lock is one step, and so is every other access to shared state.
 */
module Lifecycle {

  type Conn = nat

  // ---- Shared state and its atomic sections ----

  datatype Shared = Shared(
    listening: bool,
    closed: bool,
    conns: set<Conn>,   // tracked connections
    open: set<Conn>,    // connections this process has open
    wg: int)            // the WaitGroup's counter

  function Tracked(sh: Shared, c: Conn): Shared {
    if sh.closed then sh else sh.(conns := sh.conns + {c})
  }

  function Untracked(sh: Shared, c: Conn): Shared {
    sh.(conns := sh.conns - {c})
  }

  function Closed(sh: Shared, c: Conn): Shared {
    sh.(open := sh.open - {c})
  }

  function Opened(sh: Shared, c: Conn): Shared {
    sh.(open := sh.open + {c})
  }

  /** Shutdown's locked section. */
  function ShutDown(sh: Shared): Shared {
    sh.(closed := true, listening := false, open := sh.open - sh.conns)
  }

  // ---- Goroutines ----

  datatype ServePc =
    | Accepting
    | Tracking(c: Conn)    // accepted, before track
    | Adding(c: Conn)      // tracked, before wg.Add
    | Spawning(c: Conn)    // counted, before go
    | Rejecting(c: Conn)   // track refused, before Close
    | Leaving              // before the deferred wg.Done
    | Gone

  datatype HandlerPc =
    | Handshake(c: Conn)
    | Dialling(c: Conn)
    | Connecting(c: Conn, u: Conn)    // socksConnect on the tunnel's connection
    | TrackingUp(c: Conn, u: Conn)
    | RejectingUp(c: Conn, u: Conn)
    | Relaying(c: Conn, u: Conn)
    | ForgettingUp(c: Conn, u: Conn)  // deferred untrack(upstream): its locked section
    | ClosingUp(c: Conn, u: Conn)     // and its Close
    | Forgetting(c: Conn)             // deferred untrack(conn)
    | ClosingClient(c: Conn)
    | Finishing                       // before the deferred wg.Done
    | Ended

  datatype ShutdownPc = NotCalled | Waiting | ReturnedNil | ReturnedError

  /** The goroutine responsible for a connection. */
  datatype Owner = ServeLoop | Handler(h: nat)

  datatype State = State(
    sh: Shared,
    serve: ServePc,
    handlers: seq<HandlerPc>,
    shutdown: ShutdownPc,
    owner: map<Conn, Owner>)  // every connection ever accepted or dialled

  /** As Start leaves it: listening, with the accept loop counted and running. */
  function Start(): State {
    State(Shared(true, false, {}, {}, 1), Accepting, [], NotCalled, map[])
  }

  datatype Event =
    | Accept(c: Conn)
    | AcceptFails
    | AcceptClosed
    | ServeTracks
    | ServeAdds
    | ServeSpawns
    | ServeRejects
    | ServeDone
    | RequestRead(h: nat)
    | RequestFails(h: nat)
    | DialFails(h: nat)
    | DialsDirect(h: nat, u: Conn)
    | DialsTunnel(h: nat, u: Conn)
    | ConnectDone(h: nat)
    | ConnectFails(h: nat)
    | TracksUp(h: nat)
    | RejectsUp(h: nat)
    | RelayEnds(h: nat)
    | ForgetsUp(h: nat)
    | ClosesUp(h: nat)
    | Forgets(h: nat)
    | ClosesClient(h: nat)
    | HandlerDone(h: nat)
    | ShutdownBegins
    | ShutdownReturns
    | ShutdownExpires
  {
    predicate OfServe() {
      Accept? || AcceptFails? || AcceptClosed? || ServeTracks? || ServeAdds? || ServeSpawns? || ServeRejects?
      || ServeDone?
    }

    predicate OfShutdown() { ShutdownBegins? || ShutdownReturns? || ShutdownExpires? }
  }

  predicate Enabled(s: State, e: Event) {
    match e
    case Accept(c) => s.serve.Accepting? && s.sh.listening && c !in s.owner
    case AcceptFails => s.serve.Accepting? && s.sh.listening
    case AcceptClosed => s.serve.Accepting? && !s.sh.listening
    case ServeTracks => s.serve.Tracking?
    case ServeAdds => s.serve.Adding?
    case ServeSpawns => s.serve.Spawning?
    case ServeRejects => s.serve.Rejecting?
    case ServeDone => s.serve.Leaving?
    case RequestRead(h) => h < |s.handlers| && s.handlers[h].Handshake?
    case RequestFails(h) => h < |s.handlers| && s.handlers[h].Handshake?
    case DialFails(h) => h < |s.handlers| && s.handlers[h].Dialling?
    case DialsDirect(h, u) => h < |s.handlers| && s.handlers[h].Dialling? && u !in s.owner
    case DialsTunnel(h, u) => h < |s.handlers| && s.handlers[h].Dialling? && u !in s.owner
    case ConnectDone(h) => h < |s.handlers| && s.handlers[h].Connecting?
    case ConnectFails(h) => h < |s.handlers| && s.handlers[h].Connecting?
    case TracksUp(h) => h < |s.handlers| && s.handlers[h].TrackingUp?
    case RejectsUp(h) => h < |s.handlers| && s.handlers[h].RejectingUp?
    case RelayEnds(h) => h < |s.handlers| && s.handlers[h].Relaying?
    case ForgetsUp(h) => h < |s.handlers| && s.handlers[h].ForgettingUp?
    case ClosesUp(h) => h < |s.handlers| && s.handlers[h].ClosingUp?
    case Forgets(h) => h < |s.handlers| && s.handlers[h].Forgetting?
    case ClosesClient(h) => h < |s.handlers| && s.handlers[h].ClosingClient?
    case HandlerDone(h) => h < |s.handlers| && s.handlers[h].Finishing?
    case ShutdownBegins => s.shutdown.NotCalled?
    case ShutdownReturns => s.shutdown.Waiting? && s.sh.wg == 0
    case ShutdownExpires => s.shutdown.Waiting?
  }

  function ServeStep(s: State, e: Event): State
    requires e.OfServe() && Enabled(s, e)
  {
    match e
    case Accept(c) => s.(serve := Tracking(c), sh := Opened(s.sh, c), owner := s.owner[c := ServeLoop])
    case AcceptFails => s
    case AcceptClosed => s.(serve := Leaving)
    case ServeTracks =>
      var c := s.serve.c;
      s.(serve := if s.sh.closed then Rejecting(c) else Adding(c), sh := Tracked(s.sh, c))
    case ServeAdds => s.(serve := Spawning(s.serve.c), sh := s.sh.(wg := s.sh.wg + 1))
    case ServeSpawns =>
      var c := s.serve.c;
      s.(serve := Accepting, handlers := s.handlers + [Handshake(c)], owner := s.owner[c := Handler(|s.handlers|)])
    case ServeRejects => s.(serve := Leaving, sh := Closed(s.sh, s.serve.c))
    case ServeDone => s.(serve := Gone, sh := s.sh.(wg := s.sh.wg - 1))
  }

  /** A handler's step: the shared state and the handler's own next program counter. */
  function HandlerStep(s: State, e: Event): (Shared, HandlerPc)
    requires !e.OfServe() && !e.OfShutdown() && Enabled(s, e)
  {
    var sh, pc := s.sh, s.handlers[e.h];
    match e
    case RequestRead(_) => (sh, Dialling(pc.c))
    case RequestFails(_) => (sh, Forgetting(pc.c))
    case DialFails(_) => (sh, Forgetting(pc.c))
    case DialsDirect(_, u) => (Opened(sh, u), TrackingUp(pc.c, u))
    case DialsTunnel(_, u) => (Opened(sh, u), Connecting(pc.c, u))
    case ConnectDone(_) => (sh, TrackingUp(pc.c, pc.u))
    case ConnectFails(_) => (Closed(sh, pc.u), Forgetting(pc.c))
    case TracksUp(_) => (Tracked(sh, pc.u), if sh.closed then RejectingUp(pc.c, pc.u) else Relaying(pc.c, pc.u))
    case RejectsUp(_) => (Closed(sh, pc.u), Forgetting(pc.c))
    case RelayEnds(_) => (sh, ForgettingUp(pc.c, pc.u))
    case ForgetsUp(_) => (Untracked(sh, pc.u), ClosingUp(pc.c, pc.u))
    case ClosesUp(_) => (Closed(sh, pc.u), Forgetting(pc.c))
    case Forgets(_) => (Untracked(sh, pc.c), ClosingClient(pc.c))
    case ClosesClient(_) => (Closed(sh, pc.c), Finishing)
    case HandlerDone(_) => (sh.(wg := sh.wg - 1), Ended)
  }

  function Step(s: State, e: Event): State
    requires Enabled(s, e)
  {
    if e.OfServe() then ServeStep(s, e)
    else if e.ShutdownBegins? then s.(sh := ShutDown(s.sh), shutdown := Waiting)
    else if e.ShutdownReturns? then s.(shutdown := ReturnedNil)
    else if e.ShutdownExpires? then s.(shutdown := ReturnedError)
    else
      var (sh, pc) := HandlerStep(s, e);
      s.(sh := sh, handlers := s.handlers[e.h := pc],
         owner := if e.DialsDirect? || e.DialsTunnel? then s.owner[e.u := Handler(e.h)] else s.owner)
  }

  predicate Run(s: State, es: seq<Event>)
    decreases |es|
  {
    es == [] || (Enabled(s, es[0]) && Run(Step(s, es[0]), es[1..]))
  }

  function After(s: State, es: seq<Event>): State
    requires Run(s, es)
    decreases |es|
  {
    if es == [] then s else After(Step(s, es[0]), es[1..])
  }

  // ---- Ownership ----

  /** The connections a goroutine still has to close. */
  function ServeHolds(pc: ServePc): set<Conn> {
    if pc.Tracking? || pc.Adding? || pc.Spawning? || pc.Rejecting? then {pc.c} else {}
  }

  function ServeTracked(pc: ServePc): set<Conn> {
    if pc.Adding? || pc.Spawning? then {pc.c} else {}
  }

  function HandlerHolds(pc: HandlerPc): set<Conn> {
    match pc
    case Handshake(c) => {c}
    case Dialling(c) => {c}
    case Connecting(c, u) => {c, u}
    case TrackingUp(c, u) => {c, u}
    case RejectingUp(c, u) => {c, u}
    case Relaying(c, u) => {c, u}
    case ForgettingUp(c, u) => {c, u}
    case ClosingUp(c, u) => {c, u}
    case Forgetting(c) => {c}
    case ClosingClient(c) => {c}
    case Finishing => {}
    case Ended => {}
  }

  function HandlerTracked(pc: HandlerPc): set<Conn> {
    match pc
    case Relaying(c, u) => {c, u}
    case ForgettingUp(c, u) => {c, u}
    case ClosingClient(_) => {}
    case Finishing => {}
    case Ended => {}
    case _ => {pc.c}
  }

  predicate Distinct(pc: HandlerPc) {
    (pc.Connecting? || pc.TrackingUp? || pc.RejectingUp? || pc.Relaying? || pc.ForgettingUp? || pc.ClosingUp?) ==>
      pc.c != pc.u
  }

  function Holds(s: State, o: Owner): set<Conn> {
    match o
    case ServeLoop => ServeHolds(s.serve)
    case Handler(h) => if h < |s.handlers| then HandlerHolds(s.handlers[h]) else {}
  }

  function Tracks(s: State, o: Owner): set<Conn> {
    match o
    case ServeLoop => ServeTracked(s.serve)
    case Handler(h) => if h < |s.handlers| then HandlerTracked(s.handlers[h]) else {}
  }

  /** Every tracked or open connection has a goroutine responsible for it. */
  ghost predicate Covered(s: State) {
    && (forall x :: x in s.sh.conns ==> x in s.owner && x in Tracks(s, s.owner[x]))
    && (forall x :: x in s.sh.open ==> x in s.owner && x in Holds(s, s.owner[x]))
  }

  /** Only that goroutine tracks it or will close it. */
  ghost predicate Exclusive(s: State) {
    && (forall o: Owner, x :: x in Holds(s, o) ==> x in s.owner && s.owner[x] == o)
    && (forall o: Owner, x :: x in Tracks(s, o) ==> x in s.sh.conns && x in Holds(s, o))
    && (forall h :: 0 <= h < |s.handlers| ==> Distinct(s.handlers[h]))
  }

  ghost predicate Owned(s: State) {
    Covered(s) && Exclusive(s)
  }

  // ---- The WaitGroup ----

  function Alive(pc: HandlerPc): nat { if pc.Ended? then 0 else 1 }

  function Rank(pc: HandlerPc): nat {
    match pc
    case Handshake(_) => 12
    case Dialling(_) => 11
    case Connecting(_, _) => 10
    case TrackingUp(_, _) => 9
    case Relaying(_, _) => 8
    case ForgettingUp(_, _) => 7
    case ClosingUp(_, _) => 6
    case RejectingUp(_, _) => 6
    case Forgetting(_) => 4
    case ClosingClient(_) => 3
    case Finishing => 2
    case Ended => 0
  }

  function Sum(f: HandlerPc -> nat, hs: seq<HandlerPc>): nat {
    if hs == [] then 0 else Sum(f, hs[..|hs| - 1]) + f(hs[|hs| - 1])
  }

  lemma {:induction false} SumUpdate(f: HandlerPc -> nat, hs: seq<HandlerPc>, i: nat, pc: HandlerPc)
    requires i < |hs|
    ensures Sum(f, hs[i := pc]) + f(hs[i]) == Sum(f, hs) + f(pc)
  {
    var n := |hs| - 1;
    if i == n {
      assert hs[i := pc][..n] == hs[..n];
    } else {
      assert hs[i := pc][..n] == hs[..n][i := pc];
      SumUpdate(f, hs[..n], i, pc);
    }
  }

  lemma SumAppend(f: HandlerPc -> nat, hs: seq<HandlerPc>, pc: HandlerPc)
    ensures Sum(f, hs + [pc]) == Sum(f, hs) + f(pc)
  {
    assert (hs + [pc])[..|hs|] == hs;
  }

  lemma {:induction false} SumZero(hs: seq<HandlerPc>)
    ensures Sum(Alive, hs) == 0 <==> forall h :: 0 <= h < |hs| ==> hs[h].Ended?
  {
    if hs != [] {
      var n := |hs| - 1;
      SumZero(hs[..n]);
      if forall h :: 0 <= h < n ==> hs[..n][h].Ended? {
        assert forall h :: 0 <= h < n ==> hs[h] == hs[..n][h];
      } else {
        var h :| 0 <= h < n && !hs[..n][h].Ended?;
        assert !hs[h].Ended?;
      }
    }
  }

  /** Goroutines the WaitGroup stands for: the accept loop, a counted handler about to be started, the live handlers. */
  function Live(s: State): nat {
    (if s.serve.Gone? then 0 else 1) + (if s.serve.Spawning? then 1 else 0) + Sum(Alive, s.handlers)
  }

  ghost predicate Inv(s: State) {
    && Owned(s)
    && s.sh.wg == Live(s)
    && (s.sh.closed ==> !s.sh.listening && s.sh.conns !! s.sh.open)
    && (s.sh.closed <==> !s.shutdown.NotCalled?)
    && (s.shutdown.ReturnedNil? ==> s.sh.wg == 0)
    && (s.serve.Leaving? || s.serve.Rejecting? || s.serve.Gone? ==> s.sh.closed)
    && (!s.sh.closed ==> s.sh.listening)
  }

  // ---- Preservation ----

  function Assigned(owner: map<Conn, Owner>, gained: set<Conn>, h: nat): map<Conn, Owner> {
    owner + map x | x in gained :: Handler(h)
  }

  /** A handler's step gains only `gained`, and gives up every connection it no longer names. */
  ghost predicate OwnStep(s: State, h: nat, sh: Shared, pc: HandlerPc, gained: set<Conn>)
    requires h < |s.handlers|
  {
    var was := s.handlers[h];
    && Distinct(pc)
    && (forall u :: u in gained ==> u !in s.owner)
    && HandlerHolds(pc) <= HandlerHolds(was) + gained
    && HandlerTracked(pc) <= HandlerHolds(pc)
    && gained <= HandlerHolds(pc)
    && sh.conns == s.sh.conns - HandlerTracked(was) + HandlerTracked(pc)
    && sh.open <= s.sh.open - (HandlerHolds(was) - HandlerHolds(pc)) + gained
  }

  function Moved(s: State, h: nat, sh: Shared, pc: HandlerPc, gained: set<Conn>): State
    requires h < |s.handlers|
  {
    s.(sh := sh, handlers := s.handlers[h := pc], owner := Assigned(s.owner, gained, h))
  }

  lemma {:induction false} OwnStepKeepsCovered(s: State, h: nat, sh: Shared, pc: HandlerPc, gained: set<Conn>)
    requires Owned(s) && h < |s.handlers| && OwnStep(s, h, sh, pc, gained)
    ensures Covered(Moved(s, h, sh, pc, gained))
  {
    var s' := Moved(s, h, sh, pc, gained);
    assert Tracks(s, Handler(h)) == HandlerTracked(s.handlers[h]);
    assert Holds(s, Handler(h)) == HandlerHolds(s.handlers[h]);
    forall x | x in sh.conns ensures x in s'.owner && x in Tracks(s', s'.owner[x]) {
      if x !in HandlerTracked(pc) {
        assert x in s.sh.conns && s.owner[x] != Handler(h);
      }
    }
    forall x | x in sh.open ensures x in s'.owner && x in Holds(s', s'.owner[x]) {
      if x !in gained {
        assert x in s.sh.open;
      }
    }
  }

  lemma {:induction false} OwnStepKeepsExclusive(s: State, h: nat, sh: Shared, pc: HandlerPc, gained: set<Conn>)
    requires Owned(s) && h < |s.handlers| && OwnStep(s, h, sh, pc, gained)
    ensures Exclusive(Moved(s, h, sh, pc, gained))
  {
    hide Covered;
    var s' := Moved(s, h, sh, pc, gained);
    var was := s.handlers[h];
    assert Tracks(s, Handler(h)) == HandlerTracked(was) && Holds(s, Handler(h)) == HandlerHolds(was);
    forall o: Owner, x | x in Holds(s', o) ensures x in s'.owner && s'.owner[x] == o {
      if o != Handler(h) {
        assert x in Holds(s, o);
      }
    }
    forall o: Owner, x | x in Tracks(s', o) ensures x in sh.conns && x in Holds(s', o) {
      if o != Handler(h) {
        assert x in Tracks(s, o) && x in Holds(s, o);
        assert s.owner[x] == o && x in s.sh.conns;
        assert x in HandlerTracked(was) ==> x in Tracks(s, Handler(h)) && x in Holds(s, Handler(h));
      }
    }
  }

  lemma {:induction false} HandlerStepKeepsOwned(s: State, e: Event)
    requires Owned(s) && Enabled(s, e) && !e.OfServe() && !e.OfShutdown()
    ensures Owned(Step(s, e))
  {
    var (sh, pc) := HandlerStep(s, e);
    var gained := if e.DialsDirect? || e.DialsTunnel? then {e.u} else {};
    StepIsOwn(s, e);
    OwnStepKeepsCovered(s, e.h, sh, pc, gained);
    OwnStepKeepsExclusive(s, e.h, sh, pc, gained);
    assert Step(s, e) == Moved(s, e.h, sh, pc, gained);
  }

  lemma {:induction false} StepIsOwn(s: State, e: Event)
    requires Owned(s) && Enabled(s, e) && !e.OfServe() && !e.OfShutdown()
    ensures var (sh, pc) := HandlerStep(s, e);
            OwnStep(s, e.h, sh, pc, if e.DialsDirect? || e.DialsTunnel? then {e.u} else {})
  {
    hide Covered;
    assert Holds(s, Handler(e.h)) == HandlerHolds(s.handlers[e.h]);
    assert Tracks(s, Handler(e.h)) == HandlerTracked(s.handlers[e.h]);
  }

  lemma {:induction false} SpawnKeepsOwned(s: State)
    requires Owned(s) && s.serve.Spawning?
    ensures Owned(Step(s, ServeSpawns))
  {
    var s' := Step(s, ServeSpawns);
    var n := |s.handlers|;
    assert Holds(s, ServeLoop) == {s.serve.c} && Tracks(s, ServeLoop) == {s.serve.c};
    assert Holds(s', Handler(n)) == {s.serve.c} && Tracks(s', Handler(n)) == {s.serve.c};
    forall o: Owner, x | x in Holds(s', o) ensures x in s'.owner && s'.owner[x] == o {
      if o.Handler? && o.h != n {
        assert Holds(s', o) == Holds(s, o);
        assert x in Holds(s, o) && s.owner[x] == o;
        assert s.serve.c in Holds(s, ServeLoop);
        assert x != s.serve.c;
      }
    }
    forall o: Owner, x | x in Tracks(s', o) ensures x in s'.sh.conns && x in Holds(s', o) {
      if o != Handler(n) {
        assert x in Tracks(s, o);
      }
    }
  }

  lemma {:induction false} ServeStepKeepsOwned(s: State, e: Event)
    requires Owned(s) && Enabled(s, e) && e.OfServe() && !e.ServeSpawns?
    ensures Owned(Step(s, e))
  {
    var s' := Step(s, e);
    assert Holds(s, ServeLoop) == ServeHolds(s.serve) && Tracks(s, ServeLoop) == ServeTracked(s.serve);
    assert forall h: nat ::
             Holds(s', Handler(h)) == Holds(s, Handler(h)) && Tracks(s', Handler(h)) == Tracks(s, Handler(h));
  }

  lemma {:induction false} ShutdownStepKeepsOwned(s: State, e: Event)
    requires Owned(s) && Enabled(s, e) && e.OfShutdown()
    ensures Owned(Step(s, e))
  {
    var s' := Step(s, e);
    assert forall o: Owner :: Holds(s', o) == Holds(s, o) && Tracks(s', o) == Tracks(s, o);
  }

  lemma {:induction false} StepKeepsCount(s: State, e: Event)
    requires Inv(s) && Enabled(s, e)
    ensures Step(s, e).sh.wg == Live(Step(s, e))
  {
    hide Owned, Sum;
    if e.ServeSpawns? {
      SumAppend(Alive, s.handlers, Handshake(s.serve.c));
    } else if !e.OfServe() && !e.OfShutdown() {
      SumUpdate(Alive, s.handlers, e.h, HandlerStep(s, e).1);
    }
  }

  /**
   After Shutdown's locked section nothing tracked is open, and nothing is tracked or listening any more
   than it was.
   */
  lemma {:induction false} StepKeepsClosed(s: State, e: Event)
    requires Inv(s) && Enabled(s, e)
    ensures var sh := Step(s, e).sh; sh.closed ==> !sh.listening && sh.conns !! sh.open
  {
    if s.sh.closed && (e.DialsDirect? || e.DialsTunnel?) {
      assert e.u !in s.sh.conns;
    }
  }

  lemma {:induction false} StepKeepsInv(s: State, e: Event)
    requires Inv(s) && Enabled(s, e)
    ensures Inv(Step(s, e))
  {
    if e.ServeSpawns? {
      SpawnKeepsOwned(s);
    } else if e.OfServe() {
      ServeStepKeepsOwned(s, e);
    } else if e.OfShutdown() {
      ShutdownStepKeepsOwned(s, e);
    } else {
      HandlerStepKeepsOwned(s, e);
    }
    StepKeepsCount(s, e);
    StepKeepsClosed(s, e);
    hide Owned;
    if s.shutdown.ReturnedNil? {
      SumZero(s.handlers);
    }
  }

  lemma {:induction false} InvAlways(s: State, es: seq<Event>)
    requires Inv(s) && Run(s, es)
    ensures Inv(After(s, es))
    decreases |es|
  {
    if es != [] {
      StepKeepsInv(s, es[0]);
      InvAlways(Step(s, es[0]), es[1..]);
    }
  }

  lemma {:induction false} Reached(es: seq<Event>)
    requires Run(Start(), es)
    ensures Inv(After(Start(), es))
  {
    assert Inv(Start());
    InvAlways(Start(), es);
  }

  // ---- Main results ----

  /** When Shutdown returns nil every goroutine has ended, nothing is tracked and every connection is closed. */
  lemma {:induction false} ShutdownLeavesNothing(es: seq<Event>)
    requires Run(Start(), es) && After(Start(), es).shutdown.ReturnedNil?
    ensures var s := After(Start(), es);
      && s.serve.Gone? && (forall h :: 0 <= h < |s.handlers| ==> s.handlers[h].Ended?)
      && s.sh.conns == {} && s.sh.open == {} && !s.sh.listening
  {
    Reached(es);
    hide Run, After;
    var s := After(Start(), es);
    SumZero(s.handlers);
    assert forall o: Owner :: Holds(s, o) == {} && Tracks(s, o) == {};
    assert forall x :: x !in s.sh.conns && x !in s.sh.open;
  }

  /** The counter always stands for the live goroutines: it is never raised from zero and never goes below it. */
  lemma {:induction false} WaitGroupIsSound(es: seq<Event>, e: Event)
    requires Run(Start(), es) && Enabled(After(Start(), es), e)
    ensures var s := After(Start(), es);
      && s.sh.wg == Live(s)
      && (e.ServeAdds? || e.ServeDone? || e.HandlerDone? ==> s.sh.wg > 0)
  {
    Reached(es);
    hide Run, After, Owned, Step;
    var s := After(Start(), es);
    if e.HandlerDone? {
      SumZero(s.handlers);
    }
  }

  /** Once Shutdown has taken the lock, no connection becomes tracked and no tracked connection is open. */
  lemma {:induction false} NothingJoinsAfterShutdown(es: seq<Event>, e: Event)
    requires Run(Start(), es) && After(Start(), es).sh.closed && Enabled(After(Start(), es), e)
    ensures var s := After(Start(), es);
      Step(s, e).sh.closed && Step(s, e).sh.conns <= s.sh.conns && s.sh.conns !! s.sh.open
  {
    Reached(es);
  }

  /**
   Steps that need nothing from a peer: code that never blocks, reads on closed connections, dials
   running into their deadline.
   */
  predicate Unaided(s: State, e: Event) {
    && Enabled(s, e)
    && !e.Accept? && !e.AcceptFails? && !e.RequestRead? && !e.DialsDirect? && !e.DialsTunnel? && !e.ConnectDone?
    && !e.ShutdownBegins? && !e.ShutdownExpires?
    && (e.RequestFails? ==> s.handlers[e.h].c !in s.sh.open)
    && (e.RelayEnds? ==> s.handlers[e.h].c !in s.sh.open && s.handlers[e.h].u !in s.sh.open)
  }

  /** A handler's unaided step, when it has not ended. */
  function NextOf(pc: HandlerPc, h: nat): Event {
    match pc
    case Handshake(_) => RequestFails(h)
    case Dialling(_) => DialFails(h)
    case Connecting(_, _) => ConnectFails(h)
    case TrackingUp(_, _) => TracksUp(h)
    case RejectingUp(_, _) => RejectsUp(h)
    case Relaying(_, _) => RelayEnds(h)
    case ForgettingUp(_, _) => ForgetsUp(h)
    case ClosingUp(_, _) => ClosesUp(h)
    case Forgetting(_) => Forgets(h)
    case ClosingClient(_) => ClosesClient(h)
    case _ => HandlerDone(h)
  }

  function NextOfServe(pc: ServePc): Event {
    match pc
    case Accepting => AcceptClosed
    case Tracking(_) => ServeTracks
    case Adding(_) => ServeAdds
    case Spawning(_) => ServeSpawns
    case Rejecting(_) => ServeRejects
    case _ => ServeDone
  }

  lemma {:induction false} HandlerCanMove(s: State, h: nat)
    requires Inv(s) && s.sh.closed && h < |s.handlers| && !s.handlers[h].Ended?
    ensures Unaided(s, NextOf(s.handlers[h], h))
  {
    hide Live, Covered;
    assert Tracks(s, Handler(h)) == HandlerTracked(s.handlers[h]);
  }

  /**
   After Shutdown has taken the lock some goroutine can always move without any peer, until Shutdown can
   return nil.
   */
  lemma {:induction false} ShutdownIsNeverStuck(es: seq<Event>) returns (e: Event)
    requires Run(Start(), es) && After(Start(), es).shutdown.Waiting?
    ensures Unaided(After(Start(), es), e)
  {
    hide Run, After, Owned;
    Reached(es);
    var s := After(Start(), es);
    SumZero(s.handlers);
    if !s.serve.Gone? {
      e := NextOfServe(s.serve);
    } else if h: nat :| h < |s.handlers| && !s.handlers[h].Ended? {
      e := NextOf(s.handlers[h], h);
      HandlerCanMove(s, h);
    } else {
      e := ShutdownReturns;
    }
  }

  function ServeRank(pc: ServePc): nat {
    match pc
    case Adding(_) => 18
    case Spawning(_) => 17
    case Accepting => 4
    case Tracking(_) => 3
    case Rejecting(_) => 2
    case Leaving => 1
    case Gone => 0
  }

  function Work(s: State): nat {
    ServeRank(s.serve) + Sum(Rank, s.handlers) + (if s.shutdown.Waiting? then 1 else 0)
  }

  lemma {:induction false} HandlerAdvances(s: State, e: Event)
    requires Enabled(s, e) && !e.OfServe() && !e.OfShutdown()
    ensures Rank(HandlerStep(s, e).1) < Rank(s.handlers[e.h])
  {
  }

  lemma {:induction false} StepUsesWork(s: State, e: Event)
    requires Inv(s) && s.sh.closed && Enabled(s, e)
    ensures Work(Step(s, e)) < Work(s)
  {
    hide Owned, Live, Rank, HandlerStep;
    if e.ServeSpawns? {
      SumAppend(Rank, s.handlers, Handshake(s.serve.c));
      assert Rank(Handshake(s.serve.c)) == 12 by { SpawnRank(s.serve.c); }
    } else if !e.OfServe() && !e.OfShutdown() {
      HandlerAdvances(s, e);
      SumUpdate(Rank, s.handlers, e.h, HandlerStep(s, e).1);
    }
  }

  lemma SpawnRank(c: Conn)
    ensures Rank(Handshake(c)) == 12
  {
  }

  /**
   And all of it is over after finitely many steps, whatever the schedule: with ShutdownIsNeverStuck,
   Shutdown returns nil unless its context expires first.
   */
  lemma {:induction false} ShutdownTerminates(s: State, es: seq<Event>)
    requires Inv(s) && s.sh.closed && Run(s, es)
    ensures |es| <= Work(s)
    decreases |es|
  {
    if es != [] {
      StepUsesWork(s, es[0]);
      StepKeepsInv(s, es[0]);
      ShutdownTerminates(Step(s, es[0]), es[1..]);
    }
  }

  // ---- And while nobody has called Shutdown ----

  /** The accept loop's steps from an accepted connection back to Accept. */
  function ServeLeft(pc: ServePc): nat {
    match pc
    case Accepting => 0
    case Tracking(_) => 3
    case Adding(_) => 2
    case Spawning(_) => 1
    case _ => 4
  }

  /**
   Until Shutdown the accept loop goes on: it is at Accept, ready for any new connection, or has one step,
   always possible, that brings it nearer to it; and the last of these starts the handler of the connection
   it accepted, which is open and tracked. No other goroutine's step moves it.
   */
  lemma {:induction false} AcceptLoopGoesOn(es: seq<Event>, e: Event)
    requires Run(Start(), es) && !After(Start(), es).sh.closed && Enabled(After(Start(), es), e)
    ensures var s := After(Start(), es);
      && (s.serve.Accepting? ==> s.sh.listening && forall c: Conn :: c !in s.owner ==> Enabled(s, Accept(c)))
      && (e.Accept? ==> Step(s, e).serve == Tracking(e.c) && e.c in Step(s, e).sh.open)
      && (!s.serve.Accepting? ==> ServeLeft(s.serve) <= 3 && Enabled(s, NextOfServe(s.serve)))
      && (!s.serve.Accepting? && e.OfServe() ==>
            ServeLeft(Step(s, e).serve) == ServeLeft(s.serve) - 1
            && (if Step(s, e).serve.Accepting? then Step(s, e).handlers == s.handlers + [Handshake(s.serve.c)]
                else Step(s, e).serve.c == s.serve.c && Step(s, e).handlers == s.handlers))
      && (!e.OfServe() ==> Step(s, e).serve == s.serve)
      && (s.serve.Spawning? ==> s.serve.c in s.sh.open && s.serve.c in s.sh.conns)
  {
    hide Run, After, Live;
    Reached(es);
    var s := After(Start(), es);
    assert Tracks(s, ServeLoop) == ServeTracked(s.serve) && Holds(s, ServeLoop) == ServeHolds(s.serve);
    OpenWhileServing(es);
  }

  /** Before Shutdown a connection is open from Accept, or the end of its dial, until its goroutine closes it. */
  ghost predicate HeldIsOpen(s: State) {
    forall o: Owner, x :: x in Holds(s, o) ==> x in s.sh.open
  }

  lemma {:induction false} StepKeepsOpen(s: State, e: Event)
    requires Inv(s) && HeldIsOpen(s) && Enabled(s, e) && !Step(s, e).sh.closed
    ensures HeldIsOpen(Step(s, e))
  {
    hide Live, Covered;
    var s' := Step(s, e);
    if !e.OfServe() && !e.OfShutdown() {
      HandlerKeepsOpen(s, e);
    } else {
      forall o: Owner, x | x in Holds(s', o) ensures x in s'.sh.open {
        if o == Handler(|s.handlers|) || o.ServeLoop? {
          assert x in Holds(s, ServeLoop) || (e.Accept? && x == e.c);
        } else {
          assert x in Holds(s, o);
        }
      }
    }
  }

  lemma {:induction false} HandlerKeepsOpen(s: State, e: Event)
    requires Inv(s) && HeldIsOpen(s) && Enabled(s, e) && !e.OfServe() && !e.OfShutdown()
    ensures HeldIsOpen(Step(s, e))
  {
    hide Live, Covered;
    var s', was := Step(s, e), s.handlers[e.h];
    var pc := HandlerStep(s, e).1;
    assert Holds(s, Handler(e.h)) == HandlerHolds(was) && Holds(s', Handler(e.h)) == HandlerHolds(pc);
    assert forall y :: y in HandlerHolds(was) ==> y in s.sh.open && s.owner[y] == Handler(e.h);
    forall o: Owner, x | x in Holds(s', o) ensures x in s'.sh.open {
      if o != Handler(e.h) {
        assert x in Holds(s, o) && s.owner[x] == o;
      }
    }
  }

  lemma {:induction false} RunSplitsLast(s: State, es: seq<Event>, e: Event)
    requires Run(s, es + [e])
    ensures Run(s, es) && Enabled(After(s, es), e) && After(s, es + [e]) == Step(After(s, es), e)
    decreases |es|
  {
    if es == [] {
      assert es + [e] == [e];
    } else {
      assert (es + [e])[1..] == es[1..] + [e];
      RunSplitsLast(Step(s, es[0]), es[1..], e);
    }
  }

  lemma {:induction false} OpenWhileServing(es: seq<Event>)
    requires Run(Start(), es) && !After(Start(), es).sh.closed
    ensures HeldIsOpen(After(Start(), es))
    decreases |es|
  {
    if es != [] {
      var n := |es| - 1;
      assert es == es[..n] + [es[n]];
      RunSplitsLast(Start(), es[..n], es[n]);
      var s := After(Start(), es[..n]);
      if s.sh.closed {
        ClosedStays(s, es[n]);
      }
      OpenWhileServing(es[..n]);
      Reached(es[..n]);
      StepKeepsOpen(s, es[n]);
    }
  }

  lemma ClosedStays(s: State, e: Event)
    requires Enabled(s, e) && s.sh.closed
    ensures Step(s, e).sh.closed
  {
  }

  /**
   Until Shutdown a handler whose client sends its request and whose dial succeeds, directly or through a
   tunnel, relays between the two, with both of them tracked and open.
   */
  lemma {:induction false} RequestsAreRelayed(es: seq<Event>, h: nat, u: Conn, tunnel: bool) returns (more: seq<Event>)
    requires Run(Start(), es)
    requires var s := After(Start(), es);
      !s.sh.closed && h < |s.handlers| && s.handlers[h].Handshake? && u !in s.owner
    ensures more == if tunnel then [RequestRead(h), DialsTunnel(h, u), ConnectDone(h), TracksUp(h)]
                    else [RequestRead(h), DialsDirect(h, u), TracksUp(h)]
    ensures Run(After(Start(), es), more)
    ensures var s, t := After(Start(), es), After(After(Start(), es), more);
      && |t.handlers| == |s.handlers| && t.handlers[h] == Relaying(s.handlers[h].c, u)
      && {s.handlers[h].c, u} <= t.sh.conns * t.sh.open
  {
    hide Run, After, Live, Covered;
    Reached(es);
    OpenWhileServing(es);
    var s := After(Start(), es);
    var c := s.handlers[h].c;
    assert c in HandlerTracked(s.handlers[h]) && Tracks(s, Handler(h)) == HandlerTracked(s.handlers[h]);
    assert c in Holds(s, Handler(h));
    more := if tunnel then [RequestRead(h), DialsTunnel(h, u), ConnectDone(h), TracksUp(h)]
            else [RequestRead(h), DialsDirect(h, u), TracksUp(h)];
    RelayIsReached(s, h, c, u, tunnel);
  }

  /** `s` with handler h elsewhere, and `u` opened by it. */
  function Dialled(s: State, h: nat, u: Conn, pc: HandlerPc): State
    requires h < |s.handlers|
  {
    s.(handlers := s.handlers[h := pc], sh := Opened(s.sh, u), owner := s.owner[u := Handler(h)])
  }

  lemma {:induction false} RelayIsReached(s: State, h: nat, c: Conn, u: Conn, tunnel: bool)
    requires !s.sh.closed && h < |s.handlers| && s.handlers[h] == Handshake(c) && u !in s.owner
    ensures var more := if tunnel then [RequestRead(h), DialsTunnel(h, u), ConnectDone(h), TracksUp(h)]
                        else [RequestRead(h), DialsDirect(h, u), TracksUp(h)];
      && Run(s, more)
      && var d := Dialled(s, h, u, Relaying(c, u)); After(s, more) == d.(sh := Tracked(d.sh, u))
  {
    var s1 := Step(s, RequestRead(h));
    var hs := s.handlers;
    assert s1 == s.(handlers := hs[h := Dialling(c)]);
    var ready := Dialled(s, h, u, TrackingUp(c, u));
    var connecting := Dialled(s, h, u, Connecting(c, u));
    assert hs[h := Dialling(c)][h := TrackingUp(c, u)] == hs[h := TrackingUp(c, u)];
    assert hs[h := Dialling(c)][h := Connecting(c, u)] == hs[h := Connecting(c, u)];
    assert hs[h := Connecting(c, u)][h := TrackingUp(c, u)] == hs[h := TrackingUp(c, u)];
    assert hs[h := TrackingUp(c, u)][h := Relaying(c, u)] == hs[h := Relaying(c, u)];
    if tunnel {
      assert Step(s1, DialsTunnel(h, u)) == connecting && Step(connecting, ConnectDone(h)) == ready;
      FourSteps(s, RequestRead(h), DialsTunnel(h, u), ConnectDone(h), TracksUp(h));
    } else {
      assert Step(s1, DialsDirect(h, u)) == ready;
      ThreeSteps(s, RequestRead(h), DialsDirect(h, u), TracksUp(h));
    }
  }

  /** One more event in front of a run. */
  lemma First(s: State, e: Event, rest: seq<Event>)
    requires Enabled(s, e) && Run(Step(s, e), rest)
    ensures Run(s, [e] + rest) && After(s, [e] + rest) == After(Step(s, e), rest)
  {
    hide Enabled, Step;
    assert ([e] + rest)[1..] == rest;
  }

  lemma ThreeSteps(s: State, a: Event, b: Event, c: Event)
    requires Enabled(s, a) && Enabled(Step(s, a), b) && Enabled(Step(Step(s, a), b), c)
    ensures Run(s, [a, b, c]) && After(s, [a, b, c]) == Step(Step(Step(s, a), b), c)
  {
    hide Enabled, Step;
    First(Step(Step(s, a), b), c, []);
    First(Step(s, a), b, [c] + []);
    First(s, a, [b] + ([c] + []));
    assert [a] + ([b] + ([c] + [])) == [a, b, c];
  }

  lemma FourSteps(s: State, a: Event, b: Event, c: Event, d: Event)
    requires Enabled(s, a) && Enabled(Step(s, a), b) && Enabled(Step(Step(s, a), b), c)
    requires Enabled(Step(Step(Step(s, a), b), c), d)
    ensures Run(s, [a, b, c, d]) && After(s, [a, b, c, d]) == Step(Step(Step(Step(s, a), b), c), d)
  {
    hide Enabled, Step;
    ThreeSteps(Step(s, a), b, c, d);
    First(s, a, [b, c, d]);
    assert [a] + [b, c, d] == [a, b, c, d];
  }

  // ---- The server object ----

  /**
   The fields of Server, and the descriptors the process has open. Each method is one or two of the
   atomic sections above.
   */
  class Server {
    var listening: bool
    var closed: bool
    var conns: set<Conn>
    var open: set<Conn>
    var wg: int

    function View(): Shared
      reads this
    {
      Shared(listening, closed, conns, open, wg)
    }

    /** NewServer and a successful Start. */
    constructor ()
      ensures View() == Start().sh
    {
      listening, closed, conns, open, wg := true, false, {}, {}, 1;
    }

    method Track(c: Conn) returns (ok: bool)
      modifies this
      ensures View() == Tracked(old(View()), c)
      ensures ok == !old(closed)
    {
      if closed {
        return false;
      }
      conns := conns + {c};
      return true;
    }

    method Untrack(c: Conn)
      modifies this
      ensures View() == Closed(Untracked(old(View()), c), c)
    {
      conns := conns - {c};
      open := open - {c};
    }

    /** Shutdown up to the point where it releases the lock. */
    method BeginShutdown()
      modifies this
      ensures View() == ShutDown(old(View()))
    {
      closed := true;
      listening := false;
      var todo := conns;
      while todo != {}
        invariant todo <= conns == old(conns)
        invariant open == old(open) - (conns - todo)
        invariant closed && !listening && wg == old(wg)
        decreases todo
      {
        var c :| c in todo;
        open := open - {c};
        todo := todo - {c};
      }
    }
  }
}
