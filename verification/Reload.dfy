/** daemon.Run: one runOnce at a time, replaced when a changed configuration loads. */
module Reload {

  /** Which contents of the configuration file were loaded. */
  type Config = nat

  /** A runOnce goroutine: running, running with its context cancelled, returned with its error in errCh, received. */
  datatype Once = Live | Cancelled | Exited | Received

  datatype Generation = Generation(cfg: Config, status: Once)

  datatype RunPc =
    | Selecting
    | Draining(next: Config)   // reload accepted: cancelled, waiting for errCh
    | Stopping                 // ctx is done: cancelled, waiting for errCh
    | Returned

  /** `interrupted` is that of the context Run was given, from which every runOnce's is derived. */
  datatype State = State(pc: RunPc, runs: seq<Generation>, loaded: Config, interrupted: bool)

  datatype Event =
    | Interrupt          // a signal cancels the daemon's context
    | OnceFails          // runOnce returns a fatal startup error
    | OnceWindsDown      // a runOnce whose context is done returns
    | ReloadLoads(cfg: Config)
    | ReloadFails
    | ReceivesError      // case err := <-errCh
    | ContextDone        // case <-ctx.Done()
    | Drained            // <-errCh after a cancel
  {
    /** Steps of Run and its runOnce that no one else has to ask for. */
    predicate Own() { OnceWindsDown? || ReceivesError? || ContextDone? || Drained? }
  }

  function Start(cfg: Config): State {
    State(Selecting, [Generation(cfg, Live)], cfg, false)
  }

  function Newest(s: State): Generation
    requires s.runs != []
  {
    s.runs[|s.runs| - 1]
  }

  function With(s: State, status: Once): State
    requires s.runs != []
  {
    s.(runs := s.runs[|s.runs| - 1 := Newest(s).(status := status)])
  }

  /** cancel() stops a live runOnce; one that has already returned is only waiting to be received. */
  function Cancel(s: State): State
    requires s.runs != []
  {
    if Newest(s).status.Live? then With(s, Cancelled) else s
  }

  predicate HasReturned(g: Generation) { g.status.Exited? || g.status.Received? }

  predicate Enabled(s: State, e: Event) {
    && s.runs != []
    && match e
       case Interrupt => !s.interrupted
       case OnceFails => Newest(s).status.Live?
       case OnceWindsDown => Newest(s).status.Cancelled? || (Newest(s).status.Live? && s.interrupted)
       case ReloadLoads(_) => s.pc.Selecting?
       case ReloadFails => s.pc.Selecting?
       case ContextDone => s.pc.Selecting? && s.interrupted
       case ReceivesError => s.pc.Selecting? && Newest(s).status.Exited?
       case Drained => (s.pc.Draining? || s.pc.Stopping?) && Newest(s).status.Exited?
  }

  function Step(s: State, e: Event): State
    requires Enabled(s, e)
  {
    match e
    case Interrupt => s.(interrupted := true)
    case OnceFails => With(s, Exited)
    case OnceWindsDown => With(s, Exited)
    case ReloadLoads(cfg) => Cancel(s).(pc := Draining(cfg), loaded := cfg)
    case ReloadFails => s
    case ContextDone => Cancel(s).(pc := Stopping)
    case ReceivesError => With(s, Received).(pc := Returned)
    case Drained =>
      var t := With(s, Received);
      if s.pc.Stopping? then t.(pc := Returned)
      else t.(pc := Selecting, runs := t.runs + [Generation(s.pc.next, Live)])
  }

  predicate Run(s: State, es: seq<Event>)
    decreases |es|
  {
    es == [] || (Enabled(s, es[0]) && Run(Step(s, es[0]), es[1..]))
  }

  function After(s: State, es: seq<Event>): State
    requires Run(s, es)
    decreases |es|
  {
    if es == [] then s else After(Step(s, es[0]), es[1..])
  }

  /** The configuration of the last reload that loaded, or the one before any. */
  function LastLoaded(first: Config, es: seq<Event>): Config
    decreases |es|
  {
    if es == [] then first
    else LastLoaded(if es[0].ReloadLoads? then es[0].cfg else first, es[1..])
  }

  ghost predicate Inv(s: State) {
    && s.runs != []
    && (forall i :: 0 <= i < |s.runs| - 1 ==> HasReturned(s.runs[i]))
    && (s.pc.Draining? ==> s.pc.next == s.loaded)
    && (s.pc.Draining? || s.pc.Stopping? ==> Newest(s).status.Cancelled? || Newest(s).status.Exited?)
    && (s.pc.Selecting? ==> Newest(s).cfg == s.loaded && (Newest(s).status.Live? || Newest(s).status.Exited?))
    && (s.pc.Returned? ==> Newest(s).status.Received?)
  }

  lemma {:induction false} InvAlways(s: State, es: seq<Event>)
    requires Inv(s) && Run(s, es)
    ensures Inv(After(s, es)) && After(s, es).loaded == LastLoaded(s.loaded, es)
    decreases |es|
  {
    if es != [] {
      InvAlways(Step(s, es[0]), es[1..]);
    }
  }

  lemma {:induction false} RunJoins(s: State, a: seq<Event>, b: seq<Event>)
    requires Run(s, a + b)
    ensures Run(s, a) && Run(After(s, a), b) && After(s, a + b) == After(After(s, a), b)
    decreases |a|
  {
    if a == [] {
      assert a + b == b;
    } else {
      assert (a + b)[1..] == a[1..] + b;
      RunJoins(Step(s, a[0]), a[1..], b);
    }
  }

  /**
   In every run of the daemon: only the newest runOnce can be running; while reloads are being waited
   for it runs the configuration loaded last; and when Run has returned, none is running.
   */
  lemma {:induction false} RunsLastKnownGood(first: Config, es: seq<Event>)
    requires Run(Start(first), es)
    ensures var s := After(Start(first), es);
      && s.runs != []
      && (forall i :: 0 <= i < |s.runs| - 1 ==> HasReturned(s.runs[i]))
      && (s.pc.Selecting? ==> Newest(s).cfg == LastLoaded(first, es))
      && (s.pc.Returned? ==> HasReturned(Newest(s)))
  {
    InvAlways(Start(first), es);
  }

  /** A runOnce is started only after every earlier one has returned, and a load that fails changes nothing. */
  lemma {:induction false} RestartsOnlyAfterReturn(first: Config, es: seq<Event>, e: Event)
    requires Run(Start(first), es) && Enabled(After(Start(first), es), e)
    ensures var s := After(Start(first), es);
      && (|Step(s, e).runs| > |s.runs| ==>
            (forall i :: 0 <= i < |s.runs| ==> HasReturned(s.runs[i]))
            && Newest(Step(s, e)) == Generation(LastLoaded(first, es), Live))
      && (e.ReloadFails? ==> Step(s, e) == s)
  {
    InvAlways(Start(first), es);
  }

  // ---- What Run comes to ----

  /** Own steps left until Run has returned, or has started the configuration it is draining for. */
  function StepsLeft(s: State): nat
    requires s.runs != []
  {
    match s.pc
    case Returned => 0
    case Selecting => 0
    case _ => if Newest(s).status.Exited? then 1 else 2
  }

  /** Once Run stops it stays so: no runOnce is started, and it has returned when its own steps are used up. */
  lemma {:induction false} StoppingStays(s: State, es: seq<Event>)
    requires Inv(s) && (s.pc.Stopping? || s.pc.Returned?) && Run(s, es)
    ensures var t := After(s, es);
      && Inv(t) && (t.pc.Stopping? || t.pc.Returned?) && |t.runs| == |s.runs|
      && CountOwn(es) + StepsLeft(t) == StepsLeft(s)
    decreases |es|
  {
    if es != [] {
      StoppingStays(Step(s, es[0]), es[1..]);
    }
  }

  function CountOwn(es: seq<Event>): nat {
    if es == [] then 0 else (if es[0].Own() then 1 else 0) + CountOwn(es[1..])
  }

  /**
   Run answers its context being done by stopping for good: in no run is a runOnce started after it, one
   of at most two steps of its own is always possible until it has returned, and after two it has.
   */
  lemma {:induction false} CancellationEndsRun(first: Config, before: seq<Event>, after: seq<Event>)
    requires Run(Start(first), before + [ContextDone] + after)
    ensures Run(Start(first), before)
    ensures var s := After(Start(first), before + [ContextDone] + after);
      && |s.runs| == |After(Start(first), before).runs|
      && CountOwn(after) <= 2
      && (s.pc.Returned? || exists e: Event :: e.Own() && Enabled(s, e))
      && (CountOwn(after) == 2 ==> s.pc.Returned?)
  {
    StopsFor(first, before, ContextDone, after);
  }

  lemma {:induction false} StopsFor(first: Config, before: seq<Event>, e: Event, after: seq<Event>)
    requires (e.ContextDone? || e.ReceivesError?) && Run(Start(first), before + [e] + after)
    ensures Run(Start(first), before) && Enabled(After(Start(first), before), e)
    ensures var s, t := After(Start(first), before), After(Start(first), before + [e] + after);
      && |t.runs| == |s.runs| && Inv(t)
      && CountOwn(after) + StepsLeft(t) == StepsLeft(Step(s, e)) <= 2
      && (t.pc.Returned? || exists o: Event :: o.Own() && Enabled(t, o))
      && (StepsLeft(t) == 0 ==> t.pc.Returned?)
      && (e.ReceivesError? ==> t.pc.Returned?)
  {
    RunJoins(Start(first), before + [e], after);
    RunJoins(Start(first), before, [e]);
    var s := After(Start(first), before);
    InvAlways(Start(first), before);
    assert After(s, [e]) == Step(s, e);
    InvAlways(s, [e]);
    StoppingStays(Step(s, e), after);
    var t := After(Start(first), before + [e] + after);
    if !t.pc.Returned? {
      var o := if Newest(t).status.Exited? then Drained else OnceWindsDown;
      assert o.Own() && Enabled(t, o);
    }
  }

  /** A runOnce that returns of itself ends Run at once, and for good. */
  lemma {:induction false} StartupErrorEndsRun(first: Config, before: seq<Event>, after: seq<Event>)
    requires Run(Start(first), before + [ReceivesError] + after)
    ensures Run(Start(first), before)
    ensures var s := After(Start(first), before + [ReceivesError] + after);
      s.pc.Returned? && |s.runs| == |After(Start(first), before).runs|
  {
    StopsFor(first, before, ReceivesError, after);
  }

  /** While a reload drains, only its own steps move Run. */
  lemma {:induction false} DrainingGoesOn(s: State, es: seq<Event>)
    requires Inv(s) && s.pc.Draining? && Run(s, es) && Drained !in es
    ensures var t := After(s, es);
      && Inv(t) && t.pc == s.pc && |t.runs| == |s.runs| && CountOwn(es) + StepsLeft(t) == StepsLeft(s)
    decreases |es|
  {
    if es != [] {
      DrainingGoesOn(Step(s, es[0]), es[1..]);
    }
  }

  /**
   A reload that loads reaches its configuration: whatever happens meanwhile, one of at most two own
   steps is possible, and the one that receives the old runOnce leaves a live one on the new configuration.
   */
  lemma {:induction false} ReloadReachesItsConfig(first: Config, before: seq<Event>, cfg: Config, meanwhile: seq<Event>)
    requires Run(Start(first), before + [ReloadLoads(cfg)] + meanwhile) && Drained !in meanwhile
    ensures Run(Start(first), before)
    ensures var s := After(Start(first), before + [ReloadLoads(cfg)] + meanwhile);
      && CountOwn(meanwhile) <= 1
      && (exists e: Event :: e.Own() && Enabled(s, e))
      && (forall e: Event :: e.Own() && Enabled(s, e) && !e.Drained? ==> e.OnceWindsDown? && CountOwn(meanwhile) == 0)
      && (Enabled(s, Drained) ==>
            var t := Step(s, Drained);
            && t.pc.Selecting? && Newest(t) == Generation(cfg, Live)
            && |t.runs| == |After(Start(first), before).runs| + 1)
  {
    var e := ReloadLoads(cfg);
    RunJoins(Start(first), before + [e], meanwhile);
    RunJoins(Start(first), before, [e]);
    var s := After(Start(first), before);
    InvAlways(Start(first), before);
    assert After(s, [e]) == Step(s, e);
    InvAlways(s, [e]);
    DrainingGoesOn(Step(s, e), meanwhile);
    var t := After(Start(first), before + [e] + meanwhile);
    var o := if Newest(t).status.Exited? then Drained else OnceWindsDown;
    assert o.Own() && Enabled(t, o);
  }

  /** Own steps to the end once the daemon's context is done, if no further reload is asked for. */
  function StepsToEnd(s: State): nat
    requires s.runs != []
  {
    match s.pc
    case Returned => 0
    case Stopping => StepsLeft(s)
    case Selecting => if Newest(s).status.Exited? then 2 else 3
    case Draining(_) => 3 + StepsLeft(s)
  }

  lemma {:induction false} InterruptedGoesOn(s: State, es: seq<Event>)
    requires Inv(s) && s.interrupted && Run(s, es) && forall i :: 0 <= i < |es| ==> !es[i].ReloadLoads?
    ensures var t := After(s, es); Inv(t) && t.interrupted && CountOwn(es) + StepsToEnd(t) <= StepsToEnd(s) <= 5
    decreases |es|
  {
    if es != [] {
      InterruptedGoesOn(Step(s, es[0]), es[1..]);
    }
  }

  /**
   A signal ends the daemon: unless more reloads are asked for, an own step is possible until Run has
   returned, and there are at most five of them, whatever reload was under way.
   */
  lemma {:induction false} InterruptEndsRun(first: Config, before: seq<Event>, after: seq<Event>)
    requires Run(Start(first), before + [Interrupt] + after)
    requires forall i :: 0 <= i < |after| ==> !after[i].ReloadLoads?
    ensures var s := After(Start(first), before + [Interrupt] + after);
      CountOwn(after) <= 5 && (s.pc.Returned? || exists e: Event :: e.Own() && Enabled(s, e))
  {
    RunJoins(Start(first), before + [Interrupt], after);
    RunJoins(Start(first), before, [Interrupt]);
    var s := After(Start(first), before);
    InvAlways(Start(first), before);
    assert After(s, [Interrupt]) == Step(s, Interrupt);
    InvAlways(s, [Interrupt]);
    InterruptedGoesOn(Step(s, Interrupt), after);
    var t := After(Start(first), before + [Interrupt] + after);
    if t.pc.Selecting? {
      assert ContextDone.Own() && Enabled(t, ContextDone);
    } else if !t.pc.Returned? {
      var o := if Newest(t).status.Exited? then Drained else OnceWindsDown;
      assert o.Own() && Enabled(t, o);
    }
  }
}
