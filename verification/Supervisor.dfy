/**
 tunnel.Supervisor: generations of run loops. Ensure and Stop change the fields
 under the lock; every loop is a goroutine of its own that outlives its
 cancellation until it next looks.
 */
module Supervisor {
  import opened Common
  import opened Backoff

  // ---- Run loops ----

  datatype LoopPc =
    | Checking   // before the loop's ctx.Err() test
    | Running    // ssh is running
    | Exited     // ssh has exited, before the second ctx.Err() test
    | Sleeping   // waiting out the delay
    | Returned   // done is closed

  datatype Loop = Loop(cancelled: bool, pc: LoopPc, attempt: nat, delay: int)

  datatype Config = Config(base: int64, max: int64)

  /** Short-lived exits count up, a stable run starts over; the delay follows. */
  function Backedoff(c: Config, l: Loop, stable: bool, draw: nat): Loop {
    var attempt := if stable then 0 else l.attempt + 1;
    var bounded := if draw <= Raw(attempt, c.base, c.max) / 2 then draw else 0;
    l.(pc := Sleeping, attempt := attempt, delay := NextDelay(attempt, c.base, c.max, bounded))
  }

  // ---- The supervisor ----

  datatype State = State(
    desired: bool,
    cancel: Option<nat>,   // the loop whose context s.cancel cancels
    done: Option<nat>,     // the loop that closes s.done
    loops: seq<Loop>)

  function NewState(): State { State(false, None, None, []) }

  function StartLocked(s: State): State {
    var i := |s.loops|;
    s.(cancel := Some(i), done := Some(i), loops := s.loops + [Loop(false, Checking, 0, 0)])
  }

  function StopLocked(s: State): State {
    match s.cancel
    case None => s
    case Some(i) =>
      s.(cancel := None, loops := if i < |s.loops| then s.loops[i := s.loops[i].(cancelled := true)] else s.loops)
  }

  function Ensured(s: State, desired: bool): (t: State)
    ensures t.desired == desired
  {
    if desired == s.desired then s
    else if desired then StartLocked(s.(desired := true))
    else StopLocked(s.(desired := false))
  }

  /** Stop's locked section; it then waits on the channel it captured, s.done. */
  function Stopped(s: State): State {
    StopLocked(s.(desired := false))
  }

  datatype Event =
    | Ensure(desired: bool)
    | StopBegins
    | Checks(i: nat)
    | SshExits(i: nat)
    | BacksOff(i: nat, stable: bool, draw: nat)
    | Wakes(i: nat)
    | Interrupted(i: nat)
  {
    predicate OfLoop() { !Ensure? && !StopBegins? }
  }

  predicate LoopCan(l: Loop, e: Event)
    requires e.OfLoop()
  {
    match e
    case Checks(_) => l.pc.Checking?
    case SshExits(_) => l.pc.Running?
    case BacksOff(_, _, _) => l.pc.Exited?
    case Wakes(_) => l.pc.Sleeping?
    case Interrupted(_) => l.pc.Sleeping? && l.cancelled
  }

  predicate Enabled(s: State, e: Event) {
    e.OfLoop() ==> e.i < |s.loops| && LoopCan(s.loops[e.i], e)
  }

  function LoopStep(c: Config, l: Loop, e: Event): Loop
    requires e.OfLoop()
  {
    match e
    case Checks(_) => l.(pc := if l.cancelled then Returned else Running)
    case SshExits(_) => l.(pc := Exited)
    case BacksOff(_, stable, draw) => if l.cancelled then l.(pc := Returned) else Backedoff(c, l, stable, draw)
    case Wakes(_) => l.(pc := Checking)
    case Interrupted(_) => l.(pc := Returned)
  }

  function Step(c: Config, s: State, e: Event): State
    requires Enabled(s, e)
  {
    match e
    case Ensure(d) => Ensured(s, d)
    case StopBegins => Stopped(s)
    case _ => s.(loops := s.loops[e.i := LoopStep(c, s.loops[e.i], e)])
  }

  predicate Run(c: Config, s: State, es: seq<Event>)
    decreases |es|
  {
    es == [] || (Enabled(s, es[0]) && Run(c, Step(c, s, es[0]), es[1..]))
  }

  function After(c: Config, s: State, es: seq<Event>): State
    requires Run(c, s, es)
    decreases |es|
  {
    if es == [] then s else After(c, Step(c, s, es[0]), es[1..])
  }

  /**
   The fields tell the generations apart: only the newest loop may be uncancelled, exactly while the
   tunnel is desired.
   */
  ghost predicate Inv(s: State) {
    && (s.desired <==> s.cancel.Some?)
    && (s.cancel.Some? ==> s.cancel == s.done)
    && s.done == (if s.loops == [] then None else Some(|s.loops| - 1))
    && (forall i :: 0 <= i < |s.loops| ==> (s.loops[i].cancelled <==> s.cancel != Some(i)))
    && (forall i :: 0 <= i < |s.loops| && s.loops[i].pc.Returned? ==> s.loops[i].cancelled)
  }

  lemma {:induction false} StepKeepsInv(c: Config, s: State, e: Event)
    requires Inv(s) && Enabled(s, e)
    ensures Inv(Step(c, s, e))
  {
  }

  lemma {:induction false} InvAlways(c: Config, s: State, es: seq<Event>)
    requires Inv(s) && Run(c, s, es)
    ensures Inv(After(c, s, es))
    decreases |es|
  {
    if es != [] {
      StepKeepsInv(c, s, es[0]);
      InvAlways(c, Step(c, s, es[0]), es[1..]);
    }
  }

  // ---- Main results ----

  /** Over every history of Ensure, Stop and loop steps. */
  lemma {:induction false} GenerationsAreSound(c: Config, es: seq<Event>)
    requires Run(c, NewState(), es)
    ensures var s := After(c, NewState(), es);
      var newest := |s.loops| - 1;
      && (s.desired <==> s.cancel.Some?)
      && (s.desired <==> s.loops != [] && !s.loops[newest].cancelled)
      && (forall i :: 0 <= i < newest ==> s.loops[i].cancelled)
      && (forall i :: 0 <= i < |s.loops| && !s.loops[i].cancelled ==> !s.loops[i].pc.Returned?)
      && s.done == (if s.loops == [] then None else Some(newest))
  {
    InvAlways(c, NewState(), es);
  }

  /** How often loop i closes its done channel in a run. */
  ghost function Closings(c: Config, s: State, es: seq<Event>, i: nat): nat
    requires Run(c, s, es)
    decreases |es|
  {
    if es == [] then 0
    else
      var s' := Step(c, s, es[0]);
      (if HasReturned(s', i) && !HasReturned(s, i) then 1 else 0) + Closings(c, s', es[1..], i)
  }

  predicate HasReturned(s: State, i: nat) {
    i < |s.loops| && s.loops[i].pc.Returned?
  }

  /** Loops are never removed, revived or uncancelled. */
  lemma {:induction false} StepIsMonotone(c: Config, s: State, e: Event)
    requires Inv(s) && Enabled(s, e)
    ensures |s.loops| <= |Step(c, s, e).loops|
    ensures forall i :: 0 <= i < |s.loops| && s.loops[i].pc.Returned? ==> Step(c, s, e).loops[i].pc.Returned?
    ensures forall i :: 0 <= i < |s.loops| && s.loops[i].cancelled ==> Step(c, s, e).loops[i].cancelled
  {
  }

  /** Each done channel is closed once if its loop has returned, and not at all otherwise. */
  lemma {:induction false} DoneClosesOnce(c: Config, s: State, es: seq<Event>, i: nat)
    requires Inv(s) && Run(c, s, es)
    ensures Closings(c, s, es, i) == if HasReturned(After(c, s, es), i) && !HasReturned(s, i) then 1 else 0
    ensures HasReturned(s, i) ==> HasReturned(After(c, s, es), i)
    decreases |es|
  {
    if es != [] {
      StepKeepsInv(c, s, es[0]);
      StepIsMonotone(c, s, es[0]);
      DoneClosesOnce(c, Step(c, s, es[0]), es[1..], i);
    }
  }

  /**
   The channel a Stop that begins in `s` waits on; it returns once that channel is closed (at once if
   there is none).
   */
  ghost predicate StopReturns(s: State, later: State) {
    s.done.Some? ==> HasReturned(later, s.done.value)
  }

  ghost predicate AllReturned(s: State, n: int) {
    forall i :: 0 <= i < n ==> HasReturned(s, i)
  }

  /** What the loops of `s` still have to do once cancelled. */
  function Remaining(pc: LoopPc): nat {
    match pc
    case Running => 2
    case Sleeping => 2
    case Checking => 1
    case Exited => 1
    case Returned => 0
  }

  /**
   A cancelled loop is at most two of its own steps from closing its channel, and never blocked on
   anything but ssh exiting.
   */
  lemma {:induction false} CancelledLoopsEnd(c: Config, l: Loop, e: Event)
    requires l.cancelled && e.OfLoop() && LoopCan(l, e)
    ensures Remaining(LoopStep(c, l, e).pc) < Remaining(l.pc) <= 2 && LoopStep(c, l, e).cancelled
  {
  }

  function TowardsReturn(pc: LoopPc, i: nat): Event {
    match pc
    case Running => SshExits(i)
    case Sleeping => Interrupted(i)
    case Checking => Checks(i)
    case _ => BacksOff(i, false, 0)
  }

  /** A schedule in which only loop i moves, until it has returned. */
  lemma {:induction false} Finish(c: Config, s: State, i: nat) returns (es: seq<Event>)
    requires Inv(s) && i < |s.loops| && s.loops[i].cancelled
    ensures Run(c, s, es) && HasReturned(After(c, s, es), i)
    ensures |After(c, s, es).loops| == |s.loops|
    ensures forall k :: 0 <= k < |s.loops| && k != i ==> After(c, s, es).loops[k] == s.loops[k]
    decreases Remaining(s.loops[i].pc)
  {
    if s.loops[i].pc.Returned? {
      es := [];
    } else {
      var e := TowardsReturn(s.loops[i].pc, i);
      StepKeepsInv(c, s, e);
      es := Finish(c, Step(c, s, e), i);
      es := Then(c, s, e, es);
    }
  }

  /** Returned loops stay returned. */
  lemma {:induction false} ReturnedStays(c: Config, s: State, es: seq<Event>, i: nat)
    requires Inv(s) && Run(c, s, es) && HasReturned(s, i)
    ensures HasReturned(After(c, s, es), i)
    decreases |es|
  {
    DoneClosesOnce(c, s, es, i);
  }

  /**
   Stop waits for the newest loop only. It leaves no run loop behind, whatever the schedule, exactly
   when every older generation had already returned when it was called.
   */
  lemma {:induction false} StopIsCompleteIff(c: Config, s: State)
    requires Inv(s)
    ensures (forall es :: Run(c, Stopped(s), es) && StopReturns(Stopped(s), After(c, Stopped(s), es))
                          ==> AllReturned(After(c, Stopped(s), es), |s.loops|))
       <==> AllReturned(s, |s.loops| - 1)
  {
    var t := Stopped(s);
    StepKeepsInv(c, s, StopBegins);
    StepIsMonotone(c, s, StopBegins);
    if AllReturned(s, |s.loops| - 1) {
      forall es | Run(c, t, es) && StopReturns(t, After(c, t, es)) ensures AllReturned(After(c, t, es), |s.loops|) {
        forall i | 0 <= i < |s.loops| ensures HasReturned(After(c, t, es), i) {
          if i < |s.loops| - 1 {
            assert HasReturned(s, i) && HasReturned(t, i);
            ReturnedStays(c, t, es, i);
          }
        }
      }
    } else {
      var i :| 0 <= i < |s.loops| - 1 && !HasReturned(s, i);
      var es := Finish(c, t, |s.loops| - 1);
      assert After(c, t, es).loops[i] == t.loops[i] && t.loops[i].pc == s.loops[i].pc;
      assert !HasReturned(After(c, t, es), i);
    }
  }

  /** So after Ensure(true), Ensure(false), Ensure(true) an earlier ssh may outlive Stop. */
  lemma {:induction false} StopCanLeaveAnOlderLoop(c: Config) returns (es: seq<Event>)
    ensures Run(c, NewState(), es) && StopReturns(After(c, NewState(), es), After(c, NewState(), es))
    ensures var s := After(c, NewState(), es);
            !s.desired && |s.loops| == 2 && s.loops[0].pc.Running? && HasReturned(s, 1)
  {
    var s1 := Ensured(NewState(), true);
    var s2 := Step(c, s1, Checks(0));
    var s3 := Ensured(s2, false);
    var s4 := Ensured(s3, true);
    var s5 := Stopped(s4);
    var s6 := Step(c, s5, Checks(1));
    es := Then(c, s5, Checks(1), []);
    es := Then(c, s4, StopBegins, es);
    es := Then(c, s3, Ensure(true), es);
    es := Then(c, s2, Ensure(false), es);
    es := Then(c, s1, Checks(0), es);
    es := Then(c, NewState(), Ensure(true), es);
    assert After(c, NewState(), es) == s6;
  }

  /** One more event in front of a run. */
  lemma {:induction false} Then(c: Config, s: State, e: Event, rest: seq<Event>) returns (es: seq<Event>)
    requires Enabled(s, e) && Run(c, Step(c, s, e), rest)
    ensures es == [e] + rest && Run(c, s, es) && After(c, s, es) == After(c, Step(c, s, e), rest)
  {
    es := [e] + rest;
    assert es[1..] == rest;
  }

  // ---- The cycle of a wanted loop ----

  /** The steps an uncancelled loop that is not running ssh is away from running it. */
  function UntilRunning(pc: LoopPc): nat {
    match pc
    case Running => 0
    case Checking => 1
    case Sleeping => 2
    case Exited => 3
    case Returned => 4
  }

  /** A loop still wanted that is not running ssh can step, and every step it can take brings ssh nearer. */
  lemma {:induction false} WantedLoopsRun(c: Config, es: seq<Event>, i: nat)
    requires Run(c, NewState(), es)
    ensures var s := After(c, NewState(), es);
      i < |s.loops| && !s.loops[i].cancelled ==>
        var l := s.loops[i];
        && UntilRunning(l.pc) <= 3
        && (!l.pc.Running? ==> exists e: Event :: e.OfLoop() && e.i == i && Enabled(s, e))
        && forall e: Event :: e.OfLoop() && e.i == i && Enabled(s, e) && !l.pc.Running? ==>
             UntilRunning(Step(c, s, e).loops[i].pc) < UntilRunning(l.pc)
  {
    InvAlways(c, NewState(), es);
    hide Run, After;
    var s := After(c, NewState(), es);
    if i < |s.loops| && !s.loops[i].cancelled && !s.loops[i].pc.Running? {
      if s.loops[i].pc.Checking? {
        assert Checks(i).OfLoop() && Enabled(s, Checks(i));
      } else if s.loops[i].pc.Sleeping? {
        assert Wakes(i).OfLoop() && Enabled(s, Wakes(i));
      } else {
        assert BacksOff(i, false, 0).OfLoop() && Enabled(s, BacksOff(i, false, 0));
      }
    }
  }

  function CountOf(es: seq<Event>, what: Event -> bool): nat {
    if es == [] then 0 else (if what(es[0]) then 1 else 0) + CountOf(es[1..], what)
  }

  /** Where in its cycle a loop is after this many tests, exits of ssh, backoffs and wakeups. */
  ghost predicate InCycle(pc: LoopPc, checks: int, exits: int, backoffs: int, wakes: int) {
    match pc
    case Checking => checks == exits == backoffs == wakes
    case Running => checks - 1 == exits == backoffs == wakes
    case Exited => checks == exits == backoffs + 1 == wakes + 1
    case Sleeping => checks == exits == backoffs == wakes + 1
    case Returned => exits <= checks && backoffs <= exits && wakes <= backoffs && checks <= wakes + 1
  }

  function ChecksOf(es: seq<Event>, i: nat): nat { CountOf(es, e => e == Checks(i)) }

  function ExitsOf(es: seq<Event>, i: nat): nat { CountOf(es, e => e == SshExits(i)) }

  function BackoffsOf(es: seq<Event>, i: nat): nat { CountOf(es, (e: Event) => e.BacksOff? && e.i == i) }

  function WakesOf(es: seq<Event>, i: nat): nat { CountOf(es, e => e == Wakes(i)) }

  /** A loop not started yet has done nothing. */
  ghost predicate CycleHolds(s: State, i: nat, checks: int, exits: int, backoffs: int, wakes: int) {
    if i < |s.loops| then InCycle(s.loops[i].pc, checks, exits, backoffs, wakes)
    else checks == exits == backoffs == wakes == 0
  }

  lemma {:induction false} CycleStep(c: Config, s: State, e: Event, i: nat,
      checks: int, exits: int, backoffs: int, wakes: int)
    requires Enabled(s, e) && CycleHolds(s, i, checks, exits, backoffs, wakes)
    ensures CycleHolds(Step(c, s, e), i,
        checks + (if e == Checks(i) then 1 else 0), exits + (if e == SshExits(i) then 1 else 0),
        backoffs + (if e.BacksOff? && e.i == i then 1 else 0), wakes + (if e == Wakes(i) then 1 else 0))
  {
    hide NextDelay, Raw;
  }

  lemma {:induction false} CycleGoesRound(c: Config, s: State, es: seq<Event>, i: nat,
      checks: int, exits: int, backoffs: int, wakes: int)
    requires Run(c, s, es) && CycleHolds(s, i, checks, exits, backoffs, wakes)
    ensures CycleHolds(After(c, s, es), i, checks + ChecksOf(es, i), exits + ExitsOf(es, i),
                       backoffs + BackoffsOf(es, i), wakes + WakesOf(es, i))
    decreases |es|
  {
    hide CycleHolds, Step, Enabled;
    if es != [] {
      var e, rest := es[0], es[1..];
      CycleStep(c, s, e, i, checks, exits, backoffs, wakes);
      CycleGoesRound(c, Step(c, s, e), rest, i,
        checks + (if e == Checks(i) then 1 else 0), exits + (if e == SshExits(i) then 1 else 0),
        backoffs + (if e.BacksOff? && e.i == i then 1 else 0), wakes + (if e == Wakes(i) then 1 else 0));
    }
  }

  /**
   In every history a loop backs off once for each time its ssh has exited, and ssh runs again after
   every wakeup: tests of the context, exits, backoffs and wakeups follow each other round.
   */
  lemma {:induction false} BacksOffOncePerExit(c: Config, es: seq<Event>, i: nat)
    requires Run(c, NewState(), es)
    ensures WakesOf(es, i) <= BackoffsOf(es, i) <= ExitsOf(es, i) <= ChecksOf(es, i) <= WakesOf(es, i) + 1
    ensures var s := After(c, NewState(), es);
      i < |s.loops| && s.loops[i].pc.Running? ==> ExitsOf(es, i) + 1 == ChecksOf(es, i)
  {
    CycleGoesRound(c, NewState(), es, i, 0, 0, 0, 0);
  }

  /** How often a sequence of Ensure and Stop calls changes its mind from not wanted to wanted. */
  function Rises(wanted: bool, es: seq<Event>): nat
    decreases |es|
  {
    if es == [] then 0
    else match es[0]
         case Ensure(d) => (if d && !wanted then 1 else 0) + Rises(d, es[1..])
         case StopBegins => Rises(false, es[1..])
         case _ => Rises(wanted, es[1..])
  }

  /** There is one generation to each such change, and none for an Ensure that asks for what is wanted already. */
  lemma {:induction false} OneGenerationPerRise(c: Config, s: State, es: seq<Event>)
    requires Run(c, s, es)
    ensures |After(c, s, es).loops| == |s.loops| + Rises(s.desired, es)
    decreases |es|
  {
    if es != [] {
      OneGenerationPerRise(c, Step(c, s, es[0]), es[1..]);
    }
  }

  // ---- Backoff over a run ----

  /** The exits of loop i's ssh that led to a backoff, in order: true for one after a stable run. */
  ghost function Exits(c: Config, s: State, es: seq<Event>, i: nat): seq<bool>
    requires Run(c, s, es)
    decreases |es|
  {
    if es == [] then []
    else ExitIn(s, es[0], i) + Exits(c, Step(c, s, es[0]), es[1..], i)
  }

  /** Short-lived exits since the last stable run. */
  function Streak(exits: seq<bool>): nat {
    if exits == [] || exits[|exits| - 1] then 0 else 1 + Streak(exits[..|exits| - 1])
  }

  function AttemptOf(s: State, i: nat): nat {
    if i < |s.loops| then s.loops[i].attempt else 0
  }

  /** A sleeping loop's delay is one NextDelay gives for its attempt. */
  ghost predicate DelaysFollow(c: Config, s: State) {
    forall i :: 0 <= i < |s.loops| && s.loops[i].pc.Sleeping? ==>
      exists draw: nat :: draw <= Raw(s.loops[i].attempt, c.base, c.max) / 2
                          && s.loops[i].delay == NextDelay(s.loops[i].attempt, c.base, c.max, draw)
  }

  lemma {:induction false} StepKeepsDelays(c: Config, s: State, e: Event)
    requires DelaysFollow(c, s) && Enabled(s, e)
    ensures DelaysFollow(c, Step(c, s, e))
  {
    var s' := Step(c, s, e);
    forall i | 0 <= i < |s'.loops| && s'.loops[i].pc.Sleeping?
      ensures exists draw: nat :: draw <= Raw(s'.loops[i].attempt, c.base, c.max) / 2
                                  && s'.loops[i].delay == NextDelay(s'.loops[i].attempt, c.base, c.max, draw)
    {
      if e.BacksOff? && e.i == i {
        var bound := Raw(s'.loops[i].attempt, c.base, c.max) / 2;
        DelayIsBounded(s'.loops[i].attempt, c.base, c.max, 0);
        var draw := if e.draw <= bound then e.draw else 0;
        assert s'.loops[i].delay == NextDelay(s'.loops[i].attempt, c.base, c.max, draw);
      } else {
        assert i < |s.loops| && s.loops[i].pc.Sleeping? && s.loops[i].attempt == s'.loops[i].attempt;
      }
    }
  }

  /** What one event adds to the exits of loop i. */
  ghost function ExitIn(s: State, e: Event, i: nat): seq<bool>
    requires Enabled(s, e)
  {
    if e.BacksOff? && e.i == i && !s.loops[i].cancelled then [e.stable] else []
  }

  lemma {:induction false} StepCountsStreak(c: Config, s: State, e: Event, i: nat, before: seq<bool>)
    requires Enabled(s, e) && AttemptOf(s, i) == Streak(before)
    ensures AttemptOf(Step(c, s, e), i) == Streak(before + ExitIn(s, e, i))
  {
    hide NextDelay, Raw;
    var now := ExitIn(s, e, i);
    if now == [] {
      assert before + now == before;
    } else {
      assert (before + now)[..|before + now| - 1] == before;
    }
  }

  lemma {:induction false} AttemptCountsStreak(c: Config, s: State, es: seq<Event>, i: nat, before: seq<bool>)
    requires Run(c, s, es) && DelaysFollow(c, s) && AttemptOf(s, i) == Streak(before)
    ensures AttemptOf(After(c, s, es), i) == Streak(before + Exits(c, s, es, i))
    ensures DelaysFollow(c, After(c, s, es))
    decreases |es|
  {
    hide DelaysFollow, Streak, Step, AttemptOf, ExitIn;
    if es == [] {
      assert before + [] == before;
    } else {
      var e, rest := es[0], es[1..];
      var now := ExitIn(s, e, i);
      StepKeepsDelays(c, s, e);
      StepCountsStreak(c, s, e, i, before);
      AttemptCountsStreak(c, Step(c, s, e), rest, i, before + now);
      assert (before + now) + Exits(c, Step(c, s, e), rest, i) == before + (now + Exits(c, Step(c, s, e), rest, i));
    }
  }

  /**
   After k consecutive short-lived exits a loop sleeps for the k-th exponential, capped, with equal
   jitter: between half of it and all of it. Always positive and capped, even when the product wraps.
   */
  lemma {:induction false} DelayFollowsStreak(c: Config, es: seq<Event>, i: nat)
    requires Run(c, NewState(), es)
    requires i < |After(c, NewState(), es).loops| && After(c, NewState(), es).loops[i].pc.Sleeping?
    ensures var l := After(c, NewState(), es).loops[i];
      var k := Streak(Exits(c, NewState(), es, i));
      && 0 < l.delay <= Cap(c.base, c.max)
      && (MeantBase(c.base) * Pow2(20) < TWO63 ==>
            Ideal(k, c.base, c.max) / 2 <= l.delay <= Ideal(k, c.base, c.max))
  {
    AttemptCountsStreak(c, NewState(), es, i, []);
    assert [] + Exits(c, NewState(), es, i) == Exits(c, NewState(), es, i);
    var l := After(c, NewState(), es).loops[i];
    var draw: nat :| draw <= Raw(l.attempt, c.base, c.max) / 2 && l.delay == NextDelay(l.attempt, c.base, c.max, draw);
    DelayIsBounded(l.attempt, c.base, c.max, draw);
    if MeantBase(c.base) * Pow2(20) < TWO63 {
      DelayIsExponential(l.attempt, c.base, c.max, draw);
    }
  }

  // ---- The object ----

  class Supervisor {
    var desired: bool
    var cancel: Option<nat>
    var done: Option<nat>
    var loops: seq<Loop>   // the goroutines started so far

    function View(): State
      reads this
    {
      State(desired, cancel, done, loops)
    }

    constructor ()
      ensures View() == NewState()
    {
      desired, cancel, done, loops := false, None, None, [];
    }

    method Ensure(wanted: bool)
      modifies this
      ensures View() == Ensured(old(View()), wanted)
    {
      if wanted == desired {
        return;
      }
      desired := wanted;
      if wanted {
        Start();
      } else {
        Cancel();
      }
    }

    method Start()
      modifies this
      ensures View() == StartLocked(old(View()))
    {
      var i := |loops|;
      cancel := Some(i);
      done := Some(i);
      loops := loops + [Loop(false, Checking, 0, 0)];
    }

    method Cancel()
      modifies this
      ensures View() == StopLocked(old(View()))
    {
      if cancel.Some? {
        if cancel.value < |loops| {
          loops := loops[cancel.value := loops[cancel.value].(cancelled := true)];
        }
        cancel := None;
      }
    }

    /** Stop up to its wait; the caller then waits for the captured loop to return. */
    method BeginStop() returns (captured: Option<nat>)
      modifies this
      ensures View() == Stopped(old(View())) && captured == done
    {
      desired := false;
      Cancel();
      captured := done;
    }
  }
}
