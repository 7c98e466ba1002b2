/**
 The daemon's main loop: a one-slot recheck channel, a debounce timer and the
 pending flag between them, until the daemon's context is cancelled.
 */
module Wakeups {

  /** debounceInterval in ticks of the clock, however fine those are. */
  type Interval = n: nat | n > 0 witness 1

  datatype Timer = Off | Armed(left: Interval) | Fired

  datatype State = State(token: bool, pending: bool, timer: Timer)

  datatype Event =
    | Trigger      // a non-blocking send on recheck, from any goroutine
    | Receives     // case <-recheck
    | Tick         // time passes
    | Debounced    // case <-debounce.C
    | RouteError   // case re := <-errCh

  function Start(): State { State(false, false, Off) }

  predicate Enabled(s: State, e: Event) {
    match e
    case Receives => s.token
    case Debounced => s.timer.Fired?
    case _ => true
  }

  function Step(i: Interval, s: State, e: Event): State
    requires Enabled(s, e)
  {
    match e
    case Trigger => s.(token := true)
    case Receives => State(false, true, Armed(i))  // Reset discards an unreceived tick
    case Tick =>
      s.(timer := if !s.timer.Armed? then s.timer else if s.timer.left > 1 then Armed(s.timer.left - 1) else Fired)
    case Debounced => s.(pending := false, timer := Off)
    case RouteError => s
  }

  /** The step runs applyState. */
  predicate Applies(s: State, e: Event) {
    e.Debounced? && s.pending
  }

  predicate Run(i: Interval, s: State, es: seq<Event>)
    decreases |es|
  {
    es == [] || (Enabled(s, es[0]) && Run(i, Step(i, s, es[0]), es[1..]))
  }

  function After(i: Interval, s: State, es: seq<Event>): State
    requires Run(i, s, es)
    decreases |es|
  {
    if es == [] then s else After(i, Step(i, s, es[0]), es[1..])
  }

  function CountApplies(i: Interval, s: State, es: seq<Event>): nat
    requires Run(i, s, es)
    decreases |es|
  {
    if es == [] then 0
    else (if Applies(s, es[0]) then 1 else 0) + CountApplies(i, Step(i, s, es[0]), es[1..])
  }

  function Ticks(es: seq<Event>): nat {
    if es == [] then 0 else (if es[0].Tick? then 1 else 0) + Ticks(es[1..])
  }

  /** No time passes while one of the two channels is ready: the loop is not busy with anything else. */
  predicate Attentive(i: Interval, s: State, es: seq<Event>)
    requires Run(i, s, es)
    decreases |es|
  {
    es == [] || ((es[0].Tick? ==> !s.token && !s.timer.Fired?) && Attentive(i, Step(i, s, es[0]), es[1..]))
  }

  predicate Inv(i: Interval, s: State) {
    (s.pending ==> !s.timer.Off?) && (s.timer.Armed? ==> s.timer.left <= i)
  }

  /** A recheck is owed: it is in the channel, or pending with the timer running. */
  predicate Owed(s: State) {
    s.token || (s.pending && !s.timer.Off?)
  }

  lemma {:induction false} InvAlways(i: Interval, s: State, es: seq<Event>)
    requires Inv(i, s) && Run(i, s, es)
    ensures Inv(i, After(i, s, es))
    decreases |es|
  {
    if es != [] {
      InvAlways(i, Step(i, s, es[0]), es[1..]);
    }
  }

  /** Runs compose, and what they count adds up. */
  lemma {:induction false} RunJoins(i: Interval, s: State, a: seq<Event>, b: seq<Event>)
    ensures Run(i, s, a + b) <==> Run(i, s, a) && Run(i, After(i, s, a), b)
    ensures Run(i, s, a + b) ==>
      && After(i, s, a + b) == After(i, After(i, s, a), b)
      && CountApplies(i, s, a + b) == CountApplies(i, s, a) + CountApplies(i, After(i, s, a), b)
      && (Attentive(i, s, a + b) <==> Attentive(i, s, a) && Attentive(i, After(i, s, a), b))
    decreases |a|
  {
    if a == [] {
      assert a + b == b;
    } else {
      assert (a + b)[0] == a[0] && (a + b)[1..] == a[1..] + b;
      if Enabled(s, a[0]) {
        RunJoins(i, Step(i, s, a[0]), a[1..], b);
      }
    }
  }

  lemma {:induction false} OwedPersists(i: Interval, s: State, es: seq<Event>)
    requires Inv(i, s) && Owed(s) && Run(i, s, es) && CountApplies(i, s, es) == 0
    ensures Owed(After(i, s, es))
    decreases |es|
  {
    if es != [] {
      OwedPersists(i, Step(i, s, es[0]), es[1..]);
    }
  }

  /** Every trigger, in every run, leaves a recheck owed until an applyState that starts after it. */
  lemma {:induction false} NoLostWakeup(i: Interval, before: seq<Event>, after: seq<Event>)
    requires Run(i, Start(), before + [Trigger] + after)
    ensures var prefix := before + [Trigger];
      Run(i, Start(), prefix) && Run(i, After(i, Start(), prefix), after)
      && (CountApplies(i, After(i, Start(), prefix), after) == 0 ==> Owed(After(i, Start(), prefix + after)))
  {
    var prefix := before + [Trigger];
    RunJoins(i, Start(), prefix, after);
    RunJoins(i, Start(), before, [Trigger]);
    var s := After(i, Start(), prefix);
    InvAlways(i, Start(), prefix);
    assert s == Step(i, After(i, Start(), before), Trigger);
    if CountApplies(i, s, after) == 0 {
      OwedPersists(i, s, after);
    }
  }

  // ---- Exactly when applyState runs ----

  /** How long the timer still runs. */
  function Left(s: State): nat {
    if s.timer.Armed? then s.timer.left else 0
  }

  lemma {:induction false} SettledStays(i: Interval, s: State, es: seq<Event>)
    requires !s.pending && Run(i, s, es) && Receives !in es
    ensures CountApplies(i, s, es) == 0
    decreases |es|
  {
    if es != [] {
      SettledStays(i, Step(i, s, es[0]), es[1..]);
    }
  }

  /**
   While nothing is received, applyState runs once if the timer is; never before the timer's time, and
   in an attentive loop no later.
   */
  lemma {:induction false} Stretch(i: Interval, s: State, es: seq<Event>)
    requires s.pending && !s.timer.Off? && Run(i, s, es) && Receives !in es
    ensures CountApplies(i, s, es) == if Debounced in es then 1 else 0
    ensures Debounced in es ==> Ticks(es) >= Left(s)
    ensures Attentive(i, s, es) && Ticks(es) > Left(s) ==> Debounced in es
    decreases |es|
  {
    if es != [] {
      if es[0].Debounced? {
        SettledStays(i, Step(i, s, Debounced), es[1..]);
      } else {
        Stretch(i, Step(i, s, es[0]), es[1..]);
      }
    }
  }

  /**
   Between two consecutive receives applyState runs at most once, and never if they are less than the
   interval apart. In an attentive loop it runs if they are more than the interval apart: so, but for
   the tie, exactly when they are at least that far apart.
   */
  lemma {:induction false} BetweenReceives(i: Interval, s: State, mid: seq<Event>)
    requires s.token && Run(i, Step(i, s, Receives), mid + [Receives]) && Receives !in mid
    ensures var s1 := Step(i, s, Receives);
      && Run(i, s1, mid) && CountApplies(i, s1, mid) <= 1
      && (CountApplies(i, s1, mid) == 1 ==> Ticks(mid) >= i)
      && (Attentive(i, s1, mid) && Ticks(mid) != i ==> (CountApplies(i, s1, mid) == 1 <==> Ticks(mid) > i))
  {
    RunJoins(i, Step(i, s, Receives), mid, [Receives]);
    Stretch(i, Step(i, s, Receives), mid);
  }

  function Pause(n: nat): (es: seq<Event>)
    ensures |es| == n && Ticks(es) == n && forall k :: 0 <= k < n ==> es[k] == Tick
  {
    if n == 0 then [] else [Tick] + Pause(n - 1)
  }

  /** A pause is a run of its own; the loop has nothing to attend to until the timer has run down. */
  lemma {:induction false} PauseRuns(i: Interval, s: State, n: nat)
    requires !s.token && !s.timer.Off?
    ensures Run(i, s, Pause(n)) && CountApplies(i, s, Pause(n)) == 0
    ensures Attentive(i, s, Pause(n)) <==> n <= Left(s)
    ensures n <= Left(s) ==>
      After(i, s, Pause(n)) == s.(timer := if n < Left(s) then Armed(Left(s) - n) else Fired)
    decreases n
  {
    if n > 0 {
      assert Pause(n)[0] == Tick && Pause(n)[1..] == Pause(n - 1);
      PauseRuns(i, Step(i, s, Tick), n - 1);
    } else {
      assert Pause(n) == [];
    }
  }

  lemma {:induction false} TicksJoin(a: seq<Event>, b: seq<Event>)
    ensures Ticks(a + b) == Ticks(a) + Ticks(b)
  {
    if a == [] {
      assert a + b == b;
    } else {
      assert (a + b)[1..] == a[1..] + b;
      TicksJoin(a[1..], b);
    }
  }

  /** At the tie the select may take either channel: applyState runs in one of these two runs and not in the other. */
  lemma {:induction false} TieGoesEitherWay(i: Interval, s: State) returns (applied: seq<Event>, missed: seq<Event>)
    requires s.token
    ensures var s1 := Step(i, s, Receives);
      && Run(i, s1, applied + [Receives]) && Attentive(i, s1, applied + [Receives])
      && Run(i, s1, missed + [Receives]) && Attentive(i, s1, missed + [Receives])
      && Ticks(applied) == i && Receives !in applied && Run(i, s1, applied) && CountApplies(i, s1, applied) == 1
      && Ticks(missed) == i && Receives !in missed && Run(i, s1, missed) && CountApplies(i, s1, missed) == 0
  {
    var s1 := Step(i, s, Receives);
    applied := Pause(i) + [Debounced, Trigger];
    missed := Pause(i) + [Trigger];
    PauseRuns(i, s1, i);
    TicksJoin(Pause(i), [Debounced, Trigger]);
    TicksJoin(Pause(i), [Trigger]);
    Ready(i, After(i, s1, Pause(i)));
    RunJoins(i, s1, Pause(i), [Debounced, Trigger]);
    RunJoins(i, s1, Pause(i), [Trigger]);
    RunJoins(i, s1, applied, [Receives]);
    RunJoins(i, s1, missed, [Receives]);
    Stretch(i, s1, applied);
    Stretch(i, s1, missed);
    assert applied[i] == Debounced;
  }

  lemma Ready(i: Interval, s: State)
    requires s.timer.Fired?
    ensures var a, b := [Debounced, Trigger], [Trigger];
      && Run(i, s, a) && Attentive(i, s, a) && After(i, s, a).token
      && Run(i, s, b) && Attentive(i, s, b) && After(i, s, b).token
  {
    var s1 := Step(i, s, Debounced);
    assert [Debounced, Trigger][1..] == [Trigger];
    assert Run(i, s1, [Trigger]) && Attentive(i, s1, [Trigger]) && After(i, s1, [Trigger]).token;
  }

  // ---- Triggers that stop, and triggers that do not ----

  /** Steps the loop can still take by itself. */
  function Work(s: State): nat {
    (if s.token then 2 else 0) + (if s.timer.Off? then 0 else 1)
  }

  function CountMoves(es: seq<Event>): nat {
    if es == [] then 0 else (if es[0].Receives? || es[0].Debounced? then 1 else 0) + CountMoves(es[1..])
  }

  lemma {:induction false} NothingToReceive(i: Interval, s: State, es: seq<Event>)
    requires !s.token && Run(i, s, es) && Trigger !in es
    ensures Receives !in es
    decreases |es|
  {
    if es != [] {
      NothingToReceive(i, Step(i, s, es[0]), es[1..]);
    }
  }

  /**
   Once triggers stop, the loop takes at most three more steps; when the channel is empty and the timer
   off again, applyState has run if a recheck was owed; and in an attentive loop it has run as soon as
   more than the interval has passed.
   */
  lemma {:induction false} TriggersAreServed(i: Interval, s: State, es: seq<Event>)
    requires Inv(i, s) && Run(i, s, es) && Trigger !in es
    ensures CountMoves(es) + Work(After(i, s, es)) <= Work(s) <= 3
    ensures Owed(s) && Work(After(i, s, es)) == 0 ==> CountApplies(i, s, es) >= 1
    ensures Owed(s) && Attentive(i, s, es) && Ticks(es) > i ==> CountApplies(i, s, es) >= 1
    decreases |es|
  {
    if es != [] {
      TriggersAreServed(i, Step(i, s, es[0]), es[1..]);
    }
    if Owed(s) && CountApplies(i, s, es) == 0 {
      OwedPersists(i, s, es);
    }
    if Owed(s) && !s.token {
      NothingToReceive(i, s, es);
      Stretch(i, s, es);
    }
  }

  /** n triggers, each received at once, `gap` ticks apart. */
  function Rounds(n: nat, gap: nat): seq<Event> {
    if n == 0 then [] else [Trigger] + ([Receives] + (Pause(gap) + Rounds(n - 1, gap)))
  }

  /**
   Triggers no further apart than the interval postpone applyState in an attentive loop for as long as
   they keep coming; triggers further apart do so only in a loop that is busy elsewhere.
   */
  lemma {:induction false} TriggersCanPostpone(i: Interval, s: State, n: nat, gap: nat)
    ensures Run(i, s, Rounds(n, gap)) && CountApplies(i, s, Rounds(n, gap)) == 0
    ensures Attentive(i, s, Rounds(n, gap)) <==> n == 0 || gap <= i
    decreases n
  {
    if n > 0 {
      var s1 := Step(i, s, Trigger);
      var s2 := Step(i, s1, Receives);
      PauseRuns(i, s2, gap);
      TriggersCanPostpone(i, After(i, s2, Pause(gap)), n - 1, gap);
      var rest := Pause(gap) + Rounds(n - 1, gap);
      RunJoins(i, s2, Pause(gap), Rounds(n - 1, gap));
      RunJoins(i, s1, [Receives], rest);
      RunJoins(i, s, [Trigger], [Receives] + rest);
    }
  }
}
