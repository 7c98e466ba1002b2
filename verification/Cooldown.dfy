/** Rate limiting of failure notifications, per route and category; times and durations are nanoseconds. */
module Cooldown {
  import opened Text

  const MAX_DURATION: int := 0x7fff_ffff_ffff_ffff

  type Duration = d: int | -MAX_DURATION - 1 <= d <= MAX_DURATION

  /** Absolute time; 0 is the zero time. */
  type Time = int

  type Entries = map<string, Time>

  /** Time.Sub saturates. */
  function Sub(a: Time, b: Time): Duration {
    var d := a - b;
    if d > MAX_DURATION then MAX_DURATION
    else if d < -MAX_DURATION - 1 then -MAX_DURATION - 1
    else d
  }

  predicate ShouldNotify(st: Entries, key: string, now: Time, cooldown: Duration) {
    key !in st || st[key] == 0 || Sub(now, st[key]) >= cooldown
  }

  // ---- Error categories and keys ----

  datatype Category = AuthPublicKey | AuthAgent | HostKeyVerification | HostKeyChanged
  {
    function Text(): string {
      match this
      case AuthPublicKey => "auth_publickey"
      case AuthAgent => "auth_agent"
      case HostKeyVerification => "hostkey_verification_failed"
      case HostKeyChanged => "hostkey_changed"
    }
  }

  datatype Failure = Failure(route: string, category: Category, time: Time)

  function KeyOf(route: string, category: Category): string {
    Colon(route, category.Text())
  }

  lemma CategoriesDiffer(a: Category, b: Category)
    requires a.Text() == b.Text()
    ensures a == b
  {
    assert a.AuthPublicKey? ==> a.Text()[5] == 'p';
    assert a.AuthAgent? ==> a.Text()[5] == 'a';
    assert a.HostKeyVerification? ==> a.Text()[8] == 'v';
    assert a.HostKeyChanged? ==> a.Text()[8] == 'c';
  }

  /** Distinct routes or categories never share a key, even when a route's name contains colons. */
  lemma {:induction false} KeysAreDistinct(r: string, a: Category, s: string, b: Category)
    requires KeyOf(r, a) == KeyOf(s, b)
    ensures r == s && a == b
  {
    ColonSplits(r, a.Text(), s, b.Text());
    CategoriesDiffer(a, b);
  }

  // ---- A stream of failures ----

  function Key(f: Failure): string { KeyOf(f.route, f.category) }

  /** The state before the last of the failures, and after all of them. */
  function Handled(st: Entries, fs: seq<Failure>, cooldown: Duration): Entries {
    if fs == [] then st
    else
      var n := |fs| - 1;
      var before := Handled(st, fs[..n], cooldown);
      if ShouldNotify(before, Key(fs[n]), fs[n].time, cooldown) then before[Key(fs[n]) := fs[n].time] else before
  }

  /** Whether failure i sends a notification. */
  predicate Notified(st: Entries, fs: seq<Failure>, cooldown: Duration, i: nat)
    requires i < |fs|
  {
    ShouldNotify(Handled(st, fs[..i], cooldown), Key(fs[i]), fs[i].time, cooldown)
  }

  ghost predicate RealTimes(fs: seq<Failure>) {
    forall i :: 0 <= i < |fs| ==> fs[i].time != 0
  }

  /** The last of the first n failures that notified about `key`, or -1. */
  function LastNotified(st: Entries, fs: seq<Failure>, cooldown: Duration, key: string, n: nat): (last: int)
    requires n <= |fs|
    ensures -1 <= last < n
    ensures last >= 0 ==> Key(fs[last]) == key && Notified(st, fs, cooldown, last)
  {
    if n == 0 then -1
    else if Key(fs[n - 1]) == key && Notified(st, fs, cooldown, n - 1) then n - 1
    else LastNotified(st, fs, cooldown, key, n - 1)
  }

  lemma {:induction false} NothingAfterLast(st: Entries, fs: seq<Failure>, cooldown: Duration, key: string, n: nat)
    requires n <= |fs|
    ensures forall j :: LastNotified(st, fs, cooldown, key, n) < j < n && Key(fs[j]) == key ==>
              !Notified(st, fs, cooldown, j)
  {
    hide Notified, Key;
    if n > 0 {
      NothingAfterLast(st, fs, cooldown, key, n - 1);
    }
  }

  /** The record of `key` is the time of notification `last`, or what it was at the start. */
  predicate Remembers(now: Entries, st: Entries, fs: seq<Failure>, key: string, last: int)
    requires last < |fs|
  {
    if last >= 0 then key in now && now[key] == fs[last].time
    else (key in now <==> key in st) && (key in st ==> now[key] == st[key])
  }

  /** The state remembers, per key, the time of its last notification, or what it held at the start. */
  lemma {:induction false} RemembersLast(st: Entries, fs: seq<Failure>, cooldown: Duration, key: string, n: nat)
    requires n <= |fs|
    ensures Remembers(Handled(st, fs[..n], cooldown), st, fs, key, LastNotified(st, fs, cooldown, key, n))
  {
    hide Handled, Notified, Key;
    if n == 0 {
      NothingHandled(st, fs[..0], cooldown);
    } else {
      RemembersLast(st, fs, cooldown, key, n - 1);
      OneMore(st, fs, cooldown, n - 1);
    }
  }

  lemma NothingHandled(st: Entries, fs: seq<Failure>, cooldown: Duration)
    requires fs == []
    ensures Handled(st, fs, cooldown) == st
  {
  }

  lemma OneMore(st: Entries, fs: seq<Failure>, cooldown: Duration, n: nat)
    requires n < |fs|
    ensures Handled(st, fs[..n + 1], cooldown)
         == if Notified(st, fs, cooldown, n) then Handled(st, fs[..n], cooldown)[Key(fs[n]) := fs[n].time]
            else Handled(st, fs[..n], cooldown)
  {
    hide ShouldNotify, Key;
    assert fs[..n + 1][..n] == fs[..n] && fs[..n + 1][n] == fs[n];
  }

  /**
   A record at time `t` no longer holds a notification back: the cooldown has passed, or it is the zero
   time, which is no record.
   */
  predicate Passed(t: Time, now: Time, cooldown: Duration) {
    t == 0 || now - t >= cooldown
  }

  lemma NotifiesUnlessRecorded(now: Entries, key: string, time: Time, cooldown: Duration)
    requires cooldown > 0
    ensures ShouldNotify(now, key, time, cooldown) <==> key in now ==> Passed(now[key], time, cooldown)
  {
  }

  /**
   Failure j notifies exactly when the cooldown has passed since the key's last notification, or since
   what was recorded for it before; whatever the clock does.
   */
  lemma {:induction false} NotifiesAfterCooldown(st: Entries, fs: seq<Failure>, cooldown: Duration, j: nat)
    requires j < |fs| && cooldown > 0
    ensures var key, last := Key(fs[j]), LastNotified(st, fs, cooldown, Key(fs[j]), j);
      Notified(st, fs, cooldown, j) <==>
        if last >= 0 then Passed(fs[last].time, fs[j].time, cooldown)
        else key in st ==> Passed(st[key], fs[j].time, cooldown)
  {
    hide Handled, Key, LastNotified, ShouldNotify, Passed;
    RemembersLast(st, fs, cooldown, Key(fs[j]), j);
    NotifiesUnlessRecorded(Handled(st, fs[..j], cooldown), Key(fs[j]), fs[j].time, cooldown);
  }

  /** Any two notifications for one route and category are at least the cooldown apart. */
  lemma {:induction false} NotificationsAreSpaced(st: Entries, fs: seq<Failure>, cooldown: Duration, i: nat, j: nat)
    requires RealTimes(fs) && cooldown > 0 && i < j < |fs|
    requires fs[i].route == fs[j].route && fs[i].category == fs[j].category
    requires Notified(st, fs, cooldown, i) && Notified(st, fs, cooldown, j)
    ensures fs[j].time - fs[i].time >= cooldown
    decreases j
  {
    hide Notified, Key, LastNotified;
    NotifiesAfterCooldown(st, fs, cooldown, j);
    var last := LastNotified(st, fs, cooldown, Key(fs[j]), j);
    NothingAfterLast(st, fs, cooldown, Key(fs[j]), j);
    SameKey(fs[i], fs[j]);
    if last > i {
      KeyTells(fs[last], fs[j]);
      NotificationsAreSpaced(st, fs, cooldown, i, last);
    }
  }

  lemma SameKey(a: Failure, b: Failure)
    requires a.route == b.route && a.category == b.category
    ensures Key(a) == Key(b)
  {
  }

  lemma {:induction false} KeyTells(a: Failure, b: Failure)
    requires Key(a) == Key(b)
    ensures a.route == b.route && a.category == b.category
  {
    KeysAreDistinct(a.route, a.category, b.route, b.category);
  }

  /** Some notifications of one route and category, in order. */
  ghost predicate NotificationsOf(st: Entries, fs: seq<Failure>, cooldown: Duration,
      route: string, category: Category, chosen: seq<nat>)
  {
    && (forall k :: 0 <= k < |chosen| ==>
          && chosen[k] < |fs|
          && fs[chosen[k]].route == route && fs[chosen[k]].category == category
          && Notified(st, fs, cooldown, chosen[k]))
    && (forall k, l :: 0 <= k < l < |chosen| ==> chosen[k] < chosen[l])
  }

  lemma {:induction false} NotificationsSpread(st: Entries, fs: seq<Failure>, cooldown: Duration,
      route: string, category: Category, chosen: seq<nat>, k: nat)
    requires RealTimes(fs) && cooldown > 0 && NotificationsOf(st, fs, cooldown, route, category, chosen) && k < |chosen|
    ensures fs[chosen[k]].time >= fs[chosen[0]].time + k * cooldown
  {
    if k > 0 {
      NotificationsSpread(st, fs, cooldown, route, category, chosen, k - 1);
      NotificationsAreSpaced(st, fs, cooldown, chosen[k - 1], chosen[k]);
      assert k * cooldown == (k - 1) * cooldown + cooldown;
    }
  }

  /** A window of length w holds at most w / cooldown + 1 notifications for one route and category. */
  lemma {:induction false} WindowIsBounded(st: Entries, fs: seq<Failure>, cooldown: Duration,
      route: string, category: Category, chosen: seq<nat>, start: Time, w: nat)
    requires RealTimes(fs) && cooldown > 0 && NotificationsOf(st, fs, cooldown, route, category, chosen)
    requires forall k :: 0 <= k < |chosen| ==> start <= fs[chosen[k]].time <= start + w
    ensures |chosen| <= w / cooldown + 1
  {
    if chosen != [] {
      var k := |chosen| - 1;
      NotificationsSpread(st, fs, cooldown, route, category, chosen, k);
      DivideBound(k, cooldown, w);
    }
  }

  lemma DivideBound(k: nat, c: nat, w: nat)
    requires c > 0 && k * c <= w
    ensures k <= w / c
  {
    var q := w / c;
    assert w < (q + 1) * c;
    SmallerFactor(k, q + 1, c);
  }

  lemma SmallerFactor(k: int, m: int, c: nat)
    requires k * c < m * c
    ensures k < m
  {
  }

  /**
   A suppressed failure is one whose route and category notified less than the cooldown before it, in
   this run or in the state it started from. No other failure can suppress it.
   */
  lemma {:induction false} SuppressedIsRecent(st: Entries, fs: seq<Failure>, cooldown: Duration, j: nat)
    requires cooldown > 0 && j < |fs| && !Notified(st, fs, cooldown, j)
    ensures
      || (exists i :: 0 <= i < j && fs[i].route == fs[j].route && fs[i].category == fs[j].category
                      && Notified(st, fs, cooldown, i) && fs[j].time - fs[i].time < cooldown)
      || (Key(fs[j]) in st && fs[j].time - st[Key(fs[j])] < cooldown)
  {
    hide Notified, Key, LastNotified;
    NotifiesAfterCooldown(st, fs, cooldown, j);
    var last := LastNotified(st, fs, cooldown, Key(fs[j]), j);
    if last >= 0 {
      KeyTells(fs[last], fs[j]);
    }
  }

  // ---- The state object ----

  class Store {
    var notifications: Entries

    constructor (loaded: Entries)
      ensures notifications == loaded
    {
      notifications := loaded;
    }

    method RecordNotified(key: string, now: Time)
      modifies this
      ensures notifications == old(notifications)[key := now]
    {
      notifications := notifications[key := now];
    }

    /** handleErrorCategory, with notifications enabled. */
    method HandleError(f: Failure, cooldown: Duration) returns (sent: bool)
      modifies this
      ensures sent == ShouldNotify(old(notifications), Key(f), f.time, cooldown)
      ensures notifications == Handled(old(notifications), [f], cooldown)
    {
      assert [f][..0] == [];
      var key := KeyOf(f.route, f.category);
      sent := ShouldNotify(notifications, key, f.time, cooldown);
      if sent {
        RecordNotified(key, f.time);
      }
    }
  }
}
