/** Login lockout: an attempt counter that expires with its window and a lock that expires
    with its duration, both kept in Redis. Times are in seconds; each call is atomic. */
module Lockout {
  import opened Prelude

  datatype Config = Config(maxAttempts: int, window: int, duration: int) {
    /** Redis refuses an expiry that is not positive. */
    predicate Valid() { window >= 1 && duration >= 1 }

    /** The number of failures that locks an account: the first failure already meets a
        limit below one. */
    function Limit(): int { MaxOf(1, maxAttempts) }
  }

  datatype Counter = Counter(count: int, expires: int)

  /** The two keys of one identifier; a key is live while the clock is before its expiry. */
  datatype Account = Account(attempts: Option<Counter>, lock: Option<int>) {
    predicate Locked(now: int) { lock.Some? && now < lock.value }

    predicate Counting(now: int) { attempts.Some? && now < attempts.value.expires }

    function LiveCount(now: int): int { if Counting(now) then attempts.value.count else 0 }
  }

  const FRESH := Account(None, None)

  datatype Status = Status(
    isLocked: bool, attemptsRemaining: int,
    lockedAt: Option<int>, unlocksAt: Option<int>, minutesRemaining: Option<int>)

  datatype Outcome = Outcome(status: Status, justLocked: bool)

  function CeilMinutes(seconds: int): int { (seconds + 59) / 60 }

  function StatusOf(c: Config, a: Account, now: int): Status {
    if a.Locked(now) then
      var ttl := a.lock.value - now;
      Status(true, 0, Some(now - (c.duration - ttl)), Some(now + ttl), Some(CeilMinutes(ttl)))
    else
      Status(false, MaxOf(0, c.maxAttempts - a.LiveCount(now)), None, None, None)
  }

  /** One failed attempt: rejected while locked, otherwise counted. */
  function Fail(c: Config, a: Account, now: int): (Account, Outcome) {
    if a.Locked(now) then (a, Outcome(StatusOf(c, a, now), false))
    else
      var attempts := a.LiveCount(now) + 1;
      var expires := if a.Counting(now) then a.attempts.value.expires else now + c.window;
      if attempts >= c.maxAttempts then
        (Account(None, Some(now + c.duration)),
         Outcome(Status(true, 0, Some(now), Some(now + c.duration), Some(CeilMinutes(c.duration))), true))
      else
        (a.(attempts := Some(Counter(attempts, expires))),
         Outcome(Status(false, c.maxAttempts - attempts, None, None, None), false))
  }

  // ----- The store -----

  type Accounts = map<string, Account>

  function Get(s: Accounts, id: string): Account { if id in s then s[id] else FRESH }

  class Store {
    const config: Config
    var attempts: map<string, Counter>
    var locks: map<string, int>

    constructor (config: Config)
      requires config.Valid()
      ensures Valid()
      ensures this.config == config && attempts == map[] && locks == map[]
    {
      this.config, attempts, locks := config, map[], map[];
    }

    /** A counter starts at one. */
    ghost predicate Valid()
      reads this
    {
      config.Valid() && forall id :: id in attempts ==> attempts[id].count >= 1
    }

    function AccountOf(id: string): Account
      reads this
    {
      Account(if id in attempts then Some(attempts[id]) else None, if id in locks then Some(locks[id]) else None)
    }

    method GetLockoutStatus(id: string, now: int) returns (status: Status)
      ensures status == StatusOf(config, AccountOf(id), now)
    {
      var ttl := if id in locks && now < locks[id] then locks[id] - now else -2;
      if ttl > 0 {
        return Status(true, 0, Some(now - (config.duration - ttl)), Some(now + ttl), Some(CeilMinutes(ttl)));
      }
      var count := if id in attempts && now < attempts[id].expires then attempts[id].count else 0;
      status := Status(false, MaxOf(0, config.maxAttempts - count), None, None, None);
    }

    method RecordFailedAttempt(id: string, now: int) returns (r: Outcome)
      requires Valid()
      modifies this
      ensures Valid()
      ensures (AccountOf(id), r) == Fail(config, old(AccountOf(id)), now)
      ensures forall other :: other != id ==> AccountOf(other) == old(AccountOf(other))
    {
      var status := GetLockoutStatus(id, now);
      if status.isLocked {
        return Outcome(status, false);
      }
      // incr, then expire on the first increment only
      var live := id in attempts && now < attempts[id].expires;
      var count := if live then attempts[id].count + 1 else 1;
      attempts := attempts[id := Counter(count, if live then attempts[id].expires else now)];
      if count == 1 {
        attempts := attempts[id := Counter(count, now + config.window)];
      }
      if count >= config.maxAttempts {
        // set NX: the lock key has expired, or the call would have returned above
        if !(id in locks && now < locks[id]) {
          locks := locks[id := now + config.duration];
        }
        attempts := attempts - {id};
        status := Status(true, 0, Some(now), Some(now + config.duration), Some(CeilMinutes(config.duration)));
        return Outcome(status, true);
      }
      r := Outcome(Status(false, config.maxAttempts - count, None, None, None), false);
    }

    /** Removes both keys; `deleted` counts the live ones. */
    method Clear(id: string, now: int) returns (deleted: int)
      requires Valid()
      modifies this
      ensures Valid()
      ensures AccountOf(id) == FRESH
      ensures forall other :: other != id ==> AccountOf(other) == old(AccountOf(other))
      ensures deleted == (if old(AccountOf(id)).Locked(now) then 1 else 0) +
                         (if old(AccountOf(id)).Counting(now) then 1 else 0)
    {
      deleted := 0;
      if id in locks && now < locks[id] {
        deleted := deleted + 1;
      }
      if id in attempts && now < attempts[id].expires {
        deleted := deleted + 1;
      }
      locks, attempts := locks - {id}, attempts - {id};
    }

    method RecordSuccessfulLogin(id: string, now: int)
      requires Valid()
      modifies this
      ensures Valid()
      ensures AccountOf(id) == FRESH
      ensures forall other :: other != id ==> AccountOf(other) == old(AccountOf(other))
    {
      var _ := Clear(id, now);
    }

    /** The result is true for a bare attempt counter too, not only for an active lock. */
    method AdminUnlock(id: string, now: int) returns (wasLocked: bool)
      requires Valid()
      modifies this
      ensures Valid()
      ensures AccountOf(id) == FRESH
      ensures forall other :: other != id ==> AccountOf(other) == old(AccountOf(other))
      ensures wasLocked <==> old(AccountOf(id)).Locked(now) || old(AccountOf(id)).Counting(now)
    {
      var deleted := Clear(id, now);
      wasLocked := deleted > 0;
    }
  }

  // ----- Runs -----

  datatype Event =
    | Failed(id: string, at: int)
    | Queried(id: string, at: int)
    | Reset(id: string, at: int)

  function Step(c: Config, s: Accounts, e: Event): Accounts {
    match e
    case Failed(id, at) => s[id := Fail(c, Get(s, id), at).0]
    case Queried(_, _) => s
    case Reset(id, _) => s[id := FRESH]
  }

  function Run(c: Config, s: Accounts, events: seq<Event>): Accounts
    decreases |events|
  {
    if events == [] then s else Run(c, Step(c, s, events[0]), events[1..])
  }

  /** The clock never runs backwards. */
  predicate Ordered(events: seq<Event>) {
    forall i, j :: 0 <= i < j < |events| ==> events[i].at <= events[j].at
  }

  predicate NoReset(events: seq<Event>, id: string, from: int, to: int) {
    forall i :: 0 <= i < |events| ==> events[i] != Reset(id, events[i].at) || !(from <= events[i].at < to)
  }

  /** Failures of `id` in [from, to) that are counted rather than rejected as locked. */
  function Counted(c: Config, s: Accounts, events: seq<Event>, id: string, from: int, to: int): nat
    decreases |events|
  {
    if events == [] then 0
    else
      var e := events[0];
      (if e.Failed? && e.id == id && from <= e.at < to && !Get(s, id).Locked(e.at) then 1 else 0)
      + Counted(c, Step(c, s, e), events[1..], id, from, to)
  }

  /** What every reachable account satisfies at time `now`. */
  predicate Sane(c: Config, a: Account, now: int) {
    a.attempts.Some? ==>
      && 1 <= a.attempts.value.count < c.Limit()
      && a.attempts.value.expires - c.window <= now
      && (a.lock.Some? ==> a.lock.value <= a.attempts.value.expires - c.window)
  }

  lemma StepKeepsSane(c: Config, s: Accounts, e: Event, id: string, now: int)
    requires c.Valid() && Sane(c, Get(s, id), now) && now <= e.at
    ensures Sane(c, Get(Step(c, s, e), id), e.at)
  {
  }

  /** How many more failures can still be counted before `end`. */
  function Remaining(c: Config, a: Account, end: int): int {
    var n := c.Limit();
    if a.attempts.Some? then
      if a.attempts.value.expires >= end then n - a.attempts.value.count else 2 * n - 1 - a.attempts.value.count
    else if a.lock.Some? && a.lock.value >= end then 0
    else n
  }

  lemma {:induction false} NothingAfter(c: Config, s: Accounts, events: seq<Event>, id: string, from: int, to: int)
    requires forall i :: 0 <= i < |events| ==> events[i].at >= to
    ensures Counted(c, s, events, id, from, to) == 0
    decreases |events|
  {
    if events == [] {
    } else {
      NothingAfter(c, Step(c, s, events[0]), events[1..], id, from, to);
    }
  }

  /** Inside one window's length, each counted failure uses up one of the remaining ones. */
  lemma {:induction false} CountedWithin(c: Config, s: Accounts, events: seq<Event>, id: string, t: int, now: int)
    requires c.Valid() && c.duration >= c.window
    requires Ordered(events) && NoReset(events, id, t, t + c.window)
    requires t <= now && (events != [] ==> now <= events[0].at)
    requires Sane(c, Get(s, id), now)
    ensures Counted(c, s, events, id, t, t + c.window) <= MaxOf(0, Remaining(c, Get(s, id), t + c.window))
    decreases |events|
  {
    if events == [] {
    } else {
      var e, end := events[0], t + c.window;
      if e.at >= end {
        NothingAfter(c, s, events, id, t, end);
      } else {
        StepKeepsSane(c, s, e, id, now);
        assert e != Reset(id, e.at);
        CountedWithin(c, Step(c, s, e), events[1..], id, t, e.at);
      }
    }
  }

  function Bound(c: Config): int { MaxOf(1, 2 * c.Limit() - 2) }

  lemma {:induction false} CountedBoundFrom(c: Config, s: Accounts, events: seq<Event>, id: string, t: int, now: int)
    requires c.Valid() && c.duration >= c.window
    requires Ordered(events) && NoReset(events, id, t, t + c.window)
    requires events != [] ==> now <= events[0].at
    requires Sane(c, Get(s, id), now)
    ensures Counted(c, s, events, id, t, t + c.window) <= Bound(c)
    decreases |events|
  {
    if t <= now {
      CountedWithin(c, s, events, id, t, now);
    } else if events != [] && events[0].at < t {
      StepKeepsSane(c, s, events[0], id, now);
      CountedBoundFrom(c, Step(c, s, events[0]), events[1..], id, t, events[0].at);
    } else {
      CountedWithin(c, s, events, id, t, t);
    }
  }

  /** With a lock at least as long as the window, every half-open interval of one window
      without a reset holds at most max(1, 2 * MAX - 2) counted failures. */
  lemma CountedBound(c: Config, events: seq<Event>, id: string, t: int)
    requires c.Valid() && c.duration >= c.window
    requires Ordered(events) && NoReset(events, id, t, t + c.window)
    ensures Counted(c, map[], events, id, t, t + c.window) <= Bound(c)
  {
    CountedBoundFrom(c, map[], events, id, t, if events == [] then t else events[0].at);
  }

  // ----- The bound is attained, and the condition on the lock is needed -----

  function Burst(id: string, at: int, k: nat): seq<Event> { seq(k, _ => Failed(id, at)) }

  lemma {:induction false} RunThen(c: Config, s: Accounts, a: seq<Event>, b: seq<Event>, id: string, from: int, to: int)
    ensures Run(c, s, a + b) == Run(c, Run(c, s, a), b)
    ensures Counted(c, s, a + b, id, from, to) ==
            Counted(c, s, a, id, from, to) + Counted(c, Run(c, s, a), b, id, from, to)
    decreases |a|
  {
    if a == [] {
      assert a + b == b;
    } else {
      assert (a + b)[0] == a[0] && (a + b)[1..] == a[1..] + b;
      RunThen(c, Step(c, s, a[0]), a[1..], b, id, from, to);
    }
  }

  /** The account after `k` failures in one second, up to the one that locks it. */
  function AfterBurst(c: Config, a: Account, at: int, k: nat): Account {
    var n := a.LiveCount(at) + k;
    if k == 0 then a
    else if n >= c.Limit() then Account(None, Some(at + c.duration))
    else a.(attempts := Some(Counter(n, if a.Counting(at) then a.attempts.value.expires else at + c.window)))
  }

  lemma {:induction false} BurstCounts(c: Config, s: Accounts, id: string, at: int, k: nat, from: int, to: int)
    requires c.Valid() && !Get(s, id).Locked(at)
    requires 0 <= Get(s, id).LiveCount(at) < c.Limit() && Get(s, id).LiveCount(at) + k <= c.Limit()
    ensures Counted(c, s, Burst(id, at, k), id, from, to) == if from <= at < to then k else 0
    ensures Get(Run(c, s, Burst(id, at, k)), id) == AfterBurst(c, Get(s, id), at, k)
    decreases k
  {
    if k == 0 {
    } else {
      var s' := Step(c, s, Failed(id, at));
      assert Burst(id, at, k)[0] == Failed(id, at) && Burst(id, at, k)[1..] == Burst(id, at, k - 1);
      if k > 1 {
        BurstCounts(c, s', id, at, k - 1, from, to);
      } else {
        assert Burst(id, at, 0) == [];
      }
    }
  }

  /** Three bursts, one after the other, form an ordered run without resets. */
  function Bursts(id: string, t1: int, k1: nat, t2: int, k2: nat, t3: int, k3: nat): (events: seq<Event>)
    requires t1 <= t2 <= t3
    ensures Ordered(events)
    ensures forall from, to :: NoReset(events, id, from, to)
  {
    Burst(id, t1, k1) + Burst(id, t2, k2) + Burst(id, t3, k3)
  }

  lemma BurstsCount(c: Config, id: string, t1: int, k1: nat, t2: int, k2: nat, t3: int, k3: nat, from: int, to: int)
    requires t1 <= t2 <= t3
    ensures var s1 := Run(c, map[], Burst(id, t1, k1));
            var s2 := Run(c, s1, Burst(id, t2, k2));
            Counted(c, map[], Bursts(id, t1, k1, t2, k2, t3, k3), id, from, to) ==
            Counted(c, map[], Burst(id, t1, k1), id, from, to) +
            Counted(c, s1, Burst(id, t2, k2), id, from, to) +
            Counted(c, s2, Burst(id, t3, k3), id, from, to)
  {
    RunThen(c, map[], Burst(id, t1, k1), Burst(id, t2, k2), id, from, to);
    RunThen(c, map[], Burst(id, t1, k1) + Burst(id, t2, k2), Burst(id, t3, k3), id, from, to);
  }

  /** One failure at 0, and all but two of the others just before it expires, leave one. */
  lemma FirstBursts(c: Config, id: string)
    requires c.Valid() && c.maxAttempts >= 2 && c.window >= 2
    ensures var n, w := c.maxAttempts, c.window;
            var s1 := Run(c, map[], Burst(id, 0, 1));
            && Get(Run(c, s1, Burst(id, w - 1, n - 2)), id) == Account(Some(Counter(n - 1, w)), None)
            && Counted(c, map[], Burst(id, 0, 1), id, 1, 1 + w) == 0
            && Counted(c, s1, Burst(id, w - 1, n - 2), id, 1, 1 + w) == n - 2
  {
    var n, w := c.maxAttempts, c.window;
    var s1 := Run(c, map[], Burst(id, 0, 1));
    BurstCounts(c, map[], id, 0, 1, 1, 1 + w);
    assert Get(s1, id) == Account(Some(Counter(1, w)), None);
    BurstCounts(c, s1, id, w - 1, n - 2, 1, 1 + w);
  }

  /** At the expiry of the counter a full round fits. */
  lemma LastBurst(c: Config, s: Accounts, id: string)
    requires c.Valid() && c.maxAttempts >= 2 && c.window >= 2
    requires Get(s, id) == Account(Some(Counter(c.maxAttempts - 1, c.window)), None)
    ensures Counted(c, s, Burst(id, c.window, c.maxAttempts), id, 1, 1 + c.window) == c.maxAttempts
  {
    BurstCounts(c, s, id, c.window, c.maxAttempts, 1, 1 + c.window);
  }

  lemma ThreeBursts(c: Config, id: string)
    requires c.Valid() && c.maxAttempts >= 2 && c.window >= 2
    ensures var n, w := c.maxAttempts, c.window;
            Counted(c, map[], Bursts(id, 0, 1, w - 1, n - 2, w, n), id, 1, 1 + w) == 2 * n - 2
  {
    var n, w := c.maxAttempts, c.window;
    BurstsCount(c, id, 0, 1, w - 1, n - 2, w, n, 1, 1 + w);
    FirstBursts(c, id);
    LastBurst(c, Run(c, Run(c, map[], Burst(id, 0, 1)), Burst(id, w - 1, n - 2)), id);
  }

  /** No smaller bound would do: every configuration with two or more attempts and a window
      of at least two seconds has a run that attains it. */
  lemma BoundIsAttained(c: Config, id: string) returns (events: seq<Event>, t: int)
    requires c.Valid() && c.maxAttempts >= 2 && c.window >= 2
    ensures Ordered(events) && NoReset(events, id, t, t + c.window)
    ensures Counted(c, map[], events, id, t, t + c.window) == Bound(c)
  {
    events, t := Bursts(id, 0, 1, c.window - 1, c.maxAttempts - 2, c.window, c.maxAttempts), 1;
    ThreeBursts(c, id);
  }

  /** A lock shorter than the window lets a second full round through. */
  lemma ShortLockBreaksBound(c: Config, id: string) returns (events: seq<Event>)
    requires c.Valid() && c.duration < c.window
    ensures Ordered(events) && NoReset(events, id, 0, c.window)
    ensures Counted(c, map[], events, id, 0, c.window) == 2 * c.Limit() > Bound(c)
  {
    var n := c.Limit();
    events := Bursts(id, 0, 0, 0, n, c.duration, n);
    BurstsCount(c, id, 0, 0, 0, n, c.duration, n, 0, c.window);
    var s2 := Run(c, map[], Burst(id, 0, n));
    BurstCounts(c, map[], id, 0, 0, 0, c.window);
    BurstCounts(c, map[], id, 0, n, 0, c.window);
    assert Burst(id, 0, 0) == [];
    assert Get(s2, id) == Account(None, Some(c.duration));
    BurstCounts(c, s2, id, c.duration, n, 0, c.window);
  }

  /** One instance of the bound. */
  predicate WithinBound(c: Config, events: seq<Event>, id: string, t: int) {
    Ordered(events) && NoReset(events, id, t, t + c.window) ==>
      Counted(c, map[], events, id, t, t + c.window) <= Bound(c)
  }

  /** The counting bound holds in all runs exactly for locks at least as long as the window. */
  lemma BoundHoldsExactlyForLongLocks(c: Config, id: string)
    requires c.Valid()
    ensures c.duration >= c.window <==> forall events, t :: WithinBound(c, events, id, t)
  {
    if c.duration >= c.window {
      forall events, t
        ensures WithinBound(c, events, id, t)
      {
        if Ordered(events) && NoReset(events, id, t, t + c.window) {
          CountedBound(c, events, id, t);
        }
      }
    } else {
      var events := ShortLockBreaksBound(c, id);
      assert !WithinBound(c, events, id, 0);
    }
  }

  // ----- A lock lasts exactly its duration -----

  /** `justLocked` marks exactly the calls that turn an unlocked account into a locked one. */
  lemma JustLockedMarksTransition(c: Config, a: Account, now: int)
    requires c.Valid()
    ensures var (a', r) := Fail(c, a, now);
            && (r.justLocked <==> !a.Locked(now) && a'.Locked(now))
            && (r.justLocked ==> a' == Account(None, Some(now + c.duration)))
            && r.status.isLocked == a'.Locked(now)
            && (a'.Locked(now) ==> r.status == StatusOf(c, a', now))
  {
  }

  /** Whatever happens before the lock expires, short of a reset, leaves it as it is. */
  lemma {:induction false} LockIsNeverExtended(c: Config, s: Accounts, events: seq<Event>, id: string, until: int)
    requires Get(s, id).lock == Some(until)
    requires forall i :: 0 <= i < |events| ==> events[i].at < until && events[i] != Reset(id, events[i].at)
    ensures Get(Run(c, s, events), id) == Get(s, id)
    decreases |events|
  {
    if events == [] {
    } else {
      LockIsNeverExtended(c, Step(c, s, events[0]), events[1..], id, until);
    }
  }

  /** After a locking failure at `at`, the account is locked at every time before
      `at + duration` and open from then on, through any run without a reset. */
  lemma LockLastsExactly(c: Config, s: Accounts, id: string, at: int, events: seq<Event>, now: int)
    requires c.Valid() && Fail(c, Get(s, id), at).1.justLocked
    requires at <= now
    requires forall i :: 0 <= i < |events| ==>
               at <= events[i].at <= now && events[i].at < at + c.duration && events[i] != Reset(id, events[i].at)
    ensures var a := Get(Run(c, Step(c, s, Failed(id, at)), events), id);
            && (a.Locked(now) <==> now < at + c.duration)
            && (a.Locked(now) ==> StatusOf(c, a, now).unlocksAt == Some(at + c.duration) &&
                                  StatusOf(c, a, now).lockedAt == Some(at))
            && (a.Locked(now) ==> var m := StatusOf(c, a, now).minutesRemaining;
                                  m.Some? && 60 * (m.value - 1) < at + c.duration - now <= 60 * m.value)
  {
    var s' := Step(c, s, Failed(id, at));
    assert Get(s', id) == Account(None, Some(at + c.duration)) by {
      JustLockedMarksTransition(c, Get(s, id), at);
    }
    LockIsNeverExtended(c, s', events, id, at + c.duration);
    assert Get(Run(c, s', events), id) == Account(None, Some(at + c.duration));
  }

  /** The remaining attempts are what they say: that many more failures lock the account, and
      fewer leave it open. A limit below one, which the configuration lets through, reports no
      attempts on an open account and locks it at the first failure. */
  lemma RemainingAttemptsLock(c: Config, s: Accounts, id: string, now: int, k: nat)
    requires c.Valid() && Sane(c, Get(s, id), now) && !Get(s, id).Locked(now)
    requires k <= MaxOf(1, StatusOf(c, Get(s, id), now).attemptsRemaining)
    ensures var left := StatusOf(c, Get(s, id), now).attemptsRemaining;
            var a := Get(Run(c, s, Burst(id, now, k)), id);
            && (left >= 1 <==> c.maxAttempts >= 1)
            && (a.Locked(now) <==> k == MaxOf(1, left))
            && (!a.Locked(now) ==> StatusOf(c, a, now).attemptsRemaining == left - k)
  {
    BurstCounts(c, s, id, now, k, now, now);
  }

  /** What a failed attempt reports is the status right after it; it is counted unless the account
      was locked, and locks the account exactly if it reaches the limit. */
  lemma FailReportsStatus(c: Config, a: Account, now: int)
    requires c.Valid()
    ensures var (b, r) := Fail(c, a, now);
            && r.status == StatusOf(c, b, now)
            && (a.Locked(now) ==> b == a && !r.justLocked)
            && (!a.Locked(now) && !b.Locked(now) ==> b.LiveCount(now) == a.LiveCount(now) + 1 < c.maxAttempts)
            && (!a.Locked(now) && b.Locked(now) ==> a.LiveCount(now) + 1 >= c.maxAttempts && r.justLocked)
  {
  }
}
