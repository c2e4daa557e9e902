/** Transaction velocity: a per-user history, pruned to the rolling window at every check,
    and the structuring alert that is computed from it. */
module Velocity {
  import opened Prelude

  datatype Transaction = Transaction(amount: real, timestamp: int, transactionId: Option<string>)

  datatype Config = Config(threshold: real, windowMs: int, triggerCount: int) {
    function LowerBound(): real { threshold * 0.95 }

    /** Just below the reporting threshold, within a margin of five percent. */
    predicate IsStructuringAmount(amount: real) { LowerBound() <= amount < threshold }
  }

  datatype CheckResult = CheckResult(
    allowed: bool, windowVolume: real, windowCount: int, structuringCount: int)

  function Recent(h: seq<Transaction>, cutoff: int): seq<Transaction> {
    if h == [] then []
    else if h[0].timestamp >= cutoff then [h[0]] + Recent(h[1..], cutoff)
    else Recent(h[1..], cutoff)
  }

  function StructuringCount(c: Config, h: seq<Transaction>): nat {
    if h == [] then 0
    else (if c.IsStructuringAmount(h[0].amount) then 1 else 0) + StructuringCount(c, h[1..])
  }

  function Volume(h: seq<Transaction>): real {
    if h == [] then 0.0 else h[0].amount + Volume(h[1..])
  }

  /** The verdict on a transaction, given the transactions inside the window before it. */
  function Verdict(c: Config, window: seq<Transaction>, amount: real): CheckResult {
    var count := StructuringCount(c, window) + if c.IsStructuringAmount(amount) then 1 else 0;
    CheckResult(count < c.triggerCount, Volume(window) + amount, |window| + 1, count)
  }

  // ----- The checker -----

  type Histories = map<string, seq<Transaction>>

  function HistoryOf(s: Histories, user: string): seq<Transaction> { if user in s then s[user] else [] }

  class VelocityChecker {
    const config: Config
    var store: Histories

    constructor (config: Config)
      ensures this.config == config && store == map[]
    {
      this.config, store := config, map[];
    }

    method CheckAndRecordTransaction(user: string, amount: real, transactionId: Option<string>, now: int)
      returns (r: CheckResult)
      modifies this
      ensures var window := Recent(old(HistoryOf(store, user)), now - config.windowMs);
              && r == Verdict(config, window, amount)
              && store == old(store)[user := window + [Transaction(amount, now, transactionId)]]
    {
      var cutoff := now - config.windowMs;
      var history := Recent(HistoryOf(store, user), cutoff);
      var existing := StructuringCount(config, history);
      var current := config.IsStructuringAmount(amount);
      var count := existing + if current then 1 else 0;
      var windowVolume := Volume(history) + amount;
      var windowCount := |history| + 1;
      if count >= config.triggerCount {
        history := history + [Transaction(amount, now, transactionId)];
        store := store[user := history];
        return CheckResult(false, windowVolume, windowCount, count);
      }
      history := history + [Transaction(amount, now, transactionId)];
      store := store[user := history];
      r := CheckResult(true, windowVolume, windowCount, count);
    }
  }

  // ----- Runs: the pruned store beside the complete log -----

  datatype Event = Event(user: string, amount: real, transactionId: Option<string>, now: int) {
    function Tx(): Transaction { Transaction(amount, now, transactionId) }
  }

  /** What the checker answers, and the store it leaves. */
  function StoreStep(c: Config, s: Histories, e: Event): (CheckResult, Histories) {
    var window := Recent(HistoryOf(s, e.user), e.now - c.windowMs);
    (Verdict(c, window, e.amount), s[e.user := window + [e.Tx()]])
  }

  /** The same question put to the complete log, from which nothing is ever dropped. */
  function LogStep(c: Config, log: Histories, e: Event): (CheckResult, Histories) {
    (Verdict(c, Recent(HistoryOf(log, e.user), e.now - c.windowMs), e.amount),
     log[e.user := HistoryOf(log, e.user) + [e.Tx()]])
  }

  function StoreRun(c: Config, s: Histories, events: seq<Event>): (r: seq<CheckResult>)
    ensures |r| == |events|
    decreases |events|
  {
    if events == [] then []
    else var (r, s') := StoreStep(c, s, events[0]); [r] + StoreRun(c, s', events[1..])
  }

  function LogRun(c: Config, log: Histories, events: seq<Event>): (r: seq<CheckResult>)
    ensures |r| == |events|
    decreases |events|
  {
    if events == [] then []
    else var (r, log') := LogStep(c, log, events[0]); [r] + LogRun(c, log', events[1..])
  }

  predicate Clocked(events: seq<Event>, start: int) {
    && (forall i :: 0 <= i < |events| ==> start <= events[i].now)
    && (forall i, j :: 0 <= i < j < |events| ==> events[i].now <= events[j].now)
  }

  /** The window holds each transaction from the cutoff on as often as the history does. */
  lemma {:induction false} RecentIsWindow(h: seq<Transaction>, cutoff: int, tx: Transaction)
    ensures multiset(Recent(h, cutoff))[tx] == if tx.timestamp >= cutoff then multiset(h)[tx] else 0
  {
    if h == [] {
    } else {
      RecentIsWindow(h[1..], cutoff, tx);
      assert h == [h[0]] + h[1..];
    }
  }

  lemma {:induction false} RecentConcat(a: seq<Transaction>, b: seq<Transaction>, cutoff: int)
    ensures Recent(a + b, cutoff) == Recent(a, cutoff) + Recent(b, cutoff)
  {
    if a == [] {
      assert a + b == b;
    } else {
      assert (a + b)[0] == a[0] && (a + b)[1..] == a[1..] + b;
      RecentConcat(a[1..], b, cutoff);
    }
  }

  lemma {:induction false} RecentLater(h: seq<Transaction>, a: int, b: int)
    requires a <= b
    ensures Recent(Recent(h, a), b) == Recent(h, b)
  {
    if h == [] {
    } else {
      RecentLater(h[1..], a, b);
      if h[0].timestamp >= a {
        assert Recent(h, a)[1..] == Recent(h[1..], a);
      }
    }
  }

  /** Pruned history and complete log agree on everything from `cutoff` on. */
  ghost predicate Agree(s: Histories, log: Histories, cutoff: int) {
    forall user :: Recent(HistoryOf(s, user), cutoff) == Recent(HistoryOf(log, user), cutoff)
  }

  lemma AgreeLater(s: Histories, log: Histories, a: int, b: int)
    requires Agree(s, log, a) && a <= b
    ensures Agree(s, log, b)
  {
    forall user
      ensures Recent(HistoryOf(s, user), b) == Recent(HistoryOf(log, user), b)
    {
      RecentLater(HistoryOf(s, user), a, b);
      RecentLater(HistoryOf(log, user), a, b);
    }
  }

  lemma StepAgrees(c: Config, s: Histories, log: Histories, e: Event)
    requires Agree(s, log, e.now - c.windowMs)
    ensures StoreStep(c, s, e).0 == LogStep(c, log, e).0
    ensures Agree(StoreStep(c, s, e).1, LogStep(c, log, e).1, e.now - c.windowMs)
  {
    var cutoff := e.now - c.windowMs;
    var window := Recent(HistoryOf(s, e.user), cutoff);
    RecentConcat(window, [e.Tx()], cutoff);
    RecentConcat(HistoryOf(log, e.user), [e.Tx()], cutoff);
    RecentLater(HistoryOf(s, e.user), cutoff, cutoff);
    var s', log' := StoreStep(c, s, e).1, LogStep(c, log, e).1;
    forall user
      ensures Recent(HistoryOf(s', user), cutoff) == Recent(HistoryOf(log', user), cutoff)
    {
      if user != e.user {
        assert HistoryOf(s', user) == HistoryOf(s, user) && HistoryOf(log', user) == HistoryOf(log, user);
      }
    }
  }

  lemma {:induction false} RunsAgree(c: Config, s: Histories, log: Histories, events: seq<Event>, start: int)
    requires Clocked(events, start) && Agree(s, log, start - c.windowMs)
    ensures StoreRun(c, s, events) == LogRun(c, log, events)
    decreases |events|
  {
    if events == [] {
    } else {
      var e := events[0];
      AgreeLater(s, log, start - c.windowMs, e.now - c.windowMs);
      StepAgrees(c, s, log, e);
      RunsAgree(c, StoreStep(c, s, e).1, LogStep(c, log, e).1, events[1..], e.now);
    }
  }

  /** The pruned history refines the complete log: with a clock that never runs backwards,
      every verdict, volume and count is the one computed from the whole log. */
  lemma PruningIsUnobservable(c: Config, events: seq<Event>, start: int)
    requires Clocked(events, start)
    ensures StoreRun(c, map[], events) == LogRun(c, map[], events)
  {
    RunsAgree(c, map[], map[], events, start);
  }

  // ----- How much structuring can slip through -----

  /** Approved structuring transactions of `user` with time in [from, from + windowMs]. */
  function Approved(c: Config, events: seq<Event>, results: seq<CheckResult>, user: string, from: int): nat
    requires |events| == |results|
  {
    if events == [] then 0
    else
      var e := events[0];
      (if e.user == user && results[0].allowed && c.IsStructuringAmount(e.amount) && from <= e.now <= from + c.windowMs
       then 1 else 0)
      + Approved(c, events[1..], results[1..], user, from)
  }

  lemma {:induction false} StructuringConcat(c: Config, a: seq<Transaction>, b: seq<Transaction>)
    ensures StructuringCount(c, a + b) == StructuringCount(c, a) + StructuringCount(c, b)
  {
    if a == [] {
      assert a + b == b;
    } else {
      assert (a + b)[0] == a[0] && (a + b)[1..] == a[1..] + b;
      StructuringConcat(c, a[1..], b);
    }
  }

  /** An earlier cutoff counts at least as many. */
  lemma {:induction false} StructuringMonotone(c: Config, h: seq<Transaction>, a: int, b: int)
    requires a <= b
    ensures StructuringCount(c, Recent(h, b)) <= StructuringCount(c, Recent(h, a))
  {
    if h == [] {
    } else {
      StructuringMonotone(c, h[1..], a, b);
      if h[0].timestamp >= a {
        assert Recent(h, a)[1..] == Recent(h[1..], a);
      }
      if h[0].timestamp >= b {
        assert Recent(h, b)[1..] == Recent(h[1..], b);
      }
    }
  }

  lemma LoggedStructuring(c: Config, h: seq<Transaction>, tx: Transaction, from: int)
    ensures StructuringCount(c, Recent(h + [tx], from)) ==
            StructuringCount(c, Recent(h, from)) +
            if tx.timestamp >= from && c.IsStructuringAmount(tx.amount) then 1 else 0
  {
    RecentConcat(h, [tx], from);
    StructuringConcat(c, Recent(h, from), Recent([tx], from));
  }

  /** `k` approvals so far, all of them in the log since `from`. */
  lemma {:induction false} ApprovedFrom(c: Config, log: Histories, events: seq<Event>, user: string, from: int, k: nat)
    requires k <= StructuringCount(c, Recent(HistoryOf(log, user), from))
    requires k <= MaxOf(0, c.triggerCount - 1)
    ensures k + Approved(c, events, LogRun(c, log, events), user, from) <= MaxOf(0, c.triggerCount - 1)
    decreases |events|
  {
    if events == [] {
    } else {
      var e := events[0];
      var h := HistoryOf(log, user);
      var (r, log') := LogStep(c, log, e);
      assert LogRun(c, log, events)[1..] == LogRun(c, log', events[1..]);
      LoggedStructuring(c, h, e.Tx(), from);
      if e.user == user && r.allowed && c.IsStructuringAmount(e.amount) && from <= e.now <= from + c.windowMs {
        StructuringMonotone(c, h, e.now - c.windowMs, from);
        ApprovedFrom(c, log', events[1..], user, from, k + 1);
      } else {
        ApprovedFrom(c, log', events[1..], user, from, k);
      }
    }
  }

  /** In every run, every closed interval of one window holds at most triggerCount - 1
      approved structuring transactions of a user (none if triggerCount is below one). */
  lemma StructuringIsBounded(c: Config, events: seq<Event>, start: int, user: string, from: int)
    requires Clocked(events, start)
    ensures Approved(c, events, StoreRun(c, map[], events), user, from) <= MaxOf(0, c.triggerCount - 1)
  {
    PruningIsUnobservable(c, events, start);
    ApprovedFrom(c, map[], events, user, from, 0);
  }

  // ----- The answers, without the checker -----

  /** The transactions of one user among the events, in order. */
  function Mine(events: seq<Event>, user: string): seq<Transaction> {
    if events == [] then []
    else if events[0].user == user then [events[0].Tx()] + Mine(events[1..], user)
    else Mine(events[1..], user)
  }

  lemma {:induction false} MineSnoc(events: seq<Event>, e: Event, user: string)
    ensures Mine(events + [e], user) == if e.user == user then Mine(events, user) + [e.Tx()] else Mine(events, user)
  {
    if events == [] {
      assert events + [e] == [e];
    } else {
      assert (events + [e])[0] == events[0] && (events + [e])[1..] == events[1..] + [e];
      MineSnoc(events[1..], e, user);
    }
  }

  function LogAfter(c: Config, log: Histories, events: seq<Event>): Histories
    decreases |events|
  {
    if events == [] then log else LogAfter(c, LogStep(c, log, events[0]).1, events[1..])
  }

  lemma {:induction false} LogAfterIsMine(c: Config, log: Histories, events: seq<Event>, user: string)
    ensures HistoryOf(LogAfter(c, log, events), user) == HistoryOf(log, user) + Mine(events, user)
    decreases |events|
  {
    if events == [] {
    } else {
      var e, log' := events[0], LogStep(c, log, events[0]).1;
      LogAfterIsMine(c, log', events[1..], user);
      if e.user == user {
        assert HistoryOf(log', user) == HistoryOf(log, user) + [e.Tx()];
        assert Mine(events, user) == [e.Tx()] + Mine(events[1..], user);
        assert HistoryOf(log, user) + [e.Tx()] + Mine(events[1..], user) == HistoryOf(log, user) + Mine(events, user);
      } else {
        assert HistoryOf(log', user) == HistoryOf(log, user);
      }
    }
  }

  lemma {:induction false} LogRunAt(c: Config, log: Histories, events: seq<Event>, k: nat)
    requires k < |events|
    ensures LogRun(c, log, events)[k] == LogStep(c, LogAfter(c, log, events[..k]), events[k]).0
    decreases |events|
  {
    if k == 0 {
    } else {
      LogRunAt(c, LogStep(c, log, events[0]).1, events[1..], k - 1);
      assert events[..k][1..] == events[1..][..k - 1] && events[..k][0] == events[0];
    }
  }

  /** The positions of a user's events since a time. */
  function Since(events: seq<Event>, user: string, time: int): set<int> {
    set i | 0 <= i < |events| && events[i].user == user && events[i].now >= time
  }

  /** Those among them whose amount is in [0.95 * threshold, threshold). */
  function StructuringSince(events: seq<Event>, user: string, time: int, threshold: real): set<int> {
    set i | 0 <= i < |events| && events[i].user == user && events[i].now >= time &&
            0.95 * threshold <= events[i].amount && events[i].amount < threshold
  }

  /** The sum of the amounts at these positions. */
  function TotalSince(events: seq<Event>, user: string, time: int): real
    decreases |events|
  {
    if events == [] then 0.0
    else
      var n := |events| - 1;
      TotalSince(events[..n], user, time) +
      if events[n].user == user && events[n].now >= time then events[n].amount else 0.0
  }

  lemma {:induction false} VolumeSnoc(h: seq<Transaction>, tx: Transaction)
    ensures Volume(h + [tx]) == Volume(h) + tx.amount
  {
    if h == [] {
      assert h + [tx] == [tx];
    } else {
      assert (h + [tx])[0] == h[0] && (h + [tx])[1..] == h[1..] + [tx];
      VolumeSnoc(h[1..], tx);
    }
  }

  lemma SinceSnoc(events: seq<Event>, e: Event, user: string, time: int, threshold: real)
    ensures |Since(events + [e], user, time)| ==
            |Since(events, user, time)| + if e.user == user && e.now >= time then 1 else 0
    ensures |StructuringSince(events + [e], user, time, threshold)| ==
            |StructuringSince(events, user, time, threshold)| +
            if e.user == user && e.now >= time && 0.95 * threshold <= e.amount < threshold then 1 else 0
  {
    var n := |events|;
    if e.user == user && e.now >= time {
      assert Since(events + [e], user, time) == Since(events, user, time) + {n};
    } else {
      assert Since(events + [e], user, time) == Since(events, user, time);
    }
    if e.user == user && e.now >= time && 0.95 * threshold <= e.amount < threshold {
      assert StructuringSince(events + [e], user, time, threshold) ==
             StructuringSince(events, user, time, threshold) + {n};
    } else {
      assert StructuringSince(events + [e], user, time, threshold) == StructuringSince(events, user, time, threshold);
    }
  }

  lemma WindowSnoc(events: seq<Event>, e: Event, user: string, time: int)
    ensures var w := Recent(Mine(events, user), time);
            Recent(Mine(events + [e], user), time) == if e.user == user && e.now >= time then w + [e.Tx()] else w
  {
    MineSnoc(events, e, user);
    RecentConcat(Mine(events, user), [e.Tx()], time);
    assert [e.Tx()][1..] == [];
  }

  /** What a window measures, and the same from the events alone. */
  predicate Measures(c: Config, w: seq<Transaction>, events: seq<Event>, user: string, time: int) {
    && |w| == |Since(events, user, time)|
    && StructuringCount(c, w) == |StructuringSince(events, user, time, c.threshold)|
    && Volume(w) == TotalSince(events, user, time)
  }

  lemma MeasuresSnoc(c: Config, w: seq<Transaction>, events: seq<Event>, e: Event, user: string, time: int)
    requires Measures(c, w, events, user, time)
    ensures Measures(c, if e.user == user && e.now >= time then w + [e.Tx()] else w, events + [e], user, time)
  {
    SinceSnoc(events, e, user, time, c.threshold);
    assert (events + [e])[..|events|] == events;
    VolumeSnoc(w, e.Tx());
    StructuringConcat(c, w, [e.Tx()]);
  }

  lemma {:induction false} WindowMeasures(c: Config, events: seq<Event>, user: string, time: int)
    ensures Measures(c, Recent(Mine(events, user), time), events, user, time)
    decreases |events|
  {
    if events == [] {
    } else {
      var n := |events| - 1;
      var rest, e := events[..n], events[n];
      assert events == rest + [e];
      WindowMeasures(c, rest, user, time);
      WindowSnoc(rest, e, user, time);
      MeasuresSnoc(c, Recent(Mine(rest, user), time), rest, e, user, time);
    }
  }

  /** Every answer of every run, from the events alone: the transactions of the user in the window
      before it and the current one are counted, summed up, and counted again as far as their
      amount is just below the threshold; the transaction is approved exactly if the last number
      is below the trigger. */
  lemma {:induction false} AnswersExactly(c: Config, events: seq<Event>, start: int, k: nat)
    requires Clocked(events, start) && k < |events|
    ensures var r := StoreRun(c, map[], events)[k];
            var before, e := events[..k], events[k];
            var time := e.now - c.windowMs;
            && r.windowCount == |Since(before, e.user, time)| + 1
            && r.windowVolume == TotalSince(before, e.user, time) + e.amount
            && r.structuringCount == |StructuringSince(before, e.user, time, c.threshold)| +
                                     (if 0.95 * c.threshold <= e.amount < c.threshold then 1 else 0)
            && (r.allowed <==> r.structuringCount < c.triggerCount)
  {
    var before, e := events[..k], events[k];
    var h := HistoryOf(LogAfter(c, map[], before), e.user);
    PruningIsUnobservable(c, events, start);
    LogRunAt(c, map[], events, k);
    LogAfterIsMine(c, map[], before, e.user);
    assert h == Mine(before, e.user);
    WindowMeasures(c, before, e.user, e.now - c.windowMs);
  }
}
