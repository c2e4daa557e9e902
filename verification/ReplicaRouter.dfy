/** Read-replica routing: round-robin over the replicas that are enabled and healthy, one
    replica at most per statement, and the primary for everything else. */
module ReplicaRouter {
  import opened Prelude

  datatype Status = Status(enabled: bool, healthy: bool) {
    predicate Active() { enabled && healthy }
  }

  /** The active replicas among those from `from` on, by index. */
  function ActiveFrom(statuses: seq<Status>, from: nat): seq<nat>
    requires from <= |statuses|
    decreases |statuses| - from
  {
    if from == |statuses| then []
    else (if statuses[from].Active() then [from] else []) + ActiveFrom(statuses, from + 1)
  }

  function ActiveIndices(statuses: seq<Status>): seq<nat> { ActiveFrom(statuses, 0) }

  lemma {:induction false} ActiveFromMembers(statuses: seq<Status>, from: nat)
    requires from <= |statuses|
    ensures forall i :: i in ActiveFrom(statuses, from) <==>
              from <= i < |statuses| && statuses[i].enabled && statuses[i].healthy
    ensures forall i, j :: 0 <= i < j < |ActiveFrom(statuses, from)| ==>
              ActiveFrom(statuses, from)[i] < ActiveFrom(statuses, from)[j]
    decreases |statuses| - from
  {
    if from < |statuses| {
      ActiveFromMembers(statuses, from + 1);
      var rest := ActiveFrom(statuses, from + 1);
      assert forall j :: 0 <= j < |rest| ==> rest[j] in rest;
    }
  }

  /** How a statement fares on a replica. */
  datatype Attempt = Served | StatementError | ConnectFailed | ConnectionLost {
    predicate Unreachable() { ConnectFailed? || ConnectionLost? }
  }

  datatype Router = Router(statuses: seq<Status>, index: nat)

  /** The next replica in turn, if any is active. */
  function Pick(r: Router): (Router, Option<nat>) {
    var active := ActiveIndices(r.statuses);
    if |active| == 0 then (r, None)
    else (r.(index := r.index + 1), Some(active[r.index % |active|]))
  }

  function MarkUnavailable(r: Router, i: nat): Router {
    if i < |r.statuses| then r.(statuses := r.statuses[i := Status(false, false)]) else r
  }

  /** What the end of a try does: a replica that cannot be reached leaves the rotation, one that
      rejects the statement stays. */
  function Settle(r: Router, i: nat, attempt: Attempt): Router {
    if attempt.Unreachable() then MarkUnavailable(r, i) else r
  }

  /** Where a statement was sent, in order. */
  datatype Target = Replica(i: nat) | Primary

  /** One undisturbed try on a replica; `true` means that it answered. */
  function QueryReplica(r: Router, attempt: Attempt): (Router, seq<Target>, bool) {
    var (r1, i) := Pick(r);
    if i.None? then (r1, [], false)
    else (Settle(r1, i.value, attempt), [Replica(i.value)], attempt.Served?)
  }

  /** A read: a replica if one answers, the primary otherwise. */
  function QueryRead(r: Router, attempt: Attempt): (Router, seq<Target>) {
    var (r1, tried, served) := QueryReplica(r, attempt);
    (r1, if served then tried else tried + [Primary])
  }

  /** What `pool.query` looks at besides the statement. */
  datatype Context = Context(routeGets: bool, callbackStyle: bool, useReplicaPool: bool)

  /** `pool.query`, `querySmart`, and `queryWithContext` with the request's routing decision, if
      there is a request. */
  datatype EntryPoint = Pool(ctx: Context) | Smart | WithContext(routing: Option<bool>)

  datatype Statement = Statement(text: string, via: EntryPoint)

  /** Whether a statement is meant for a replica. */
  predicate ToReplica(readOnly: string -> bool, replicas: nat, q: Statement) {
    match q.via
    case Pool(ctx) => ctx.routeGets && replicas > 0 && !ctx.callbackStyle && ctx.useReplicaPool && readOnly(q.text)
    case Smart => readOnly(q.text)
    case WithContext(routing) => if routing.Some? then routing.value && readOnly(q.text) else readOnly(q.text)
  }

  // ----- The module's state -----

  class ReplicaPool {
    var replicaStatuses: seq<Status>
    var replicaIndex: nat

    constructor (replicas: nat)
      ensures replicaStatuses == seq(replicas, _ => Status(true, true)) && replicaIndex == 0
    {
      replicaStatuses, replicaIndex := seq(replicas, _ => Status(true, true)), 0;
    }

    ghost function Contents(): Router
      reads this
    {
      Router(replicaStatuses, replicaIndex)
    }

    method GetNextReplicaIndex() returns (i: Option<nat>)
      modifies this
      ensures (Contents(), i) == Pick(old(Contents()))
    {
      var active := ActiveIndices(replicaStatuses);
      if |active| == 0 {
        return None;
      }
      i := Some(active[replicaIndex % |active|]);
      replicaIndex := replicaIndex + 1;
    }

    method MarkReplicaUnavailable(i: nat)
      modifies this
      ensures Contents() == MarkUnavailable(old(Contents()), i)
    {
      if i < |replicaStatuses| {
        replicaStatuses := replicaStatuses[i := Status(false, false)];
      }
    }

    /** What follows the `await`s of a try, when others may have changed the statuses. */
    method FinishTry(i: nat, attempt: Attempt) returns (served: bool)
      modifies this
      ensures Contents() == Settle(old(Contents()), i, attempt) && served == attempt.Served?
    {
      served := attempt.Served?;
      if attempt.ConnectFailed? || attempt.ConnectionLost? {
        MarkReplicaUnavailable(i);
      }
    }

    method TryReplica(attempt: Attempt) returns (tried: seq<Target>, served: bool)
      modifies this
      ensures (Contents(), tried, served) == QueryReplica(old(Contents()), attempt)
    {
      var i := GetNextReplicaIndex();
      if i.None? {
        return [], false;
      }
      tried := [Replica(i.value)];
      served := FinishTry(i.value, attempt);
    }
  }

  // ----- Routing -----

  predicate IsActive(r: Router, i: nat) { i < |r.statuses| && r.statuses[i].Active() }

  /** A statement visits at most one replica, active when picked, and ends on the primary
      unless that replica answered. */
  predicate GoodRoute(r: Router, route: seq<Target>, served: bool) {
    || route == [Primary]
    || (|route| == 1 && route[0].Replica? && served && IsActive(r, route[0].i))
    || (|route| == 2 && route[0].Replica? && !served && IsActive(r, route[0].i) && route[1] == Primary)
  }

  lemma PickIsActive(r: Router)
    ensures Pick(r).1.None? <==> forall i :: 0 <= i < |r.statuses| ==> !r.statuses[i].Active()
    ensures Pick(r).1.Some? ==> IsActive(r, Pick(r).1.value)
  {
    var a := ActiveIndices(r.statuses);
    ActiveFromMembers(r.statuses, 0);
    if a == [] {
      forall i | 0 <= i < |r.statuses|
        ensures !r.statuses[i].Active()
      {
        assert i !in a;
      }
    } else {
      assert a[r.index % |a|] in a && a[0] in a;
    }
  }

  lemma ReadRoute(r: Router, attempt: Attempt)
    ensures GoodRoute(r, QueryRead(r, attempt).1, attempt.Served?)
    ensures QueryRead(r, attempt).1 == [Primary] <==> forall i :: 0 <= i < |r.statuses| ==> !r.statuses[i].Active()
  {
    PickIsActive(r);
  }

  // ----- Interleaved statements -----

  /** Statements are cut at their `await`s and numbered as they are asked. `inFlight` maps those
      on a replica to it; `visits` is where statements were sent, in order. */
  datatype System = System(
    readOnly: string -> bool, router: Router, inFlight: map<nat, nat>,
    asked: seq<Statement>, visits: seq<(nat, Target)>)

  /** The lag monitor may set the status of a replica at any time. */
  datatype Event = Begin(q: Statement) | End(task: nat, attempt: Attempt) | Refresh(i: nat, status: Status)

  predicate Enabled(s: System, e: Event) {
    match e
    case Begin(_) => true
    case End(task, _) => task in s.inFlight
    case Refresh(i, _) => i < |s.router.statuses|
  }

  /** The replica that an event picks. */
  function PickedBy(s: System, e: Event): Option<nat> {
    if e.Begin? && ToReplica(s.readOnly, |s.router.statuses|, e.q) then Pick(s.router).1 else None
  }

  function Do(s: System, e: Event): System
    requires Enabled(s, e)
  {
    match e
    case Begin(q) =>
      var task, i := |s.asked|, PickedBy(s, e);
      if i.None? then s.(asked := s.asked + [q], visits := s.visits + [(task, Primary)])
      else s.(router := Pick(s.router).0, inFlight := s.inFlight[task := i.value], asked := s.asked + [q],
              visits := s.visits + [(task, Replica(i.value))])
    case End(task, attempt) =>
      s.(router := Settle(s.router, s.inFlight[task], attempt), inFlight := s.inFlight - {task},
         visits := if attempt.Served? then s.visits else s.visits + [(task, Primary)])
    case Refresh(i, status) => s.(router := s.router.(statuses := s.router.statuses[i := status]))
  }

  predicate Schedulable(s: System, events: seq<Event>)
    decreases |events|
  {
    events == [] || (Enabled(s, events[0]) && Schedulable(Do(s, events[0]), events[1..]))
  }

  /** The replicas picked along a schedule, each with whether it was active then. */
  function Picked(s: System, events: seq<Event>): seq<(nat, bool)>
    requires Schedulable(s, events)
    decreases |events|
  {
    if events == [] then []
    else
      var i := PickedBy(s, events[0]);
      (if i.Some? then [(i.value, IsActive(s.router, i.value))] else []) + Picked(Do(s, events[0]), events[1..])
  }

  /** In every interleaving, whatever is picked is active when it is picked. */
  lemma {:induction false} PicksAreActive(s: System, events: seq<Event>)
    requires Schedulable(s, events)
    ensures forall p :: p in Picked(s, events) ==> p.1
    decreases |events|
  {
    if events == [] {
    } else {
      PickIsActive(s.router);
      PicksAreActive(Do(s, events[0]), events[1..]);
    }
  }

  lemma InactiveStays(s: System, e: Event, i: nat)
    requires Enabled(s, e) && !IsActive(s.router, i) && !(e.Refresh? && e.i == i)
    ensures !IsActive(Do(s, e).router, i)
  {
  }

  /** A replica out of the rotation is not picked until the monitor sets its status. */
  lemma {:induction false} InactiveIsNotPicked(s: System, events: seq<Event>, i: nat)
    requires Schedulable(s, events) && !IsActive(s.router, i)
    requires forall k :: 0 <= k < |events| && events[k].Refresh? ==> events[k].i != i
    ensures forall p :: p in Picked(s, events) ==> p.0 != i
    decreases |events|
  {
    if events == [] {
    } else {
      PickIsActive(s.router);
      InactiveStays(s, events[0], i);
      InactiveIsNotPicked(Do(s, events[0]), events[1..], i);
    }
  }

  /** A try that cannot reach its replica takes it out of the rotation, and no other: in every
      interleaving from then on it is not picked until the monitor sets its status. */
  lemma UnreachableLeavesRotation(s: System, task: nat, attempt: Attempt, events: seq<Event>)
    requires task in s.inFlight && (attempt == ConnectFailed || attempt == ConnectionLost)
    requires var s1 := Do(s, End(task, attempt));
             Schedulable(s1, events) &&
             forall k :: 0 <= k < |events| && events[k].Refresh? ==> events[k].i != s.inFlight[task]
    ensures var s1 := Do(s, End(task, attempt));
            && (s.inFlight[task] < |s.router.statuses| ==>
                  var status := s1.router.statuses[s.inFlight[task]]; !status.enabled && !status.healthy)
            && (forall p :: p in Picked(s1, events) ==> p.0 != s.inFlight[task])
            && (forall j :: j != s.inFlight[task] ==> (IsActive(s1.router, j) <==> IsActive(s.router, j)))
  {
    InactiveIsNotPicked(Do(s, End(task, attempt)), events, s.inFlight[task]);
  }

  // ----- Where statements go -----

  /** Where one statement was sent, in order. */
  function RouteOf(visits: seq<(nat, Target)>, task: nat): seq<Target>
    decreases |visits|
  {
    if visits == [] then []
    else
      var rest, last := RouteOf(visits[..|visits| - 1], task), visits[|visits| - 1];
      if last.0 == task then rest + [last.1] else rest
  }

  lemma RouteSnoc(visits: seq<(nat, Target)>, v: (nat, Target), task: nat)
    ensures RouteOf(visits + [v], task) == if v.0 == task then RouteOf(visits, task) + [v.1] else RouteOf(visits, task)
  {
    assert (visits + [v])[..|visits|] == visits;
  }

  /** At most one replica, and then the primary unless the replica answered. */
  predicate Finished(route: seq<Target>) {
    || route == [Primary]
    || (|route| == 1 && route[0].Replica?)
    || (|route| == 2 && route[0].Replica? && route[1] == Primary)
  }

  predicate RouteOk(s: System, task: nat) {
    var route := RouteOf(s.visits, task);
    if task >= |s.asked| then route == [] && task !in s.inFlight
    else
      && (task in s.inFlight ==> route == [Replica(s.inFlight[task])])
      && (task !in s.inFlight ==> Finished(route))
      && (s.readOnly(s.asked[task].text) || route == [Primary])
  }

  ghost predicate RoutesOk(s: System) { forall task: nat :: RouteOk(s, task) }

  lemma DoKeepsRoute(s: System, e: Event, task: nat)
    requires Enabled(s, e) && RouteOk(s, task) && (e.End? ==> RouteOk(s, e.task))
    ensures RouteOk(Do(s, e), task)
  {
    match e
    case Begin(q) =>
      var i := PickedBy(s, e);
      RouteSnoc(s.visits, (|s.asked|, if i.Some? then Replica(i.value) else Primary), task);
    case End(t, attempt) => RouteSnoc(s.visits, (t, Primary), task);
    case Refresh(_, _) =>
  }

  function Run(s: System, events: seq<Event>): System
    requires Schedulable(s, events)
    decreases |events|
  {
    if events == [] then s else Run(Do(s, events[0]), events[1..])
  }

  lemma {:induction false} RunKeepsRoutes(s: System, events: seq<Event>)
    requires Schedulable(s, events) && RoutesOk(s)
    ensures RoutesOk(Run(s, events))
    decreases |events|
  {
    if events == [] {
    } else {
      forall task: nat
        ensures RouteOk(Do(s, events[0]), task)
      {
        assert events[0].End? ==> RouteOk(s, events[0].task);
        DoKeepsRoute(s, events[0], task);
      }
      RunKeepsRoutes(Do(s, events[0]), events[1..]);
    }
  }

  function Fresh(readOnly: string -> bool, router: Router): System { System(readOnly, router, map[], [], []) }

  /** In every interleaving, through all three entry points: whatever is in flight on a replica is
      read-only, a statement that is not goes to the primary alone, and every other one visits at
      most one replica, and then the primary unless the replica answered. */
  lemma WritesNeverReachReplica(readOnly: string -> bool, router: Router, events: seq<Event>, task: nat)
    requires Schedulable(Fresh(readOnly, router), events)
    ensures var s := Run(Fresh(readOnly, router), events);
            var route := RouteOf(s.visits, task);
            && (task in s.inFlight ==>
                  task < |s.asked| && s.readOnly(s.asked[task].text) && route == [Replica(s.inFlight[task])])
            && (task < |s.asked| && task !in s.inFlight ==> Finished(route))
            && (task < |s.asked| && !s.readOnly(s.asked[task].text) ==> route == [Primary])
  {
    assert RoutesOk(Fresh(readOnly, router));
    RunKeepsRoutes(Fresh(readOnly, router), events);
    assert RouteOk(Run(Fresh(readOnly, router), events), task);
  }

  /** Undisturbed, a statement meant for a replica takes the route of a read. */
  lemma UndisturbedRoute(s: System, q: Statement, attempt: Attempt)
    requires RouteOk(s, |s.asked|) && ToReplica(s.readOnly, |s.router.statuses|, q)
    ensures var t := Do(s, Begin(q));
            var u := if |s.asked| in t.inFlight then Do(t, End(|s.asked|, attempt)) else t;
            u.router == QueryRead(s.router, attempt).0 && RouteOf(u.visits, |s.asked|) == QueryRead(s.router, attempt).1
  {
    var task, i, t := |s.asked|, PickedBy(s, Begin(q)), Do(s, Begin(q));
    if i.None? {
      RouteSnoc(s.visits, (task, Primary), task);
    } else {
      RouteSnoc(s.visits, (task, Replica(i.value)), task);
      RouteSnoc(t.visits, (task, Primary), task);
      assert t.inFlight[task] == i.value && RouteOf(t.visits, task) == [Replica(i.value)];
    }
  }

  /** Exactly which statements go to a replica at all: read-only ones, while some replica is
      active, unless the request reads from the primary or, through `pool.query`, replica routing
      is off, there is a callback, or the request has no use for replicas. */
  lemma ReadsReachReplica(s: System, q: Statement)
    ensures (exists i: nat :: Do(s, Begin(q)).visits == s.visits + [(|s.asked|, Replica(i))]) <==>
            && s.readOnly(q.text)
            && (exists i: nat :: IsActive(s.router, i))
            && q.via != WithContext(Some(false))
            && (q.via.Pool? ==> q.via.ctx == Context(true, false, true))
  {
    PickIsActive(s.router);
    var t, i := Do(s, Begin(q)), PickedBy(s, Begin(q));
    assert t.visits == s.visits + [(|s.asked|, if i.Some? then Replica(i.value) else Primary)];
    assert t.visits[|s.visits|].1.Replica? <==> i.Some?;
    if j: nat :| IsActive(s.router, j) {
      assert s.router.statuses[j].Active();
    }
  }

  /** The end of a try changes the active replicas only if its replica could not be reached: one
      that served the statement or rejected it stays. */
  lemma AnsweringReplicaStays(s: System, task: nat, attempt: Attempt)
    requires task in s.inFlight && (attempt == Served || attempt == StatementError)
    ensures Do(s, End(task, attempt)).router == s.router
  {
  }

  // ----- Round robin -----

  lemma WrapAround(index: nat, k: nat, n: nat)
    requires k < n
    ensures (index + k) % n == if index % n + k < n then index % n + k else index % n + k - n
  {
    var q, s := index / n, index % n;
    assert index == q * n + s;
    if s + k < n {
      Division(index + k, n, q, s + k);
    } else {
      assert (q + 1) * n == q * n + n;
      Division(index + k, n, q + 1, s + k - n);
    }
  }

  /** The replica whose turn it is `k` picks after `index`. */
  function InTurn(active: seq<nat>, index: nat, k: nat): nat
    requires active != []
  {
    active[(index + k) % |active|]
  }

  /** The active replicas stay the same along a schedule. */
  predicate Steady(s: System, events: seq<Event>)
    requires Schedulable(s, events)
    decreases |events|
  {
    events == [] ||
    var t := Do(s, events[0]);
    ActiveIndices(t.router.statuses) == ActiveIndices(s.router.statuses) && Steady(t, events[1..])
  }

  lemma {:induction false} PickedInTurn(s: System, events: seq<Event>, k: nat)
    requires Schedulable(s, events) && Steady(s, events) && k < |Picked(s, events)|
    requires ActiveIndices(s.router.statuses) != []
    ensures Picked(s, events)[k].0 == InTurn(ActiveIndices(s.router.statuses), s.router.index, k)
    decreases |events|
  {
    var t := Do(s, events[0]);
    if PickedBy(s, events[0]).None? {
      PickedInTurn(t, events[1..], k);
    } else if k > 0 {
      PickedInTurn(t, events[1..], k - 1);
    }
  }

  function Moved(active: seq<nat>): (r: seq<nat>)
    requires active != []
    ensures |r| == |active|
  {
    active[1..] + active[..1]
  }

  /** The replicas in the order of their turns: each turn moves the first one to the end. */
  function Rotation(active: seq<nat>, index: nat): (r: seq<nat>)
    requires active != []
    ensures |r| == |active|
    decreases index
  {
    if index == 0 then active else Rotation(Moved(active), index - 1)
  }

  lemma {:induction false} RotationIsPermutation(active: seq<nat>, index: nat)
    requires active != []
    ensures multiset(Rotation(active, index)) == multiset(active)
    decreases index
  {
    if index == 0 {
    } else {
      RotationIsPermutation(Moved(active), index - 1);
      assert active == active[..1] + active[1..];
    }
  }

  lemma {:induction false} CountInAscending(q: seq<nat>, x: nat)
    requires forall i, j :: 0 <= i < j < |q| ==> q[i] < q[j]
    ensures multiset(q)[x] == if x in q then 1 else 0
  {
    if q == [] {
    } else {
      CountInAscending(q[1..], x);
      assert q == [q[0]] + q[1..];
      assert q[0] !in q[1..];
    }
  }

  lemma NextRemainder(x: nat, n: nat)
    requires n > 0
    ensures (x + 1) % n == if x % n + 1 < n then x % n + 1 else 0
  {
    if n == 1 {
      Division(x + 1, 1, x + 1, 0);
    } else {
      WrapAround(x, 1, n);
    }
  }

  lemma MovedInTurn(active: seq<nat>, index: nat, k: nat)
    requires active != [] && index > 0
    ensures InTurn(Moved(active), index - 1, k) == InTurn(active, index, k)
  {
    var x, n := index - 1 + k, |active|;
    NextRemainder(x, n);
    assert x + 1 == index + k;
  }

  lemma FirstInTurn(active: seq<nat>, k: nat)
    requires k < |active|
    ensures InTurn(active, 0, k) == active[k]
  {
    Division(k, |active|, 0, k);
  }

  lemma {:induction false} RotationInTurn(active: seq<nat>, index: nat, k: nat)
    requires k < |active|
    ensures Rotation(active, index)[k] == InTurn(active, index, k)
    decreases index
  {
    if index == 0 {
      FirstInTurn(active, k);
    } else {
      var moved := Moved(active);
      RotationInTurn(moved, index - 1, k);
      MovedInTurn(active, index, k);
    }
  }

  lemma RotationCounts(statuses: seq<Status>, index: nat, i: nat)
    requires ActiveIndices(statuses) != [] && i < |statuses|
    ensures multiset(Rotation(ActiveIndices(statuses), index))[i] == if statuses[i].Active() then 1 else 0
  {
    var a := ActiveIndices(statuses);
    RotationIsPermutation(a, index);
    ActiveFromMembers(statuses, 0);
    CountInAscending(a, i);
  }

  /** The replicas of `n` picks in a row. */
  function Window(picked: seq<(nat, bool)>, from: nat, n: nat): seq<nat>
    requires from + n <= |picked|
  {
    seq(n, k requires 0 <= k < n => picked[from + k].0)
  }

  lemma WindowIs(picked: seq<(nat, bool)>, from: nat, q: seq<nat>)
    requires from + |q| <= |picked| && forall k :: 0 <= k < |q| ==> picked[from + k].0 == q[k]
    ensures Window(picked, from, |q|) == q
  {
  }

  lemma PickedInRotation(s: System, events: seq<Event>, from: nat, k: nat)
    requires Schedulable(s, events) && Steady(s, events) && k < |ActiveIndices(s.router.statuses)|
    requires from + k < |Picked(s, events)|
    ensures Picked(s, events)[from + k].0 == Rotation(ActiveIndices(s.router.statuses), s.router.index + from)[k]
  {
    PickedInTurn(s, events, from + k);
    RotationInTurn(ActiveIndices(s.router.statuses), s.router.index + from, k);
    assert s.router.index + (from + k) == s.router.index + from + k;
  }

  predicate EachOnce(window: seq<nat>, statuses: seq<Status>) {
    forall i: nat :: i < |statuses| ==> multiset(window)[i] == if statuses[i].Active() then 1 else 0
  }

  lemma RotationEachOnce(statuses: seq<Status>, index: nat)
    requires ActiveIndices(statuses) != []
    ensures EachOnce(Rotation(ActiveIndices(statuses), index), statuses)
  {
    forall i: nat | i < |statuses|
      ensures multiset(Rotation(ActiveIndices(statuses), index))[i] == if statuses[i].Active() then 1 else 0
    {
      RotationCounts(statuses, index, i);
    }
  }

  /** In every interleaving along which the n active replicas stay the same, any n picks in a
      row are these replicas, each exactly once, in order from wherever the turn stands. */
  lemma RoundRobin(s: System, events: seq<Event>, from: nat)
    requires Schedulable(s, events) && Steady(s, events) && ActiveIndices(s.router.statuses) != []
    requires from + |ActiveIndices(s.router.statuses)| <= |Picked(s, events)|
    ensures var a := ActiveIndices(s.router.statuses);
            var window := Window(Picked(s, events), from, |a|);
            window == Rotation(a, s.router.index + from) && EachOnce(window, s.router.statuses)
  {
    var rotation := Rotation(ActiveIndices(s.router.statuses), s.router.index + from);
    forall k | 0 <= k < |rotation|
      ensures Picked(s, events)[from + k].0 == rotation[k]
    {
      PickedInRotation(s, events, from, k);
    }
    WindowIs(Picked(s, events), from, rotation);
    RotationEachOnce(s.router.statuses, s.router.index + from);
  }
}
