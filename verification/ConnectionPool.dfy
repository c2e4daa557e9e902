/** The Redis connection pool. Every method is cut at its `await`, so that a run is an
    arbitrary interleaving of atomic steps: callers, landing connections, close events. */
module ConnectionPool {
  import opened Prelude

  /** Identity of a client object; objects are numbered as they are created. */
  type Conn = nat

  /** Why a connection is being created. `ForInit` carries the number of connections that its
      `initialize` call still has to create afterwards. */
  datatype Purpose = ForInit(left: nat) | ForBorrower | Replacement

  /** `creating` holds the clients between their construction and the step that stores them;
      `peak` is the largest number of simultaneous creations so far. */
  datatype State = State(
    pool: seq<Conn>, available: seq<Conn>, inUse: set<Conn>, initialized: bool,
    creating: map<Conn, Purpose>, next: Conn, waiting: nat, peak: nat)

  const EMPTY := State([], [], {}, false, map[], 0, 0, 0)

  datatype Limits = Limits(maxConnections: int, minConnections: int) {
    /** The constructor's adjustment. */
    static function Make(max: int, min: int): Limits { Limits(MaxOf(max, min), MaxOf(min, 1)) }

    predicate Valid() { minConnections >= 1 }

    function Top(): int { MaxOf(maxConnections, minConnections) }
  }

  /** The adjusted limits hold what was asked for, as far as it makes sense: at least one
      connection, and room for the minimum. */
  lemma LimitsAdjusted(max: int, min: int)
    ensures var l := Limits.Make(max, min);
            && l.Valid() && l.minConnections >= min && (min >= 1 ==> l.minConnections == min)
            && (min <= 1 ==> l.minConnections == 1)
            && l.maxConnections >= max && l.maxConnections >= min
            && (l.maxConnections == max || l.maxConnections == min)
  {
  }

  // ----- Atomic steps -----

  function Create(s: State, p: Purpose): State {
    var creating := s.creating[s.next := p];
    s.(creating := creating, next := s.next + 1, peak := MaxOf(s.peak, |creating|))
  }

  function RemoveFirst(q: seq<Conn>, c: Conn): seq<Conn> {
    if q == [] then [] else if q[0] == c then q[1..] else [q[0]] + RemoveFirst(q[1..], c)
  }

  /** What lies behind the first occurrence, or the end, moves up. */
  lemma {:induction false} RemoveFirstAt(q: seq<Conn>, c: Conn, i: nat)
    requires i <= |q| && (forall j :: 0 <= j < i ==> q[j] != c) && (i < |q| ==> q[i] == c)
    ensures RemoveFirst(q, c) == if i < |q| then q[..i] + q[i + 1..] else q
    decreases |q|
  {
    if i == 0 {
    } else {
      RemoveFirstAt(q[1..], c, i - 1);
      assert q == [q[0]] + q[1..];
      assert i < |q| ==> q[..i] == [q[0]] + q[1..][..i - 1] && q[i + 1..] == q[1..][i..];
    }
  }

  function Detach(s: State, c: Conn): State {
    s.(pool := RemoveFirst(s.pool, c), available := RemoveFirst(s.available, c), inUse := s.inUse - {c})
  }

  /** The synchronous part of `removeConnection`, which may start a replacement. */
  function Remove(l: Limits, s: State, c: Conn): State {
    var t := Detach(s, c);
    if |t.pool| < l.minConnections then Create(t, Replacement) else t
  }

  /** Hands out the most recently returned connection. */
  function Lease(s: State): State
    requires s.available != []
  {
    var c := s.available[|s.available| - 1];
    s.(available := s.available[..|s.available| - 1], inUse := s.inUse + {c})
  }

  function Return(s: State, c: Conn): State { s.(inUse := s.inUse - {c}, available := s.available + [c]) }

  /** The creation of `c` is over, one way or the other. */
  function Forget(s: State, c: Conn): State { s.(creating := s.creating - {c}) }

  function StoreAvailable(s: State, c: Conn): State { s.(pool := s.pool + [c], available := s.available + [c]) }

  function StoreUsed(s: State, c: Conn): State { s.(pool := s.pool + [c], inUse := s.inUse + {c}) }

  /** One round of the initialisation loop, up to the next `await`. */
  function InitLands(s: State, c: Conn, left: nat): State {
    if left > 0 then Create(StoreAvailable(s, c), ForInit(left - 1)) else StoreAvailable(s, c).(initialized := true)
  }

  datatype Op =
    | Initialize
    | Get
    | Land(c: Conn)
    | CreationFails(c: Conn)
    | Poll
    | TimeOut
    | Release(c: Conn, ready: bool)
    | Close(c: Conn)
    | Shutdown

  /** Only what is in flight can land, only a waiting caller can poll, and only an existing
      client can close. */
  predicate Enabled(s: State, op: Op) {
    match op
    case Initialize => true
    case Get => true
    case Land(c) => c in s.creating
    case CreationFails(c) => c in s.creating
    case Poll => s.waiting > 0 && s.available != []
    case TimeOut => s.waiting > 0
    case Release(_, _) => true
    case Close(c) => c < s.next
    case Shutdown => true
  }

  function Step(l: Limits, s: State, op: Op): State
    requires l.Valid() && Enabled(s, op)
  {
    match op
    case Initialize => if s.initialized then s else Create(s, ForInit(l.minConnections - 1))
    case Get =>
      if !s.initialized then s
      else if s.available != [] then Lease(s)
      else if |s.pool| < l.maxConnections then Create(s, ForBorrower)
      else s.(waiting := s.waiting + 1)
    case Land(c) =>
      (match s.creating[c]
       case ForInit(left) => InitLands(Forget(s, c), c, left)
       case ForBorrower => StoreUsed(Forget(s, c), c)
       case Replacement => StoreAvailable(Forget(s, c), c))
    case CreationFails(c) => Forget(s, c)
    case Poll => Lease(s.(waiting := s.waiting - 1))
    case TimeOut => s.(waiting := s.waiting - 1)
    case Release(c, ready) =>
      if c !in s.inUse then s
      else if ready then Return(s, c)
      else Remove(l, s.(inUse := s.inUse - {c}), c)
    case Close(c) => Remove(l, s, c)
    case Shutdown => s.(pool := [], available := [], inUse := {})
  }

  /** Whether every operation of a schedule is enabled when its turn comes. */
  predicate Schedulable(l: Limits, s: State, ops: seq<Op>)
    requires l.Valid()
    decreases |ops|
  {
    ops == [] || (Enabled(s, ops[0]) && Schedulable(l, Step(l, s, ops[0]), ops[1..]))
  }

  function Run(l: Limits, s: State, ops: seq<Op>): State
    requires l.Valid() && Schedulable(l, s, ops)
    decreases |ops|
  {
    if ops == [] then s else Run(l, Step(l, s, ops[0]), ops[1..])
  }

  // ----- What every step keeps -----

  predicate NoDuplicates(q: seq<Conn>) { forall i, j :: 0 <= i < j < |q| ==> q[i] != q[j] }

  /** The pool is the disjoint union of the available and the used connections, without
      duplicates; clients in creation are not stored yet. */
  ghost predicate Consistent(s: State) {
    && NoDuplicates(s.pool) && NoDuplicates(s.available)
    && (forall c :: c in s.pool <==> c in s.available || c in s.inUse)
    && (forall c :: c in s.available ==> c !in s.inUse)
    && (forall c :: c in s.creating ==> c !in s.pool && c < s.next)
    && (forall c :: c in s.pool ==> c < s.next)
  }

  lemma {:induction false} RemoveFirstMembers(q: seq<Conn>, c: Conn)
    requires NoDuplicates(q)
    ensures NoDuplicates(RemoveFirst(q, c))
    ensures forall d :: d in RemoveFirst(q, c) <==> d in q && d != c
    ensures |RemoveFirst(q, c)| == if c in q then |q| - 1 else |q|
  {
    if q == [] {
    } else {
      assert q == [q[0]] + q[1..];
      assert q[0] !in q[1..] by {
        assert forall i :: 0 <= i < |q[1..]| ==> q[1..][i] == q[i + 1] != q[0];
      }
      if q[0] != c {
        RemoveFirstMembers(q[1..], c);
        var rest := RemoveFirst(q[1..], c);
        assert q[0] !in rest;
      }
    }
  }

  lemma CreateConsistent(s: State, p: Purpose)
    requires Consistent(s)
    ensures Consistent(Create(s, p))
  {
  }

  lemma DetachConsistent(s: State, c: Conn)
    requires Consistent(s)
    ensures Consistent(Detach(s, c)) && c !in Detach(s, c).pool
    ensures |Detach(s, c).pool| <= |s.pool|
  {
    RemoveFirstMembers(s.pool, c);
    RemoveFirstMembers(s.available, c);
  }

  lemma RemoveConsistent(l: Limits, s: State, c: Conn)
    requires Consistent(s)
    ensures Consistent(Remove(l, s, c))
  {
    DetachConsistent(s, c);
    CreateConsistent(Detach(s, c), Replacement);
  }

  lemma LeaseConsistent(s: State)
    requires Consistent(s) && s.available != []
    ensures Consistent(Lease(s))
  {
  }

  lemma ReturnConsistent(s: State, c: Conn)
    requires Consistent(s) && c in s.inUse
    ensures Consistent(Return(s, c))
  {
  }

  /** Whether the connection was marked as used before makes no difference to its removal. */
  lemma DiscardIsRemove(l: Limits, s: State, c: Conn)
    ensures Remove(l, s.(inUse := s.inUse - {c}), c) == Remove(l, s, c)
  {
    assert s.inUse - {c} - {c} == s.inUse - {c};
  }

  /** A client that is not stored anywhere yet. */
  ghost predicate Unknown(s: State, c: Conn) {
    c !in s.pool && c !in s.creating && c < s.next
  }

  lemma ForgetConsistent(s: State, c: Conn)
    requires Consistent(s) && c in s.creating
    ensures Consistent(Forget(s, c)) && Unknown(Forget(s, c), c)
  {
  }

  lemma StoreAvailableConsistent(s: State, c: Conn)
    requires Consistent(s) && Unknown(s, c)
    ensures Consistent(StoreAvailable(s, c))
  {
  }

  lemma StoreUsedConsistent(s: State, c: Conn)
    requires Consistent(s) && Unknown(s, c)
    ensures Consistent(StoreUsed(s, c))
  {
  }

  lemma InitLandsConsistent(s: State, c: Conn, left: nat)
    requires Consistent(s) && Unknown(s, c)
    ensures Consistent(InitLands(s, c, left))
  {
    StoreAvailableConsistent(s, c);
    if left > 0 {
      CreateConsistent(StoreAvailable(s, c), ForInit(left - 1));
    }
  }

  lemma LandConsistent(l: Limits, s: State, c: Conn)
    requires l.Valid() && Consistent(s) && c in s.creating
    ensures Consistent(Step(l, s, Land(c)))
  {
    ForgetConsistent(s, c);
    match s.creating[c]
    case ForInit(left) => InitLandsConsistent(Forget(s, c), c, left);
    case ForBorrower => StoreUsedConsistent(Forget(s, c), c);
    case Replacement => StoreAvailableConsistent(Forget(s, c), c);
  }

  lemma StepConsistent(l: Limits, s: State, op: Op)
    requires l.Valid() && Enabled(s, op) && Consistent(s)
    ensures Consistent(Step(l, s, op))
  {
    match op
    case Initialize => CreateConsistent(s, ForInit(l.minConnections - 1));
    case Get =>
      if s.available != [] {
        LeaseConsistent(s);
      }
      CreateConsistent(s, ForBorrower);
    case Land(c) => LandConsistent(l, s, c);
    case CreationFails(c) => ForgetConsistent(s, c);
    case Poll => LeaseConsistent(s.(waiting := s.waiting - 1));
    case TimeOut =>
    case Release(c, ready) =>
      if c in s.inUse && ready {
        ReturnConsistent(s, c);
      } else {
        DiscardIsRemove(l, s, c);
        RemoveConsistent(l, s, c);
      }
    case Close(c) => RemoveConsistent(l, s, c);
    case Shutdown =>
  }

  /** In every interleaving, from the empty pool on, the pool is consistent. */
  lemma {:induction false} RunConsistent(l: Limits, s: State, ops: seq<Op>)
    requires l.Valid() && Consistent(s) && Schedulable(l, s, ops)
    ensures Consistent(Run(l, s, ops))
    decreases |ops|
  {
    if ops == [] {
    } else {
      StepConsistent(l, s, ops[0]);
      RunConsistent(l, Step(l, s, ops[0]), ops[1..]);
    }
  }

  lemma {:induction false} SizeOfSet(q: seq<Conn>, cs: set<Conn>)
    requires NoDuplicates(q) && forall c :: c in q <==> c in cs
    ensures |q| == |cs|
  {
    if q == [] {
      assert cs == {};
    } else {
      assert q == [q[0]] + q[1..] && q[0] !in q[1..];
      SizeOfSet(q[1..], cs - {q[0]});
    }
  }

  lemma {:induction false} SizeIsSum(pool: seq<Conn>, available: seq<Conn>, inUse: set<Conn>)
    requires NoDuplicates(pool) && NoDuplicates(available)
    requires forall c :: c in pool <==> c in available || c in inUse
    requires forall c :: c in available ==> c !in inUse
    ensures |pool| == |available| + |inUse|
    decreases |pool|
  {
    if available == [] {
      SizeOfSet(pool, inUse);
    } else {
      var c := available[0];
      RemoveFirstMembers(pool, c);
      RemoveFirstMembers(available, c);
      SizeIsSum(RemoveFirst(pool, c), RemoveFirst(available, c), inUse);
    }
  }

  lemma ConsistentMeans(s: State)
    requires Consistent(s)
    ensures (set c | c in s.pool) == (set c | c in s.available) + s.inUse
    ensures (set c | c in s.available) !! s.inUse
    ensures |s.pool| == |s.available| + |s.inUse|
  {
    SizeIsSum(s.pool, s.available, s.inUse);
  }

  /** In every interleaving, whoever releases what, the numbers that `getStats` reports add up. */
  lemma PoolIsDisjointUnion(l: Limits, ops: seq<Op>)
    requires l.Valid() && Schedulable(l, EMPTY, ops)
    ensures var s := Run(l, EMPTY, ops);
            && NoDuplicates(s.pool)
            && (set c | c in s.pool) == (set c | c in s.available) + s.inUse
            && (set c | c in s.available) !! s.inUse
            && |s.pool| == |s.available| + |s.inUse|
  {
    RunConsistent(l, EMPTY, ops);
    ConsistentMeans(Run(l, EMPTY, ops));
  }

  // ----- Who waits -----

  /** A request that finds nothing to hand out and no room for another connection. */
  predicate Waits(l: Limits, s: State, op: Op) {
    op == Get && s.initialized && s.available == [] && |s.pool| >= l.maxConnections
  }

  /** Requests that came to wait, and those that stopped waiting. */
  function Waited(l: Limits, s: State, ops: seq<Op>): nat
    requires l.Valid() && Schedulable(l, s, ops)
    decreases |ops|
  {
    if ops == [] then 0 else (if Waits(l, s, ops[0]) then 1 else 0) + Waited(l, Step(l, s, ops[0]), ops[1..])
  }

  function Unblocked(ops: seq<Op>): nat {
    if ops == [] then 0 else (if ops[0] == Poll || ops[0] == TimeOut then 1 else 0) + Unblocked(ops[1..])
  }

  /** In every interleaving the waiting requests are those that came to wait and have neither been
      served nor timed out. */
  lemma {:induction false} WaitersAddUp(l: Limits, s: State, ops: seq<Op>)
    requires l.Valid() && Schedulable(l, s, ops)
    ensures Run(l, s, ops).waiting == s.waiting + Waited(l, s, ops) - Unblocked(ops)
    decreases |ops|
  {
    if ops == [] {
    } else {
      WaitersAddUp(l, Step(l, s, ops[0]), ops[1..]);
    }
  }

  // ----- How far the pool can overshoot -----

  predicate Bounded(l: Limits, s: State) { |s.pool| + |s.creating| <= l.Top() - 1 + MaxOf(1, s.peak) }

  /** Initialised, and no other `initialize` call has more connections to create than the one
      in creation. */
  predicate Settled(s: State) {
    s.initialized && forall c :: c in s.creating && s.creating[c].ForInit? ==> s.creating[c].left == 0
  }

  lemma NextIsNew(s: State)
    requires Consistent(s)
    ensures s.next !in s.creating
    ensures s.next == 0 ==> s.pool == [] && s.creating == map[]
  {
    assert |s.pool| > 0 ==> s.pool[0] in s.pool && s.pool[0] < s.next;
    assert s.creating != map[] ==> exists c :: c in s.creating && c < s.next;
  }

  lemma CreateSize(s: State, p: Purpose)
    requires s.next !in s.creating
    ensures |Create(s, p).creating| == |s.creating| + 1 <= Create(s, p).peak
  {
  }

  lemma RemoveBounded(l: Limits, s: State, c: Conn)
    requires Bounded(l, s) && Settled(s) && Consistent(s)
    ensures Bounded(l, Remove(l, s, c)) && Settled(Remove(l, s, c))
  {
    DetachConsistent(s, c);
    NextIsNew(s);
    CreateSize(Detach(s, c), Replacement);
  }

  lemma LandBounded(l: Limits, s: State, c: Conn)
    requires l.Valid() && c in s.creating && Bounded(l, s) && Settled(s)
    ensures Bounded(l, Step(l, s, Land(c))) && Settled(Step(l, s, Land(c)))
  {
  }

  lemma ReleaseBounded(l: Limits, s: State, c: Conn, ready: bool)
    requires l.Valid() && Consistent(s) && Bounded(l, s) && Settled(s)
    ensures Bounded(l, Step(l, s, Release(c, ready))) && Settled(Step(l, s, Release(c, ready)))
  {
    if c in s.inUse && !ready {
      RemoveBounded(l, s, c);
      DiscardIsRemove(l, s, c);
    }
  }

  lemma StepBounded(l: Limits, s: State, op: Op)
    requires l.Valid() && Enabled(s, op) && Consistent(s)
    requires Bounded(l, s) && Settled(s)
    ensures Bounded(l, Step(l, s, op)) && Settled(Step(l, s, op))
  {
    match op
    case Get =>
      NextIsNew(s);
      CreateSize(s, ForBorrower);
    case Land(c) => LandBounded(l, s, c);
    case CreationFails(c) => assert (s.creating - {c}).Keys == s.creating.Keys - {c};
    case Release(c, ready) => ReleaseBounded(l, s, c, ready);
    case Close(c) => RemoveBounded(l, s, c);
    case _ =>
  }

  // ----- When the bound holds -----

  /** At most one `initialize` call creates connections: the others find the pool initialised. */
  predicate SingleInit(l: Limits, s: State, ops: seq<Op>)
    requires l.Valid() && Schedulable(l, s, ops)
    decreases |ops|
  {
    ops == [] ||
    ((ops[0] == Initialize ==> s.initialized || s.next == 0) && SingleInit(l, Step(l, s, ops[0]), ops[1..]))
  }

  /** Nothing is removed from the pool while it is being initialised. */
  predicate QuietInit(l: Limits, s: State, ops: seq<Op>)
    requires l.Valid() && Schedulable(l, s, ops)
    decreases |ops|
  {
    ops == [] || s.initialized ||
    (!ops[0].Close? && QuietInit(l, Step(l, s, ops[0]), ops[1..]))
  }

  /** The most that a pool holds during an initialisation, counting what is still to come. */
  function InitCeiling(l: Limits, s: State, quiet: bool): int {
    if quiet then l.minConnections else 2 * l.minConnections - 2 + MaxOf(1, s.peak)
  }

  /** Not initialised, and at most one `initialize` call is under way, which stays below the
      ceiling. */
  ghost predicate Booting(l: Limits, s: State, quiet: bool) {
    && !s.initialized && s.inUse == {} && s.waiting == 0
    && (forall c :: c in s.creating ==> !s.creating[c].ForBorrower?)
    && |s.pool| + |s.creating| <= InitCeiling(l, s, quiet)
    && (forall c, d :: c in s.creating && d in s.creating && s.creating[c].ForInit? && s.creating[d].ForInit? ==>
          c == d)
    && (forall c :: c in s.creating && s.creating[c].ForInit? ==>
          s.creating[c].left < l.minConnections &&
          |s.pool| + |s.creating| + s.creating[c].left <= InitCeiling(l, s, quiet))
  }

  /** What holds in every state of a schedule with one initialisation, if the ceiling of the
      initialisation fits under the bound. */
  ghost predicate OnTrack(l: Limits, s: State, quiet: bool) {
    Consistent(s) && (Booting(l, s, quiet) || (Settled(s) && Bounded(l, s)))
  }

  predicate Fits(l: Limits, quiet: bool) { quiet || l.Top() >= 2 * l.minConnections - 1 }

  lemma FirstInitBoots(l: Limits, s: State, quiet: bool)
    requires l.Valid() && Booting(l, s, quiet) && s.pool == [] && s.creating == map[]
    ensures Booting(l, Step(l, s, Initialize), quiet)
  {
    CreateSize(s, ForInit(l.minConnections - 1));
  }

  lemma ForgetSize(s: State, c: Conn)
    requires c in s.creating
    ensures |Forget(s, c).creating| == |s.creating| - 1
  {
    assert (s.creating - {c}).Keys == s.creating.Keys - {c};
  }

  lemma InitLandsBoots(l: Limits, s: State, c: Conn, left: nat, quiet: bool)
    requires l.Valid() && Booting(l, s, quiet) && c in s.creating && s.creating[c] == ForInit(left)
    requires s.next !in s.creating && Fits(l, quiet)
    ensures var t := Step(l, s, Land(c)); Booting(l, t, quiet) || (Settled(t) && Bounded(l, t))
  {
    ForgetSize(s, c);
    if left > 0 {
      CreateSize(StoreAvailable(Forget(s, c), c), ForInit(left - 1));
    }
  }

  lemma LandBoots(l: Limits, s: State, c: Conn, quiet: bool)
    requires l.Valid() && Booting(l, s, quiet) && c in s.creating && s.next !in s.creating && Fits(l, quiet)
    requires !s.creating[c].ForBorrower?
    ensures var t := Step(l, s, Land(c)); Booting(l, t, quiet) || (Settled(t) && Bounded(l, t))
  {
    ForgetSize(s, c);
    match s.creating[c]
    case ForInit(left) => InitLandsBoots(l, s, c, left, quiet);
    case _ =>
  }

  lemma FailureBoots(l: Limits, s: State, c: Conn, quiet: bool)
    requires Booting(l, s, quiet) && c in s.creating
    ensures Booting(l, Forget(s, c), quiet)
  {
    ForgetSize(s, c);
  }

  lemma CloseBoots(l: Limits, s: State, c: Conn)
    requires l.Valid() && Booting(l, s, false) && s.next !in s.creating && |Detach(s, c).pool| <= |s.pool|
    ensures Booting(l, Remove(l, s, c), false)
  {
    CreateSize(Detach(s, c), Replacement);
  }

  lemma StepBoots(l: Limits, s: State, op: Op, quiet: bool)
    requires l.Valid() && Enabled(s, op) && Booting(l, s, quiet) && Fits(l, quiet) && s.next !in s.creating
    requires op == Initialize ==> s.pool == [] && s.creating == map[]
    requires op.Close? ==> !quiet && |Detach(s, op.c).pool| <= |s.pool|
    ensures var t := Step(l, s, op); Booting(l, t, quiet) || (Settled(t) && Bounded(l, t))
  {
    match op
    case Initialize => FirstInitBoots(l, s, quiet);
    case Land(c) => LandBoots(l, s, c, quiet);
    case CreationFails(c) => FailureBoots(l, s, c, quiet);
    case Close(c) => CloseBoots(l, s, c);
    case _ =>
  }

  lemma StepOnTrack(l: Limits, s: State, op: Op, quiet: bool)
    requires l.Valid() && Enabled(s, op) && OnTrack(l, s, quiet) && Fits(l, quiet)
    requires op == Initialize ==> s.initialized || s.next == 0
    requires quiet && !s.initialized ==> !op.Close?
    ensures OnTrack(l, Step(l, s, op), quiet)
  {
    StepConsistent(l, s, op);
    if s.initialized {
      StepBounded(l, s, op);
    } else {
      NextIsNew(s);
      if op.Close? {
        DetachConsistent(s, op.c);
      }
      StepBoots(l, s, op, quiet);
    }
  }

  lemma {:induction false} RunOnTrack(l: Limits, s: State, ops: seq<Op>, quiet: bool)
    requires l.Valid() && Schedulable(l, s, ops) && SingleInit(l, s, ops)
    requires quiet ==> QuietInit(l, s, ops)
    requires OnTrack(l, s, quiet) && Fits(l, quiet)
    ensures OnTrack(l, Run(l, s, ops), quiet)
    decreases |ops|
  {
    if ops == [] {
    } else {
      StepOnTrack(l, s, ops[0], quiet);
      RunOnTrack(l, Step(l, s, ops[0]), ops[1..], quiet);
    }
  }

  /** If nothing closes before the pool is initialised, the bound holds under all limits. */
  lemma QuietInitIsBounded(l: Limits, ops: seq<Op>)
    requires l.Valid() && Schedulable(l, EMPTY, ops) && SingleInit(l, EMPTY, ops) && QuietInit(l, EMPTY, ops)
    ensures Run(l, EMPTY, ops).initialized ==> Bounded(l, Run(l, EMPTY, ops))
  {
    RunOnTrack(l, EMPTY, ops, true);
  }

  // ----- The schedule that overshoots -----

  /** A schedule with one initialisation that leads from `s` to `t`. */
  predicate Leads(l: Limits, s: State, ops: seq<Op>, t: State)
    requires l.Valid()
  {
    Schedulable(l, s, ops) && Run(l, s, ops) == t && SingleInit(l, s, ops)
  }

  lemma LeadsCons(l: Limits, s: State, op: Op, rest: seq<Op>, t: State)
    requires l.Valid() && Enabled(s, op) && (op == Initialize ==> s.next == 0)
    requires Leads(l, Step(l, s, op), rest, t)
    ensures Leads(l, s, [op] + rest, t)
  {
    assert ([op] + rest)[0] == op && ([op] + rest)[1..] == rest;
  }

  /** One connection being created for the initialisation, nothing else. */
  predicate OnlyInit(s: State, c: Conn, left: nat) {
    !s.initialized && s.creating == map[c := ForInit(left)] && c < s.next
  }

  /** Without further events the initialisation adds all that it has left. */
  lemma {:induction false} InitRunsOut(l: Limits, s: State, c: Conn, left: nat) returns (ops: seq<Op>, t: State)
    requires l.Valid() && OnlyInit(s, c, left) && s.peak >= 1
    ensures Leads(l, s, ops, t)
    ensures t.initialized && t.creating == map[] && |t.pool| == |s.pool| + left + 1 && t.peak == s.peak
    decreases left
  {
    var next := Step(l, s, Land(c));
    assert s.creating - {c} == map[];
    if left == 0 {
      ops, t := [], next;
    } else {
      assert next.creating == map[s.next := ForInit(left - 1)];
      ops, t := InitRunsOut(l, next, s.next, left - 1);
    }
    LeadsCons(l, s, Land(c), ops, t);
    ops := [Land(c)] + ops;
  }

  /** A close event of the connection being created adds a replacement. */
  lemma CloseAddsOne(l: Limits, s: State, c: Conn, left: nat)
    requires l.Valid() && OnlyInit(s, c, left) && c !in s.pool && |s.pool| < l.minConnections
    ensures var t := Step(l, s, Close(c));
            Enabled(t, Land(s.next)) &&
            var u := Step(l, t, Land(s.next));
            OnlyInit(u, c, left) && c !in u.pool && |u.pool| == |s.pool| + 1 && u.peak == MaxOf(s.peak, 2)
  {
    RemoveFirstAt(s.pool, c, |s.pool|);
    var t := Step(l, s, Close(c));
    assert t.creating == map[c := ForInit(left), s.next := Replacement];
    CreateSize(Detach(s, c), Replacement);
    assert t.creating - {s.next} == map[c := ForInit(left)];
  }

  /** Repeated, it fills the pool up to the minimum beside the initialisation. */
  lemma {:induction false} ClosesFillUp(l: Limits, s: State, c: Conn, left: nat) returns (ops: seq<Op>, t: State)
    requires l.Valid() && OnlyInit(s, c, left) && c !in s.pool && |s.pool| <= l.minConnections
    requires (|s.pool| == l.minConnections ==> s.peak == 2) && 1 <= s.peak <= 2
    ensures Leads(l, s, ops, t)
    ensures t.initialized && t.creating == map[] && |t.pool| == l.minConnections + left + 1 && t.peak == 2
    decreases l.minConnections - |s.pool|
  {
    if |s.pool| == l.minConnections {
      ops, t := InitRunsOut(l, s, c, left);
    } else {
      var closed := Step(l, s, Close(c));
      CloseAddsOne(l, s, c, left);
      ops, t := ClosesFillUp(l, Step(l, closed, Land(s.next)), c, left);
      LeadsCons(l, closed, Land(s.next), ops, t);
      LeadsCons(l, s, Close(c), [Land(s.next)] + ops, t);
      ops := [Close(c)] + ([Land(s.next)] + ops);
    }
  }

  /** A connection that closes while the pool is still initialising is replaced each time, and
      the initialisation loop goes on counting on its own: the pool ends with twice the
      minimum after only two creations at a time. */
  lemma DisturbedInit(l: Limits) returns (ops: seq<Op>, t: State)
    requires l.Valid()
    ensures Leads(l, EMPTY, ops, t) && t.initialized && t.creating == map[]
    ensures |t.pool| == 2 * l.minConnections && t.peak == 2
  {
    var s := Step(l, EMPTY, Initialize);
    assert s.creating == map[0 := ForInit(l.minConnections - 1)];
    ops, t := ClosesFillUp(l, s, 0, l.minConnections - 1);
    LeadsCons(l, EMPTY, Initialize, ops, t);
    ops := [Initialize] + ops;
  }

  /** One instance of the size bound. */
  predicate BoundedAfter(l: Limits, ops: seq<Op>)
    requires l.Valid()
  {
    Schedulable(l, EMPTY, ops) && SingleInit(l, EMPTY, ops) && Run(l, EMPTY, ops).initialized ==>
      Bounded(l, Run(l, EMPTY, ops))
  }

  /** Exactly which limits guarantee the bound in every initialised state of every schedule
      with one initialisation: a maximum of at least twice the minimum, less one. */
  lemma BoundHoldsExactlyForWideLimits(l: Limits)
    requires l.Valid()
    ensures l.Top() >= 2 * l.minConnections - 1 <==> forall ops :: BoundedAfter(l, ops)
  {
    if l.Top() >= 2 * l.minConnections - 1 {
      forall ops
        ensures BoundedAfter(l, ops)
      {
        if Schedulable(l, EMPTY, ops) && SingleInit(l, EMPTY, ops) {
          RunOnTrack(l, EMPTY, ops, false);
        }
      }
    } else {
      var ops, t := DisturbedInit(l);
      assert !BoundedAfter(l, ops);
    }
  }

  // ----- Overlapping initialisations -----

  /** With a minimum of one: until the first connection lands, only first connections are in
      creation. */
  ghost predicate FirstOnes(s: State) {
    && !s.initialized && s.pool == [] && s.available == [] && s.inUse == {} && s.waiting == 0
    && |s.creating| <= s.peak
    && forall c :: c in s.creating ==> s.creating[c] == ForInit(0)
  }

  lemma StepFirstOnes(l: Limits, s: State, op: Op)
    requires l.Valid() && l.minConnections == 1 && Enabled(s, op) && !op.Close?
    requires FirstOnes(s) && s.next !in s.creating
    ensures var t := Step(l, s, op); FirstOnes(t) || (Settled(t) && Bounded(l, t))
  {
    match op
    case Initialize => CreateSize(s, ForInit(0));
    case Land(c) => ForgetSize(s, c);
    case CreationFails(c) => ForgetSize(s, c);
    case _ =>
  }

  lemma {:induction false} RunFirstOnes(l: Limits, s: State, ops: seq<Op>)
    requires l.Valid() && l.minConnections == 1 && Schedulable(l, s, ops) && QuietInit(l, s, ops)
    requires Consistent(s) && (FirstOnes(s) || (Settled(s) && Bounded(l, s)))
    ensures var t := Run(l, s, ops); FirstOnes(t) || (Settled(t) && Bounded(l, t))
    decreases |ops|
  {
    if ops == [] {
    } else {
      StepConsistent(l, s, ops[0]);
      if s.initialized {
        StepBounded(l, s, ops[0]);
      } else {
        NextIsNew(s);
        StepFirstOnes(l, s, ops[0]);
      }
      RunFirstOnes(l, Step(l, s, ops[0]), ops[1..]);
    }
  }

  /** A schedule without close events that leads from `s` to `t`. */
  predicate Arrives(l: Limits, s: State, ops: seq<Op>, t: State)
    requires l.Valid()
  {
    Schedulable(l, s, ops) && Run(l, s, ops) == t && forall op :: op in ops ==> !op.Close?
  }

  lemma {:induction false} NoCloseIsQuiet(l: Limits, s: State, ops: seq<Op>)
    requires l.Valid() && Schedulable(l, s, ops) && forall op :: op in ops ==> !op.Close?
    ensures QuietInit(l, s, ops)
    decreases |ops|
  {
    if ops == [] {
    } else {
      assert ops[0] in ops;
      NoCloseIsQuiet(l, Step(l, s, ops[0]), ops[1..]);
    }
  }

  lemma ArrivesCons(l: Limits, s: State, op: Op, rest: seq<Op>, t: State)
    requires l.Valid() && Enabled(s, op) && !op.Close? && Arrives(l, Step(l, s, op), rest, t)
    ensures Arrives(l, s, [op] + rest, t)
  {
    assert ([op] + rest)[0] == op && ([op] + rest)[1..] == rest;
  }

  lemma {:induction false} ArrivesThen(l: Limits, s: State, a: seq<Op>, t: State, b: seq<Op>, u: State)
    requires l.Valid() && Arrives(l, s, a, t) && Arrives(l, t, b, u)
    ensures Arrives(l, s, a + b, u)
    decreases |a|
  {
    if a == [] {
      assert a + b == b;
    } else {
      ArrivesThen(l, Step(l, s, a[0]), a[1..], t, b, u);
      assert (a + b)[0] == a[0] && (a + b)[1..] == a[1..] + b;
    }
  }

  /** These clients are in creation for initialisations with `left` more to create. */
  predicate Starting(s: State, cs: set<Conn>, left: nat) {
    && (forall c :: c in s.creating ==> c < s.next)
    && (forall c :: c in cs ==> c in s.creating && s.creating[c] == ForInit(left))
  }

  /** Several `initialize` calls before the first connection lands. */
  lemma {:induction false} InitBurst(l: Limits, s: State, cs: set<Conn>, n: nat)
    returns (ops: seq<Op>, t: State, ds: set<Conn>)
    requires l.Valid() && !s.initialized && Starting(s, cs, l.minConnections - 1)
    requires s.creating.Keys == cs && s.peak == |cs|
    ensures Arrives(l, s, ops, t) && Starting(t, ds, l.minConnections - 1)
    ensures t.creating.Keys == ds && t.peak == |ds| == |cs| + n && t.pool == s.pool && !t.initialized
    decreases n
  {
    if n == 0 {
      ops, t, ds := [], s, cs;
    } else {
      var u := Step(l, s, Initialize);
      CreateSize(s, ForInit(l.minConnections - 1));
      assert |u.creating.Keys| == |cs| + 1;
      ops, t, ds := InitBurst(l, u, cs + {s.next}, n - 1);
      ArrivesCons(l, s, Initialize, ops, t);
      ops := [Initialize] + ops;
    }
  }

  /** One initialisation runs out beside the others and creates all that it has left. */
  lemma {:induction false} InitRunsOutBeside(l: Limits, s: State, cs: set<Conn>, n: nat, c: Conn, left: nat)
    returns (ops: seq<Op>, t: State)
    requires l.Valid() && Starting(s, {c}, left) && Starting(s, cs, n) && c !in cs && |s.creating| <= s.peak
    ensures Arrives(l, s, ops, t) && Starting(t, cs, n) && t.initialized && t.peak == s.peak
    ensures |t.pool| == |s.pool| + left + 1 && |t.creating| == |s.creating| - 1
    decreases left
  {
    var u := Step(l, s, Land(c));
    ForgetSize(s, c);
    if left == 0 {
      ops, t := [], u;
    } else {
      CreateSize(StoreAvailable(Forget(s, c), c), ForInit(left - 1));
      ops, t := InitRunsOutBeside(l, u, cs, n, s.next, left - 1);
    }
    ArrivesCons(l, s, Land(c), ops, t);
    ops := [Land(c)] + ops;
  }

  lemma OneLess(n: int, k: int)
    ensures n * k == (n - 1) * k + k
  {
  }

  lemma {:induction false} AllRunOut(l: Limits, s: State, cs: set<Conn>, left: nat) returns (ops: seq<Op>, t: State)
    requires l.Valid() && Starting(s, cs, left) && |s.creating| <= s.peak && |s.creating| == |cs|
    ensures Arrives(l, s, ops, t) && t.peak == s.peak && (s.initialized || cs != {} ==> t.initialized)
    ensures |t.creating| == 0 && |t.pool| == |s.pool| + |cs| * (left + 1)
    decreases |cs|
  {
    if cs == {} {
      ops, t := [], s;
    } else {
      var c :| c in cs;
      var one, u := InitRunsOutBeside(l, s, cs - {c}, left, c, left);
      var rest;
      rest, t := AllRunOut(l, u, cs - {c}, left);
      ArrivesThen(l, s, one, u, rest, t);
      ops := one + rest;
      OneLess(|cs|, left + 1);
    }
  }

  /** Any number of `initialize` calls at once, each of which fills the pool on its own. */
  lemma OverlappingInits(l: Limits, n: nat) returns (ops: seq<Op>, t: State)
    requires l.Valid() && n > 0
    ensures Arrives(l, EMPTY, ops, t) && t.initialized && |t.creating| == 0
    ensures |t.pool| == n * l.minConnections && t.peak == n
  {
    var inits, s, cs := InitBurst(l, EMPTY, {}, n);
    assert |s.creating| == |s.creating.Keys|;
    var lands;
    lands, t := AllRunOut(l, s, cs, l.minConnections - 1);
    ArrivesThen(l, EMPTY, inits, s, lands, t);
    ops := inits + lands;
  }

  /** One instance of the size bound with any number of initialisations. */
  predicate QuietlyBounded(l: Limits, ops: seq<Op>)
    requires l.Valid()
  {
    Schedulable(l, EMPTY, ops) && QuietInit(l, EMPTY, ops) && Run(l, EMPTY, ops).initialized ==>
      Bounded(l, Run(l, EMPTY, ops))
  }

  /** Exactly which limits guarantee the bound in every initialised state, however many
      `initialize` calls there are, if nothing closes before the pool is initialised. */
  lemma QuietBoundHoldsExactlyForMinimumOne(l: Limits)
    requires l.Valid()
    ensures l.minConnections == 1 <==> forall ops :: QuietlyBounded(l, ops)
  {
    if l.minConnections == 1 {
      forall ops
        ensures QuietlyBounded(l, ops)
      {
        if Schedulable(l, EMPTY, ops) && QuietInit(l, EMPTY, ops) {
          RunFirstOnes(l, EMPTY, ops);
        }
      }
    } else {
      var n := l.Top() + 1;
      var ops, t := OverlappingInits(l, n);
      NoCloseIsQuiet(l, EMPTY, ops);
      assert n * l.minConnections >= n * 2;
      assert !QuietlyBounded(l, ops);
    }
  }

  // ----- What comes back after a shutdown -----

  /** What follows a shutdown: the disconnected clients close and replacements land. */
  predicate Aftermath(ops: seq<Op>, disconnected: set<Conn>) {
    forall op :: op in ops ==> (op.Close? && op.c in disconnected) || op.Land?
  }

  function Closes(ops: seq<Op>): nat {
    if ops == [] then 0 else (if ops[0].Close? then 1 else 0) + Closes(ops[1..])
  }

  function Size(s: State): nat { |s.pool| + |s.creating| }

  /** The disconnected clients are gone for good. */
  ghost predicate Gone(s: State, disconnected: set<Conn>) {
    && Settled(s) && Consistent(s)
    && forall c :: c in disconnected ==> c !in s.pool && c !in s.creating && c < s.next
  }

  lemma GoneCloses(l: Limits, s: State, c: Conn, disconnected: set<Conn>)
    requires l.Valid() && Gone(s, disconnected) && c in disconnected
    ensures var t := Step(l, s, Close(c));
            Gone(t, disconnected) && Size(t) == Size(s) + if |s.pool| < l.minConnections then 1 else 0
  {
    StepConsistent(l, s, Close(c));
    NextIsNew(s);
    RemoveFirstMembers(s.pool, c);
    if |s.pool| < l.minConnections {
      CreateSize(Detach(s, c), Replacement);
    }
  }

  lemma GoneLands(l: Limits, s: State, c: Conn, disconnected: set<Conn>)
    requires l.Valid() && Gone(s, disconnected) && c in s.creating
    ensures var t := Step(l, s, Land(c)); Gone(t, disconnected) && Size(t) == Size(s)
  {
    LandConsistent(l, s, c);
    ForgetSize(s, c);
  }

  /** From `before`, closings refill one each, unless there is the minimum already. */
  predicate Refilled(min: int, before: nat, closes: nat, after: nat) {
    MinOf(before + closes, MaxOf(before, min)) <= after <= before + closes
  }

  lemma RefilledThen(min: int, a: nat, n: nat, b: nat, closes: nat, c: nat)
    requires n <= 1 && a <= b <= a + n && (n == 1 ==> b == a + 1 || a >= min) && Refilled(min, b, closes, c)
    ensures Refilled(min, a, n + closes, c)
  {
  }

  lemma AftermathStep(l: Limits, s: State, op: Op, disconnected: set<Conn>)
    requires l.Valid() && Enabled(s, op) && Gone(s, disconnected)
    requires (op.Close? && op.c in disconnected) || op.Land?
    ensures var t := Step(l, s, op);
            && Gone(t, disconnected)
            && Size(s) <= Size(t) <= Size(s) + (if op.Close? then 1 else 0)
            && (op.Close? ==> Size(t) == Size(s) + 1 || Size(s) >= l.minConnections)
  {
    if op.Close? {
      GoneCloses(l, s, op.c, disconnected);
    } else {
      GoneLands(l, s, op.c, disconnected);
    }
  }

  lemma {:induction false} AftermathSize(l: Limits, s: State, ops: seq<Op>, disconnected: set<Conn>)
    requires l.Valid() && Schedulable(l, s, ops) && Aftermath(ops, disconnected) && Gone(s, disconnected)
    ensures Refilled(l.minConnections, Size(s), Closes(ops), Size(Run(l, s, ops)))
    decreases |ops|
  {
    if ops == [] {
    } else {
      var t, n := Step(l, s, ops[0]), if ops[0].Close? then 1 else 0;
      assert ops[0] in ops && Aftermath(ops[1..], disconnected);
      AftermathStep(l, s, ops[0], disconnected);
      AftermathSize(l, t, ops[1..], disconnected);
      RefilledThen(l.minConnections, Size(s), n, Size(t), Closes(ops[1..]), Size(Run(l, t, ops[1..])));
    }
  }

  lemma ShutdownGone(l: Limits, s: State)
    requires l.Valid() && Consistent(s) && Settled(s)
    ensures Gone(Step(l, s, Shutdown), set c | c in s.pool) && Size(Step(l, s, Shutdown)) == |s.creating|
  {
    StepConsistent(l, s, Shutdown);
  }

  /** A pool does not stay shut down: while `k` disconnected clients close, in every order of
      closings and landings, at least up to the minimum and at most `k` connections come back. */
  lemma ShutdownComesBack(l: Limits, s: State, ops: seq<Op>)
    requires l.Valid() && Consistent(s) && Settled(s) && s.creating == map[]
    requires Schedulable(l, Step(l, s, Shutdown), ops) && Aftermath(ops, set c | c in s.pool)
    ensures var t := Run(l, Step(l, s, Shutdown), ops);
            MinOf(Closes(ops), l.minConnections) <= Size(t) <= Closes(ops)
  {
    ShutdownGone(l, s);
    AftermathSize(l, Step(l, s, Shutdown), ops, set c | c in s.pool);
  }

  lemma RunCons(l: Limits, s: State, op: Op, rest: seq<Op>)
    requires l.Valid() && Enabled(s, op) && Schedulable(l, Step(l, s, op), rest)
    ensures Schedulable(l, s, [op] + rest) && Run(l, s, [op] + rest) == Run(l, Step(l, s, op), rest)
    ensures Closes([op] + rest) == Closes(rest) + if op.Close? then 1 else 0
  {
    assert ([op] + rest)[1..] == rest;
  }

  /** A client closes, and its replacement, if any, lands at once. */
  lemma SlowClose(l: Limits, s: State, c: Conn, disconnected: set<Conn>) returns (ops: seq<Op>, t: State)
    requires l.Valid() && Gone(s, disconnected) && s.creating == map[] && |s.pool| <= l.minConnections
    requires c in disconnected
    ensures Schedulable(l, s, ops) && Run(l, s, ops) == t && Aftermath(ops, disconnected) && Closes(ops) == 1
    ensures Gone(t, disconnected) && t.creating == map[] && |t.pool| == MinOf(|s.pool| + 1, l.minConnections)
  {
    var u := Step(l, s, Close(c));
    GoneCloses(l, s, c, disconnected);
    RemoveFirstMembers(s.pool, c);
    if |s.pool| < l.minConnections {
      assert u.creating == map[s.next := Replacement];
      t := Step(l, u, Land(s.next));
      GoneLands(l, u, s.next, disconnected);
      assert t.creating == map[];
      RunCons(l, u, Land(s.next), []);
      RunCons(l, s, Close(c), [Land(s.next)] + []);
      ops := [Close(c)] + ([Land(s.next)] + []);
    } else {
      t := u;
      RunCons(l, s, Close(c), []);
      ops := [Close(c)] + [];
    }
  }

  lemma {:induction false} ClosesThen(a: seq<Op>, b: seq<Op>)
    ensures Closes(a + b) == Closes(a) + Closes(b)
  {
    if a == [] {
      assert a + b == b;
    } else {
      assert (a + b)[0] == a[0] && (a + b)[1..] == a[1..] + b;
      ClosesThen(a[1..], b);
    }
  }

  lemma {:induction false} RunThen(l: Limits, s: State, a: seq<Op>, b: seq<Op>)
    requires l.Valid() && Schedulable(l, s, a) && Schedulable(l, Run(l, s, a), b)
    ensures Schedulable(l, s, a + b) && Run(l, s, a + b) == Run(l, Run(l, s, a), b)
    decreases |a|
  {
    if a == [] {
      assert a + b == b;
    } else {
      var op, rest := a[0], a[1..] + b;
      RunThen(l, Step(l, s, op), a[1..], b);
      RunCons(l, s, op, rest);
      assert a + b == [op] + rest;
    }
  }

  /** The least comes back if every replacement lands before the next client closes. */
  lemma {:induction false} SlowCloses(l: Limits, s: State, cs: seq<Conn>, disconnected: set<Conn>)
    returns (ops: seq<Op>, t: State)
    requires l.Valid() && Gone(s, disconnected) && s.creating == map[] && |s.pool| <= l.minConnections
    requires forall c :: c in cs ==> c in disconnected
    ensures Schedulable(l, s, ops) && Run(l, s, ops) == t && Aftermath(ops, disconnected) && Closes(ops) == |cs|
    ensures t.creating == map[] && |t.pool| == MinOf(|s.pool| + |cs|, l.minConnections)
    decreases |cs|
  {
    if cs == [] {
      ops, t := [], s;
    } else {
      assert cs[0] in cs;
      var one, u := SlowClose(l, s, cs[0], disconnected);
      var rest;
      rest, t := SlowCloses(l, u, cs[1..], disconnected);
      RunThen(l, s, one, rest);
      ClosesThen(one, rest);
      ops := one + rest;
    }
  }

  /** The most comes back if all clients close before a replacement lands. */
  lemma {:induction false} QuickCloses(l: Limits, s: State, cs: seq<Conn>, disconnected: set<Conn>)
    returns (ops: seq<Op>, t: State)
    requires l.Valid() && Gone(s, disconnected) && s.pool == [] && forall c :: c in cs ==> c in disconnected
    ensures Schedulable(l, s, ops) && Run(l, s, ops) == t && Aftermath(ops, disconnected) && Closes(ops) == |cs|
    ensures Size(t) == Size(s) + |cs|
    decreases |cs|
  {
    if cs == [] {
      ops, t := [], s;
    } else {
      assert cs[0] in cs;
      var u := Step(l, s, Close(cs[0]));
      GoneCloses(l, s, cs[0], disconnected);
      ops, t := QuickCloses(l, u, cs[1..], disconnected);
      RunCons(l, s, Close(cs[0]), ops);
      ops := [Close(cs[0])] + ops;
    }
  }

  /** Both bounds are attained when the clients of the pool close once each. */
  lemma ShutdownBoundsAttained(l: Limits, s: State) returns (few: seq<Op>, many: seq<Op>)
    requires l.Valid() && Consistent(s) && Settled(s) && s.creating == map[]
    ensures var t, disconnected := Step(l, s, Shutdown), set c | c in s.pool;
            && Schedulable(l, t, few) && Aftermath(few, disconnected) && Closes(few) == |s.pool|
            && Size(Run(l, t, few)) == MinOf(|s.pool|, l.minConnections)
            && Schedulable(l, t, many) && Aftermath(many, disconnected) && Closes(many) == |s.pool|
            && Size(Run(l, t, many)) == |s.pool|
  {
    var t, disconnected := Step(l, s, Shutdown), set c | c in s.pool;
    ShutdownGone(l, s);
    var t1, t2;
    few, t1 := SlowCloses(l, t, s.pool, disconnected);
    many, t2 := QuickCloses(l, t, s.pool, disconnected);
  }

  // ----- Who holds what -----

  /** One use of a connection, such as one call of `executeCommand`. */
  type Borrower = nat

  /** The pool, and the connections that borrowers were handed and have not given back. */
  datatype Lending = Lending(s: State, held: map<Borrower, Conn>)

  /** The connection that a step hands out. */
  function HandsOut(s: State, op: Op): Option<Conn>
    requires Enabled(s, op)
  {
    if op == Poll || (op == Get && s.initialized && s.available != []) then Some(s.available[|s.available| - 1])
    else if op.Land? && s.creating[op.c].ForBorrower? then Some(op.c)
    else None
  }

  /** A step on behalf of `b`, who receives what is handed out and is rid of what it releases. */
  function Act(l: Limits, x: Lending, b: Borrower, op: Op): Lending
    requires l.Valid() && Enabled(x.s, op)
  {
    var c := HandsOut(x.s, op);
    Lending(Step(l, x.s, op),
            if c.Some? then x.held[b := c.value]
            else if op.Release? && b in x.held && x.held[b] == op.c then x.held - {b}
            else x.held)
  }

  /** A borrower asks once, and releases what it holds and nothing else. */
  predicate Orderly(x: Lending, b: Borrower, op: Op) {
    && Enabled(x.s, op)
    && (HandsOut(x.s, op).Some? ==> b !in x.held)
    && (op.Release? ==> b in x.held && x.held[b] == op.c)
  }

  predicate Exclusive(held: map<Borrower, Conn>) {
    forall a, b :: a in held && b in held && a != b ==> held[a] != held[b]
  }

  /** No connection has two holders; what is held is neither up for grabs nor in creation; what
      is in use is held. */
  ghost predicate NoneShared(x: Lending) {
    && Exclusive(x.held)
    && (forall b :: b in x.held ==>
          x.held[b] !in x.s.available && x.held[b] !in x.s.creating && x.held[b] < x.s.next)
    && (forall c :: c in x.s.inUse ==> c in x.held.Values)
  }

  lemma HandsOutUnheld(l: Limits, x: Lending, b: Borrower, op: Op)
    requires l.Valid() && Orderly(x, b, op) && Consistent(x.s) && NoneShared(x) && HandsOut(x.s, op).Some?
    ensures NoneShared(Act(l, x, b, op))
  {
    var c := HandsOut(x.s, op).value;
    var y := Act(l, x, b, op);
    assert forall a :: a in x.held ==> x.held[a] != c;
    assert forall d :: d in x.held.Values || d == c ==> d in y.held.Values by {
      assert y.held[b] == c;
      assert forall a :: a in x.held ==> y.held[a] == x.held[a];
    }
  }

  lemma ReleaseUnshares(l: Limits, x: Lending, b: Borrower, op: Op)
    requires l.Valid() && Orderly(x, b, op) && Consistent(x.s) && NoneShared(x) && op.Release?
    ensures NoneShared(Act(l, x, b, op))
  {
    var y := Act(l, x, b, op);
    DiscardIsRemove(l, x.s, op.c);
    RemoveFirstMembers(x.s.available, op.c);
    forall d | d in y.s.inUse
      ensures d in y.held.Values
    {
      var a :| a in x.held && x.held[a] == d;
      assert a in y.held && y.held[a] == d;
    }
  }

  /** What becomes available was in creation, and what comes into creation is new. */
  ghost predicate MovesUnheld(s: State, t: State) {
    && s.next <= t.next && t.inUse <= s.inUse
    && (forall c :: c in t.available ==> c in s.available || c in s.creating)
    && (forall c :: c in t.creating ==> c in s.creating || c == s.next)
  }

  lemma RemoveMovesUnheld(l: Limits, s: State, c: Conn)
    requires Consistent(s)
    ensures MovesUnheld(s, Remove(l, s, c))
  {
    RemoveFirstMembers(s.available, c);
  }

  lemma LandMovesUnheld(l: Limits, s: State, c: Conn)
    requires l.Valid() && c in s.creating && !s.creating[c].ForBorrower?
    ensures MovesUnheld(s, Step(l, s, Land(c)))
  {
  }

  lemma OtherMovesUnheld(l: Limits, s: State, op: Op)
    requires l.Valid() && Enabled(s, op) && Consistent(s) && HandsOut(s, op).None? && !op.Release?
    ensures MovesUnheld(s, Step(l, s, op))
  {
    match op
    case Land(c) => LandMovesUnheld(l, s, c);
    case Close(c) => RemoveMovesUnheld(l, s, c);
    case _ =>
  }

  lemma MovesKeepUnshared(x: Lending, t: State)
    requires NoneShared(x) && MovesUnheld(x.s, t)
    ensures NoneShared(Lending(t, x.held))
  {
  }

  lemma ActKeepsUnshared(l: Limits, x: Lending, b: Borrower, op: Op)
    requires l.Valid() && Orderly(x, b, op) && Consistent(x.s) && NoneShared(x)
    ensures NoneShared(Act(l, x, b, op))
  {
    if HandsOut(x.s, op).Some? {
      HandsOutUnheld(l, x, b, op);
    } else if op.Release? {
      ReleaseUnshares(l, x, b, op);
    } else {
      OtherMovesUnheld(l, x.s, op);
      MovesKeepUnshared(x, Step(l, x.s, op));
    }
  }

  /** Whether every step of a schedule, each with its borrower, is orderly. */
  predicate OrderlyRun(l: Limits, x: Lending, acts: seq<(Borrower, Op)>)
    requires l.Valid()
    decreases |acts|
  {
    acts == [] || (Orderly(x, acts[0].0, acts[0].1) && OrderlyRun(l, Act(l, x, acts[0].0, acts[0].1), acts[1..]))
  }

  function RunActs(l: Limits, x: Lending, acts: seq<(Borrower, Op)>): Lending
    requires l.Valid() && OrderlyRun(l, x, acts)
    decreases |acts|
  {
    if acts == [] then x else RunActs(l, Act(l, x, acts[0].0, acts[0].1), acts[1..])
  }

  lemma {:induction false} RunKeepsUnshared(l: Limits, x: Lending, acts: seq<(Borrower, Op)>)
    requires l.Valid() && OrderlyRun(l, x, acts) && Consistent(x.s) && NoneShared(x)
    ensures var y := RunActs(l, x, acts); Consistent(y.s) && NoneShared(y)
    decreases |acts|
  {
    if acts == [] {
    } else {
      StepConsistent(l, x.s, acts[0].1);
      ActKeepsUnshared(l, x, acts[0].0, acts[0].1);
      RunKeepsUnshared(l, Act(l, x, acts[0].0, acts[0].1), acts[1..]);
    }
  }

  /** In every interleaving in which borrowers release what they hold and nothing else, as
      `executeCommand` does, no two of them ever hold the same connection. */
  lemma NobodyShares(l: Limits, acts: seq<(Borrower, Op)>)
    requires l.Valid() && OrderlyRun(l, Lending(EMPTY, map[]), acts)
    ensures NoneShared(RunActs(l, Lending(EMPTY, map[]), acts))
  {
    RunKeepsUnshared(l, Lending(EMPTY, map[]), acts);
  }

  /** Otherwise they may: wherever `a` holds a connection that is in use, somebody else's
      release of it as ready, and one more request, give it a second holder. */
  lemma StrayReleaseShares(l: Limits, x: Lending, a: Borrower, b: Borrower, d: Borrower) returns (y: Lending)
    requires l.Valid() && x.s.initialized && NoneShared(x)
    requires a in x.held && x.held[a] in x.s.inUse && a != b && a != d
    ensures y == Act(l, Act(l, x, b, Release(x.held[a], true)), d, Get)
    ensures a in y.held && d in y.held && y.held[a] == y.held[d] && !Exclusive(y.held)
  {
    var c := x.held[a];
    var x1 := Act(l, x, b, Release(c, true));
    assert x1.s.available == x.s.available + [c] && x1.s.initialized;
    assert HandsOut(x1.s, Get) == Some(c);
    y := Act(l, x1, d, Get);
  }

  /** A connection that is given back when it is not ready leaves the pool for good and is
      replaced exactly if fewer than the minimum are left; the others stay as they are. */
  lemma UnreadyReleaseRemoves(l: Limits, s: State, c: Conn)
    requires l.Valid() && Consistent(s) && c in s.inUse
    ensures var t := Step(l, s, Release(c, false));
            && (forall d :: d in t.pool <==> d in s.pool && d != c) && t.available == s.available
            && t.inUse == s.inUse - {c} && |t.pool| == |s.pool| - 1
            && t.creating == if |s.pool| <= l.minConnections then s.creating[s.next := Replacement] else s.creating
  {
    RemoveFirstMembers(s.pool, c);
    RemoveFirstAt(s.available, c, |s.available|);
    assert s.inUse - {c} - {c} == s.inUse - {c};
  }

  /** A ready connection goes back to the end of the available ones, and nothing is created. */
  lemma ReadyReleaseReturns(l: Limits, s: State, c: Conn)
    requires l.Valid() && Consistent(s) && c in s.inUse
    ensures var t := Step(l, s, Release(c, true));
            && t.pool == s.pool && t.creating == s.creating && t.available == s.available + [c]
            && t.inUse == s.inUse - {c} && HandsOut(t.(initialized := true), Get) == Some(c)
  {
  }

  /** The connections handed out along a schedule. */
  function HandedOut(l: Limits, s: State, ops: seq<Op>): set<Conn>
    requires l.Valid() && Schedulable(l, s, ops)
    decreases |ops|
  {
    if ops == [] then {}
    else
      var c := HandsOut(s, ops[0]);
      (if c.Some? then {c.value} else {}) + HandedOut(l, Step(l, s, ops[0]), ops[1..])
  }

  /** A client that is neither stored nor in creation any more. */
  ghost predicate Departed(s: State, c: Conn) { c !in s.pool && c !in s.creating && c < s.next }

  lemma RemoveKeepsDeparted(l: Limits, s: State, d: Conn, c: Conn)
    requires NoDuplicates(s.pool) && Departed(s, c)
    ensures Departed(Remove(l, s, d), c)
  {
    RemoveFirstMembers(s.pool, d);
  }

  lemma LandKeepsDeparted(l: Limits, s: State, d: Conn, c: Conn)
    requires l.Valid() && d in s.creating && Departed(s, c)
    ensures Departed(Step(l, s, Land(d)), c)
  {
  }

  lemma DepartedStays(l: Limits, s: State, op: Op, c: Conn)
    requires l.Valid() && Enabled(s, op) && Consistent(s) && Departed(s, c)
    ensures Departed(Step(l, s, op), c) && HandsOut(s, op) != Some(c)
  {
    match op
    case Release(d, ready) =>
      DiscardIsRemove(l, s, d);
      RemoveKeepsDeparted(l, s, d, c);
    case Close(d) => RemoveKeepsDeparted(l, s, d, c);
    case Land(d) => LandKeepsDeparted(l, s, d, c);
    case _ =>
  }

  lemma {:induction false} DepartedForGood(l: Limits, s: State, ops: seq<Op>, c: Conn)
    requires l.Valid() && Schedulable(l, s, ops) && Consistent(s) && Departed(s, c)
    ensures c !in HandedOut(l, s, ops)
    decreases |ops|
  {
    if ops == [] {
    } else {
      StepConsistent(l, s, ops[0]);
      DepartedStays(l, s, ops[0], c);
      DepartedForGood(l, Step(l, s, ops[0]), ops[1..], c);
    }
  }

  /** After it was given back when it was not ready, or has closed, no schedule hands a
      connection out again. */
  lemma LostIsNeverHandedOut(l: Limits, s: State, op: Op, c: Conn, ops: seq<Op>)
    requires l.Valid() && Consistent(s) && c in s.pool
    requires op == Close(c) || (op == Release(c, false) && c in s.inUse)
    requires Enabled(s, op) && Schedulable(l, Step(l, s, op), ops)
    ensures c !in HandedOut(l, Step(l, s, op), ops)
  {
    StepConsistent(l, s, op);
    DiscardIsRemove(l, s, c);
    RemoveFirstMembers(s.pool, c);
    DepartedForGood(l, Step(l, s, op), ops, c);
  }

  lemma {:induction false} NewBorrower(bs: set<Borrower>) returns (d: Borrower)
    ensures forall b :: b in bs ==> b < d
    decreases |bs|
  {
    if bs == {} {
      d := 0;
    } else {
      var b :| b in bs;
      var e := NewBorrower(bs - {b});
      d := MaxOf(e, b + 1);
      assert forall a :: a in bs ==> a == b || a in bs - {b};
    }
  }

  /** One instance of safe lending after `x`. */
  predicate StaysExclusive(l: Limits, x: Lending, acts: seq<(Borrower, Op)>)
    requires l.Valid()
  {
    OrderlyRun(l, x, acts) ==> Exclusive(RunActs(l, x, acts).held)
  }

  /** Exactly whose release of a connection in use is safe, whatever orderly borrowers do
      afterwards: its holder's. */
  lemma ReleaseIsSafeExactlyByHolder(l: Limits, x: Lending, b: Borrower, c: Conn)
    requires l.Valid() && x.s.initialized && Consistent(x.s) && NoneShared(x) && c in x.s.inUse
    ensures b in x.held && x.held[b] == c <==>
            forall acts :: StaysExclusive(l, Act(l, x, b, Release(c, true)), acts)
  {
    var y := Act(l, x, b, Release(c, true));
    if b in x.held && x.held[b] == c {
      forall acts
        ensures StaysExclusive(l, y, acts)
      {
        if OrderlyRun(l, y, acts) {
          StepConsistent(l, x.s, Release(c, true));
          ActKeepsUnshared(l, x, b, Release(c, true));
          RunKeepsUnshared(l, y, acts);
        }
      }
    } else {
      var a :| a in x.held && x.held[a] == c;
      var d := NewBorrower(x.held.Keys);
      var z := StrayReleaseShares(l, x, a, b, d);
      var acts := [(d, Get)];
      assert acts[1..] == [] && OrderlyRun(l, z, []);
      assert OrderlyRun(l, y, acts) && RunActs(l, y, acts) == RunActs(l, z, []);
      assert !StaysExclusive(l, y, acts);
    }
  }

  // ----- The pool -----

  /** `indexOf`, then `splice` of the one element found. */
  method Splice(q: seq<Conn>, c: Conn) returns (r: seq<Conn>)
    ensures r == RemoveFirst(q, c)
  {
    var i := 0;
    while i < |q| && q[i] != c
      invariant 0 <= i <= |q|
      invariant forall j :: 0 <= j < i ==> q[j] != c
    {
      i := i + 1;
    }
    RemoveFirstAt(q, c, i);
    r := if i < |q| then q[..i] + q[i + 1..] else q;
  }

  datatype GetReply = NotInitialized | Leased(c: Conn) | Creating(c: Conn) | Waiting

  class RedisConnectionPool {
    const limits: Limits
    var pool: seq<Conn>
    var available: seq<Conn>
    var inUse: set<Conn>
    var isInitialized: bool
    // Connections between construction and storage, and the number of the next client.
    var creating: map<Conn, Purpose>
    var next: Conn
    ghost var waiting: nat
    ghost var peak: nat

    constructor (maxConnections: int, minConnections: int)
      ensures limits == Limits.Make(maxConnections, minConnections) && limits.Valid()
      ensures Contents() == EMPTY
    {
      limits := Limits.Make(maxConnections, minConnections);
      pool, available, inUse, isInitialized := [], [], {}, false;
      creating, next, waiting, peak := map[], 0, 0, 0;
    }

    ghost function Contents(): State
      reads this
    {
      State(pool, available, inUse, isInitialized, creating, next, waiting, peak)
    }

    method CreateConnection(p: Purpose) returns (c: Conn)
      modifies this
      ensures Contents() == Create(old(Contents()), p) && c == old(next)
    {
      c := next;
      creating, next := creating[next := p], next + 1;
      peak := MaxOf(peak, |creating|);
    }

    method StartInitialize()
      requires limits.Valid()
      modifies this
      ensures Contents() == Step(limits, old(Contents()), Initialize)
    {
      if !isInitialized {
        var _ := CreateConnection(ForInit(limits.minConnections - 1));
      }
    }

    method PopAvailable() returns (c: Conn)
      requires available != []
      modifies this
      ensures Contents() == Lease(old(Contents()))
      ensures c == old(available)[|old(available)| - 1]
    {
      c := available[|available| - 1];
      available := available[..|available| - 1];
      inUse := inUse + {c};
    }

    method GetConnection() returns (r: GetReply)
      requires limits.Valid()
      modifies this
      ensures Contents() == Step(limits, old(Contents()), Get)
      ensures r.Leased? ==> HandsOut(old(Contents()), Get) == Some(r.c)
      ensures r.Creating? ==> r.c == old(next) && creating == old(creating)[r.c := ForBorrower]
      ensures r.NotInitialized? <==> !old(isInitialized)
      ensures r.Waiting? ==> old(available) == [] && |pool| >= limits.maxConnections
    {
      if !isInitialized {
        return NotInitialized;
      }
      if |available| > 0 {
        var c := PopAvailable();
        return Leased(c);
      }
      if |pool| < limits.maxConnections {
        var c := CreateConnection(ForBorrower);
        return Creating(c);
      }
      waiting := waiting + 1;
      r := Waiting;
    }

    method ConnectionLands(c: Conn)
      requires limits.Valid() && c in creating
      modifies this
      ensures Contents() == Step(limits, old(Contents()), Land(c))
    {
      var purpose := creating[c];
      creating := creating - {c};
      pool := pool + [c];
      match purpose {
        case ForInit(left) =>
          available := available + [c];
          if left > 0 {
            var _ := CreateConnection(ForInit(left - 1));
          } else {
            isInitialized := true;
          }
        case ForBorrower =>
          inUse := inUse + {c};
        case Replacement =>
          available := available + [c];
      }
    }

    method CheckAvailable() returns (c: Conn)
      requires limits.Valid() && waiting > 0 && available != []
      modifies this
      ensures Contents() == Step(limits, old(Contents()), Poll)
      ensures c in old(available)
    {
      waiting := waiting - 1;
      c := PopAvailable();
    }

    method RemoveConnection(c: Conn)
      requires limits.Valid()
      modifies this
      ensures Contents() == Remove(limits, old(Contents()), c)
    {
      pool := Splice(pool, c);
      available := Splice(available, c);
      inUse := inUse - {c};
      if |pool| < limits.minConnections {
        var _ := CreateConnection(Replacement);
      }
    }

    method ReleaseConnection(c: Conn, ready: bool)
      requires limits.Valid()
      modifies this
      ensures Contents() == Step(limits, old(Contents()), Release(c, ready))
    {
      if c in inUse {
        inUse := inUse - {c};
        if ready {
          available := available + [c];
        } else {
          RemoveConnection(c);
        }
      }
    }

    method ShutdownPool()
      requires limits.Valid()
      modifies this
      ensures Contents() == Step(limits, old(Contents()), Shutdown)
    {
      pool, available, inUse := [], [], {};
    }
  }
}
