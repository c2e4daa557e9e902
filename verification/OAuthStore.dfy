/** The in-memory OAuth token store: single-use authorization codes (section 4.1.2 of RFC 6749)
    and refresh-token rotation (section 6). Exchanges are cut at their `await`s, so their store
    steps interleave freely. Opaque tokens are numbers, drawn in sequence and hence fresh. */
module OAuthStore {
  import opened Prelude

  type Secret = nat

  datatype CodeRecord = CodeRecord(
    subject: string, clientId: string, redirectUri: string, scope: string, expiresAt: int)

  datatype TokenRecord = TokenRecord(subject: string, clientId: string, scope: string, expiresAt: int)

  // ----- Records -----

  function UsableCode(codes: map<Secret, CodeRecord>, code: Secret, now: int): Option<CodeRecord> {
    if code in codes && codes[code].expiresAt > now then Some(codes[code]) else None
  }

  function UsableToken(tokens: map<Secret, TokenRecord>, token: Secret, now: int): Option<TokenRecord> {
    if token in tokens && tokens[token].expiresAt > now then Some(tokens[token]) else None
  }

  function Granted(r: CodeRecord, expiresAt: int): TokenRecord {
    TokenRecord(r.subject, r.clientId, r.scope, expiresAt)
  }

  // ----- Interleaved exchanges -----

  /** Where an exchange in flight stands between two store calls. */
  datatype Task =
    | CodeConsumed(code: Secret, granted: CodeRecord)
    | TokenRead(token: Secret, held: TokenRecord)
    | TokenRevoked(held: TokenRecord)

  /** A code that was exchanged at some time, with its own client and redirect address, and
      before it expired. */
  datatype Grant = Grant(code: Secret, record: CodeRecord, clientId: string, redirectUri: string, at: int) {
    predicate Matches() { record.clientId == clientId && record.redirectUri == redirectUri && at < record.expiresAt }

    predicate Backs(t: TokenRecord) {
      t.subject == record.subject && t.clientId == record.clientId && t.scope == record.scope
    }
  }

  /** The store, the exchanges in flight, and what has happened: the codes granted and the
      codes for which a token response went out. */
  datatype State = State(
    codes: map<Secret, CodeRecord>, tokens: map<Secret, TokenRecord>, tasks: map<nat, Task>,
    next: Secret, grants: seq<Grant>, responses: seq<Secret>)

  const EMPTY := State(map[], map[], map[], 0, [], [])

  datatype Step =
    | IssueCode(record: CodeRecord)
    | StartExchange(code: Secret, redirectUri: string, clientId: string, now: int)
    | FinishExchange(task: nat, expiresAt: int)
    | StartRefresh(token: Secret, clientId: string, now: int)
    | Revoke(task: nat)
    | FinishRefresh(task: nat, expiresAt: int)

  predicate Enabled(s: State, step: Step) {
    match step
    case FinishExchange(t, _) => t in s.tasks && s.tasks[t].CodeConsumed?
    case Revoke(t) => t in s.tasks && s.tasks[t].TokenRead?
    case FinishRefresh(t, _) => t in s.tasks && s.tasks[t].TokenRevoked?
    case _ => true
  }

  function Do(s: State, step: Step): State
    requires Enabled(s, step)
  {
    match step
    case IssueCode(record) => s.(codes := s.codes[s.next := record], next := s.next + 1)
    case StartExchange(code, redirectUri, clientId, now) =>
      var r := UsableCode(s.codes, code, now);
      var t := s.(codes := s.codes - {code});
      if r.None? || r.value.clientId != clientId || r.value.redirectUri != redirectUri then t
      else t.(tasks := s.tasks[s.next := CodeConsumed(code, r.value)], next := s.next + 1,
              grants := s.grants + [Grant(code, r.value, clientId, redirectUri, now)])
    case FinishExchange(task, expiresAt) =>
      s.(tokens := s.tokens[s.next := Granted(s.tasks[task].granted, expiresAt)], next := s.next + 1,
         tasks := s.tasks - {task}, responses := s.responses + [s.tasks[task].code])
    case StartRefresh(token, clientId, now) =>
      var r := UsableToken(s.tokens, token, now);
      if r.None? || r.value.clientId != clientId then s
      else s.(tasks := s.tasks[s.next := TokenRead(token, r.value)], next := s.next + 1)
    case Revoke(task) =>
      s.(tokens := s.tokens - {s.tasks[task].token}, tasks := s.tasks[task := TokenRevoked(s.tasks[task].held)])
    case FinishRefresh(task, expiresAt) =>
      s.(tokens := s.tokens[s.next := s.tasks[task].held.(expiresAt := expiresAt)], next := s.next + 1,
         tasks := s.tasks - {task})
  }

  predicate Schedulable(s: State, steps: seq<Step>)
    decreases |steps|
  {
    steps == [] || (Enabled(s, steps[0]) && Schedulable(Do(s, steps[0]), steps[1..]))
  }

  function Run(s: State, steps: seq<Step>): State
    requires Schedulable(s, steps)
    decreases |steps|
  {
    if steps == [] then s else Run(Do(s, steps[0]), steps[1..])
  }

  // ----- What every interleaving keeps -----

  predicate Distinct(q: seq<Secret>) { forall i, j :: 0 <= i < j < |q| ==> q[i] != q[j] }

  predicate DistinctCodes(gs: seq<Grant>) { forall i, j :: 0 <= i < j < |gs| ==> gs[i].code != gs[j].code }

  ghost predicate Backed(gs: seq<Grant>, t: TokenRecord) { exists g :: g in gs && g.Backs(t) }

  /** A granted code is gone from the store; each grant is either still in flight or has been
      answered, never both and never twice. */
  ghost predicate CodesOk(s: State) {
    && DistinctCodes(s.grants) && Distinct(s.responses)
    && (forall g :: g in s.grants ==> g.Matches() && g.code !in s.codes && g.code < s.next)
    && (forall c :: c in s.codes ==> c < s.next)
    && (forall t :: t in s.tasks ==> t < s.next)
    && (forall t :: t in s.tasks && s.tasks[t].CodeConsumed? ==>
          s.tasks[t].code !in s.responses &&
          exists g :: g in s.grants && g.code == s.tasks[t].code && g.record == s.tasks[t].granted)
    && (forall t, u :: t in s.tasks && u in s.tasks && t != u &&
                       s.tasks[t].CodeConsumed? && s.tasks[u].CodeConsumed? ==>
          s.tasks[t].code != s.tasks[u].code)
    && (forall c :: c in s.responses ==> exists g :: g in s.grants && g.code == c)
  }

  /** Every refresh token, stored or in flight, stems from a grant. */
  ghost predicate TokensOk(s: State) {
    && (forall k :: k in s.tokens ==> Backed(s.grants, s.tokens[k]))
    && (forall t :: t in s.tasks ==>
          (s.tasks[t].TokenRead? ==> Backed(s.grants, s.tasks[t].held)) &&
          (s.tasks[t].TokenRevoked? ==> Backed(s.grants, s.tasks[t].held)) &&
          (s.tasks[t].CodeConsumed? ==> exists g :: g in s.grants && g.record == s.tasks[t].granted))
  }

  lemma StartExchangeCodes(s: State, step: Step)
    requires CodesOk(s) && step.StartExchange?
    ensures CodesOk(Do(s, step))
  {
  }

  lemma FinishExchangeCodes(s: State, step: Step)
    requires CodesOk(s) && Enabled(s, step) && step.FinishExchange?
    ensures CodesOk(Do(s, step))
  {
  }

  lemma StepCodes(s: State, step: Step)
    requires CodesOk(s) && Enabled(s, step)
    ensures CodesOk(Do(s, step))
  {
    match step
    case StartExchange(_, _, _, _) => StartExchangeCodes(s, step);
    case FinishExchange(_, _) => FinishExchangeCodes(s, step);
    case _ =>
  }

  lemma StepTokens(s: State, step: Step)
    requires TokensOk(s) && Enabled(s, step)
    ensures TokensOk(Do(s, step))
  {
  }

  lemma {:induction false} RunOk(s: State, steps: seq<Step>)
    requires CodesOk(s) && TokensOk(s) && Schedulable(s, steps)
    ensures CodesOk(Run(s, steps)) && TokensOk(Run(s, steps))
    decreases |steps|
  {
    if steps == [] {
    } else {
      StepCodes(s, steps[0]);
      StepTokens(s, steps[0]);
      RunOk(Do(s, steps[0]), steps[1..]);
    }
  }

  /** In every interleaving, each authorization code yields at most one token response, and
      every stored refresh token carries the subject, client and scope of a code that was
      exchanged with its own client and redirect address. */
  lemma InterleavingIsSafe(steps: seq<Step>)
    requires Schedulable(EMPTY, steps)
    ensures var s := Run(EMPTY, steps);
            && Distinct(s.responses) && DistinctCodes(s.grants)
            && (forall c :: c in s.responses ==> exists g :: g in s.grants && g.code == c && g.Matches())
            && (forall k :: k in s.tokens ==> exists g :: g in s.grants && g.Matches() && g.Backs(s.tokens[k]))
  {
    RunOk(EMPTY, steps);
    var s := Run(EMPTY, steps);
    forall k | k in s.tokens
      ensures exists g :: g in s.grants && g.Matches() && g.Backs(s.tokens[k])
    {
      var g :| g in s.grants && g.Backs(s.tokens[k]);
      assert g.Matches();
    }
  }

  // ----- Where grants come from -----

  /** The record was handed out with a code. */
  predicate WasIssued(steps: seq<Step>, record: CodeRecord) { IssueCode(record) in steps }

  ghost predicate CodesIssued(s: State, steps: seq<Step>) {
    && (forall c :: c in s.codes ==> WasIssued(steps, s.codes[c]))
    && (forall g :: g in s.grants ==> WasIssued(steps, g.record))
  }

  lemma {:induction false} RunKeepsIssued(s: State, before: seq<Step>, steps: seq<Step>)
    requires Schedulable(s, steps) && CodesIssued(s, before)
    ensures CodesIssued(Run(s, steps), before + steps)
    decreases |steps|
  {
    if steps == [] {
      assert before + steps == before;
    } else {
      var more := before + [steps[0]];
      assert forall r :: WasIssued(before, r) ==> WasIssued(more, r);
      assert CodesIssued(Do(s, steps[0]), more);
      RunKeepsIssued(Do(s, steps[0]), more, steps[1..]);
      assert more + steps[1..] == before + steps;
    }
  }

  /** In every interleaving the record behind a grant is one that was issued with a code. */
  lemma GrantsWereIssued(steps: seq<Step>)
    requires Schedulable(EMPTY, steps)
    ensures forall g :: g in Run(EMPTY, steps).grants ==> WasIssued(steps, g.record)
  {
    RunKeepsIssued(EMPTY, [], steps);
    assert [] + steps == steps;
  }

  // ----- Expiry -----

  /** Exactly when a refresh goes on: the token is stored for this client and has not expired. */
  lemma RefreshStartsExactly(s: State, token: Secret, clientId: string, now: int)
    ensures Do(s, StartRefresh(token, clientId, now)) ==
            if token in s.tokens && now < s.tokens[token].expiresAt && s.tokens[token].clientId == clientId
            then s.(tasks := s.tasks[s.next := TokenRead(token, s.tokens[token])], next := s.next + 1)
            else s
  {
  }

  /** Exactly when an exchange goes on: the code is stored with this client and redirect address
      and has not expired. It is gone from the store in any case. */
  lemma ExchangeStartsExactly(s: State, code: Secret, redirectUri: string, clientId: string, now: int)
    ensures var t := Do(s, StartExchange(code, redirectUri, clientId, now));
            && t.codes == s.codes - {code} && t.tokens == s.tokens && t.responses == s.responses
            && if code in s.codes && now < s.codes[code].expiresAt &&
                  s.codes[code].clientId == clientId && s.codes[code].redirectUri == redirectUri
               then t.tasks == s.tasks[s.next := CodeConsumed(code, s.codes[code])] && |t.grants| == |s.grants| + 1
               else t.tasks == s.tasks && t.grants == s.grants && t.next == s.next
  {
  }

  /** A step that stores a token which expires then. */
  predicate Stores(step: Step, expiresAt: int) {
    (step.FinishExchange? || step.FinishRefresh?) && step.expiresAt == expiresAt
  }

  lemma {:induction false} StoredWithExpiry(s: State, steps: seq<Step>, token: Secret)
    requires Schedulable(s, steps) && token in Run(s, steps).tokens
    ensures var t := Run(s, steps);
            || (token in s.tokens && s.tokens[token] == t.tokens[token])
            || exists i :: 0 <= i < |steps| && Stores(steps[i], t.tokens[token].expiresAt)
    decreases |steps|
  {
    if steps == [] {
    } else {
      var s1, t := Do(s, steps[0]), Run(s, steps);
      StoredWithExpiry(s1, steps[1..], token);
      if i :| 0 <= i < |steps[1..]| && Stores(steps[1..][i], t.tokens[token].expiresAt) {
        assert Stores(steps[i + 1], t.tokens[token].expiresAt);
      } else if token !in s.tokens || s.tokens[token] != s1.tokens[token] {
        assert Stores(steps[0], t.tokens[token].expiresAt);
      }
    }
  }

  /** In every interleaving, every grant was exchanged before its code expired, and every stored
      token expires when the step that stored it said. */
  lemma ExpiryIsKept(steps: seq<Step>, token: Secret)
    requires Schedulable(EMPTY, steps)
    ensures var s := Run(EMPTY, steps);
            && (forall g :: g in s.grants ==> g.at < g.record.expiresAt)
            && (token in s.tokens ==>
                  exists i :: 0 <= i < |steps| && Stores(steps[i], s.tokens[token].expiresAt))
  {
    RunOk(EMPTY, steps);
    if token in Run(EMPTY, steps).tokens {
      StoredWithExpiry(EMPTY, steps, token);
    }
  }

  // ----- One exchange at a time -----

  datatype Exchange =
    | Issue(record: CodeRecord)
    | ByCode(code: Secret, redirectUri: string, clientId: string, now: int, expiresAt: int)
    | ByToken(token: Secret, clientId: string, now: int, expiresAt: int)

  /** All steps of one exchange, with nothing in between. */
  function Whole(s: State, x: Exchange): State {
    match x
    case Issue(record) => Do(s, IssueCode(record))
    case ByCode(code, redirectUri, clientId, now, expiresAt) =>
      var s1 := Do(s, StartExchange(code, redirectUri, clientId, now));
      if s1.next == s.next then s1 else Do(s1, FinishExchange(s.next, expiresAt))
    case ByToken(token, clientId, now, expiresAt) =>
      var s1 := Do(s, StartRefresh(token, clientId, now));
      if s1.next == s.next then s1 else Do(Do(s1, Revoke(s.next)), FinishRefresh(s.next, expiresAt))
  }

  function RunWhole(s: State, xs: seq<Exchange>): State
    decreases |xs|
  {
    if xs == [] then s else RunWhole(Whole(s, xs[0]), xs[1..])
  }

  /** What a client gets: a code exchanged in time by its own client yields a refresh token with
      the subject, client and scope of the code; a second exchange of the code yields nothing. */
  lemma CodeYieldsTokenOnce(s: State, record: CodeRecord, now: int, expiresAt: int, again: int)
    requires now < record.expiresAt && forall t :: t in s.tasks ==> t < s.next
    ensures var exchange := ByCode(s.next, record.redirectUri, record.clientId, now, expiresAt);
            var t := Whole(Whole(s, Issue(record)), exchange);
            && t.tokens == s.tokens[s.next + 2 := TokenRecord(record.subject, record.clientId, record.scope, expiresAt)]
            && t.responses == s.responses + [s.next] && t.codes == s.codes - {s.next} && t.tasks == s.tasks
            && Whole(t, ByCode(s.next, record.redirectUri, record.clientId, again, expiresAt)) == t
  {
    var s1 := Whole(s, Issue(record));
    var exchange := ByCode(s.next, record.redirectUri, record.clientId, now, expiresAt);
    var t := Whole(s1, exchange);
    assert s1.codes[s.next] == record && s1.codes - {s.next} == s.codes - {s.next};
    assert t.codes - {s.next} == t.codes;
  }

  /** A refresh in time by its own client replaces the token by one for the same subject, client
      and scope; the old one cannot be refreshed again. */
  lemma RefreshReplacesToken(s: State, token: Secret, now: int, expiresAt: int, again: int)
    requires token in s.tokens && now < s.tokens[token].expiresAt && s.next + 1 != token
    requires forall t :: t in s.tasks ==> t < s.next
    ensures var refresh := ByToken(token, s.tokens[token].clientId, now, expiresAt);
            var t := Whole(s, refresh);
            && t.tokens == (s.tokens - {token})[s.next + 1 := s.tokens[token].(expiresAt := expiresAt)]
            && t.tasks == s.tasks && Whole(t, ByToken(token, s.tokens[token].clientId, again, expiresAt)) == t
  {
  }

  // ----- How many tokens there are -----

  /** Secrets and tasks are numbered below `next`. */
  ghost predicate Numbered(s: State) {
    && (forall k :: k in s.tokens ==> k < s.next)
    && (forall t :: t in s.tasks ==> t < s.next && (s.tasks[t].TokenRead? ==> s.tasks[t].token < s.next))
  }

  /** The exchanges in flight that have yet to store a token, for a code or a token used up. */
  function Owing(tasks: map<nat, Task>): set<nat> { set t | t in tasks && !tasks[t].TokenRead? }

  /** The code exchanges in flight. */
  function Unanswered(tasks: map<nat, Task>): set<nat> { set t | t in tasks && tasks[t].CodeConsumed? }

  /** A refresh in flight has read this token and not yet come to revoke it. */
  predicate Reading(tasks: map<nat, Task>, token: Secret) {
    exists t :: t in tasks && tasks[t].TokenRead? && tasks[t].token == token
  }

  /** The stored tokens that are being refreshed. */
  function ReadTokens(s: State): set<Secret> { set k | k in s.tokens && Reading(s.tasks, k) }

  /** A revocation that finds its token already gone. */
  predicate Misses(s: State, step: Step)
    requires Enabled(s, step)
  {
    step.Revoke? && s.tasks[step.task].token !in s.tokens
  }

  /** A refresh that reads a token which another refresh has read and not yet revoked. */
  predicate Collides(s: State, step: Step) {
    && step.StartRefresh? && Reading(s.tasks, step.token)
    && UsableToken(s.tokens, step.token, step.now).Some? && s.tokens[step.token].clientId == step.clientId
  }

  function Missed(s: State, steps: seq<Step>): nat
    requires Schedulable(s, steps)
    decreases |steps|
  {
    if steps == [] then 0 else (if Misses(s, steps[0]) then 1 else 0) + Missed(Do(s, steps[0]), steps[1..])
  }

  function Collisions(s: State, steps: seq<Step>): nat
    requires Schedulable(s, steps)
    decreases |steps|
  {
    if steps == [] then 0 else (if Collides(s, steps[0]) then 1 else 0) + Collisions(Do(s, steps[0]), steps[1..])
  }

  lemma MapSizes<V>(m: map<Secret, V>, k: Secret, v: V)
    ensures k !in m ==> |m[k := v]| == |m| + 1
    ensures k in m ==> |m - {k}| == |m| - 1
  {
  }

  /** Tokens stored or owed, less the codes granted: only a missed revocation adds to them. */
  function Surplus(s: State): int { |s.tokens| + |Owing(s.tasks)| - |s.grants| }

  /** Tokens stored or in some hands, less the codes granted: only a collision adds to them. */
  function Claims(s: State): int { |s.tokens| + |s.tasks| - |ReadTokens(s)| - |s.grants| }

  function Pending(s: State): int { |s.responses| + |Unanswered(s.tasks)| - |s.grants| }

  lemma TaskOwes(tasks: map<nat, Task>, n: nat, task: Task)
    requires n !in tasks
    ensures |Owing(tasks[n := task])| == |Owing(tasks)| + if task.TokenRead? then 0 else 1
  {
    if task.TokenRead? {
      assert Owing(tasks[n := task]) == Owing(tasks);
    } else {
      assert Owing(tasks[n := task]) == Owing(tasks) + {n};
    }
  }

  lemma TaskAnswers(tasks: map<nat, Task>, n: nat, task: Task)
    requires n !in tasks
    ensures |Unanswered(tasks[n := task])| == |Unanswered(tasks)| + if task.CodeConsumed? then 1 else 0
  {
    if task.CodeConsumed? {
      assert Unanswered(tasks[n := task]) == Unanswered(tasks) + {n};
    } else {
      assert Unanswered(tasks[n := task]) == Unanswered(tasks);
    }
  }

  lemma TaskRead(tasks: map<nat, Task>, n: nat, task: Task, k: Secret)
    requires n !in tasks
    ensures Reading(tasks[n := task], k) <==> Reading(tasks, k) || (task.TokenRead? && task.token == k)
  {
    var tasks' := tasks[n := task];
    if task.TokenRead? && task.token == k {
      assert n in tasks' && tasks'[n].TokenRead? && tasks'[n].token == k;
    } else if Reading(tasks, k) {
      var t :| t in tasks && tasks[t].TokenRead? && tasks[t].token == k;
      assert t in tasks' && tasks'[t].TokenRead? && tasks'[t].token == k;
    }
  }

  lemma TaskDone(tasks: map<nat, Task>, n: nat)
    requires n in tasks && !tasks[n].TokenRead?
    ensures |Owing(tasks - {n})| == |Owing(tasks)| - 1
    ensures |Unanswered(tasks - {n})| == |Unanswered(tasks)| - if tasks[n].CodeConsumed? then 1 else 0
  {
    assert Owing(tasks - {n}) == Owing(tasks) - {n};
    assert Unanswered(tasks - {n}) == Unanswered(tasks) - {n};
  }

  lemma TaskRevoked(tasks: map<nat, Task>, n: nat, task: Task)
    requires n in tasks && tasks[n].TokenRead? && task.TokenRevoked?
    ensures |Owing(tasks[n := task])| == |Owing(tasks)| + 1
    ensures |Unanswered(tasks[n := task])| == |Unanswered(tasks)| && |tasks[n := task]| == |tasks|
  {
    assert Owing(tasks[n := task]) == Owing(tasks) + {n};
    assert Unanswered(tasks[n := task]) == Unanswered(tasks);
    assert tasks[n := task].Keys == tasks.Keys;
  }

  lemma NewTaskReads(s: State, t: State, task: Task)
    requires s.next !in s.tasks && t.tasks == s.tasks[s.next := task] && t.tokens == s.tokens
    requires task.TokenRead? ==> task.token in s.tokens
    ensures ReadTokens(t) == if task.TokenRead? then ReadTokens(s) + {task.token} else ReadTokens(s)
  {
    forall k
      ensures k in ReadTokens(t) <==> k in ReadTokens(s) || (task.TokenRead? && k == task.token)
    {
      TaskRead(s.tasks, s.next, task, k);
    }
  }

  lemma StartsAccount(s: State, step: Step)
    requires Numbered(s) && (step.IssueCode? || step.StartExchange?)
    ensures var t := Do(s, step);
            Surplus(t) == Surplus(s) && Claims(t) == Claims(s) && Pending(t) == Pending(s)
  {
    var t := Do(s, step);
    if t.grants == s.grants {
      assert t.tasks == s.tasks && t.tokens == s.tokens && t.responses == s.responses;
    } else {
      var task := t.tasks[s.next];
      TaskOwes(s.tasks, s.next, task);
      TaskAnswers(s.tasks, s.next, task);
      MapSizes(s.tasks, s.next, task);
      NewTaskReads(s, t, task);
    }
  }

  lemma DoneTaskReads(s: State, t: State, task: nat)
    requires Numbered(s) && task in s.tasks && !s.tasks[task].TokenRead? && t.tasks == s.tasks - {task}
    requires t.tokens.Keys == s.tokens.Keys + {s.next}
    ensures ReadTokens(t) == ReadTokens(s)
  {
    assert !Reading(s.tasks, s.next);
    forall k
      ensures k in ReadTokens(t) <==> k in ReadTokens(s)
    {
      if Reading(s.tasks, k) {
        var n :| n in s.tasks && s.tasks[n].TokenRead? && s.tasks[n].token == k;
        assert n in t.tasks;
      }
    }
  }

  /** A task ends and stores a token. */
  lemma TaskStores(s: State, task: nat, record: TokenRecord, t: State)
    requires Numbered(s) && task in s.tasks && !s.tasks[task].TokenRead?
    requires t.tasks == s.tasks - {task} && t.tokens == s.tokens[s.next := record] && t.grants == s.grants
    ensures Surplus(t) == Surplus(s) && Claims(t) == Claims(s)
  {
    assert |t.tokens| == |s.tokens| + 1 by {
      MapSizes(s.tokens, s.next, record);
    }
    assert |t.tasks| == |s.tasks| - 1 by {
      MapSizes(s.tasks, task, s.tasks[task]);
    }
    assert |Owing(t.tasks)| == |Owing(s.tasks)| - 1 by {
      TaskDone(s.tasks, task);
    }
    assert ReadTokens(t) == ReadTokens(s) by {
      DoneTaskReads(s, t, task);
    }
  }

  lemma FinishExchangeAccounts(s: State, step: Step)
    requires Numbered(s) && Enabled(s, step) && step.FinishExchange?
    ensures var t := Do(s, step);
            Surplus(t) == Surplus(s) && Claims(t) == Claims(s) && Pending(t) == Pending(s)
  {
    TaskStores(s, step.task, Granted(s.tasks[step.task].granted, step.expiresAt), Do(s, step));
    TaskDone(s.tasks, step.task);
  }

  lemma FinishRefreshAccounts(s: State, step: Step)
    requires Numbered(s) && Enabled(s, step) && step.FinishRefresh?
    ensures var t := Do(s, step);
            Surplus(t) == Surplus(s) && Claims(t) == Claims(s) && Pending(t) == Pending(s)
  {
    TaskStores(s, step.task, s.tasks[step.task].held.(expiresAt := step.expiresAt), Do(s, step));
    TaskDone(s.tasks, step.task);
  }

  /** A task starts with a token that it has read. */
  lemma TaskReads(s: State, task: Task, t: State)
    requires Numbered(s) && task.TokenRead? && task.token in s.tokens
    requires t == s.(tasks := s.tasks[s.next := task], next := s.next + 1)
    ensures Surplus(t) == Surplus(s) && Pending(t) == Pending(s)
    ensures Claims(t) == Claims(s) + if Reading(s.tasks, task.token) then 1 else 0
  {
    TaskOwes(s.tasks, s.next, task);
    TaskAnswers(s.tasks, s.next, task);
    MapSizes(s.tasks, s.next, task);
    NewTaskReads(s, t, task);
    if Reading(s.tasks, task.token) {
      assert ReadTokens(t) == ReadTokens(s);
    }
  }

  lemma ReadAccounts(s: State, step: Step)
    requires Numbered(s) && step.StartRefresh?
    ensures var t := Do(s, step);
            Surplus(t) == Surplus(s) && Pending(t) == Pending(s) &&
            Claims(t) == Claims(s) + if Collides(s, step) then 1 else 0
  {
    var r := UsableToken(s.tokens, step.token, step.now);
    if r.Some? && r.value.clientId == step.clientId {
      TaskReads(s, TokenRead(step.token, r.value), Do(s, step));
    }
  }

  lemma TokenGone(tokens: map<Secret, TokenRecord>, token: Secret)
    ensures |tokens - {token}| == |tokens| - if token in tokens then 1 else 0
  {
    assert (tokens - {token}).Keys == tokens.Keys - {token};
  }

  lemma RevokedTaskReads(tasks: map<nat, Task>, n: nat, task: Task, k: Secret)
    requires n in tasks && tasks[n].TokenRead? && task.TokenRevoked? && k != tasks[n].token
    ensures Reading(tasks[n := task], k) <==> Reading(tasks, k)
  {
    if Reading(tasks, k) {
      var m :| m in tasks && tasks[m].TokenRead? && tasks[m].token == k;
      assert m in tasks[n := task] && tasks[n := task][m] == tasks[m];
    }
  }

  lemma RevokeReads(s: State, n: nat, t: State, task: Task)
    requires n in s.tasks && s.tasks[n].TokenRead? && task.TokenRevoked?
    requires t.tasks == s.tasks[n := task] && t.tokens == s.tokens - {s.tasks[n].token}
    ensures ReadTokens(t) == ReadTokens(s) - {s.tasks[n].token}
    ensures s.tasks[n].token in ReadTokens(s) <==> s.tasks[n].token in s.tokens
  {
    var token := s.tasks[n].token;
    assert Reading(s.tasks, token);
    forall k
      ensures k in ReadTokens(t) <==> k in ReadTokens(s) - {token}
    {
      if k != token {
        RevokedTaskReads(s.tasks, n, task, k);
      }
    }
  }

  lemma RevokeAccounts(s: State, step: Step)
    requires Numbered(s) && Enabled(s, step) && step.Revoke?
    ensures var t := Do(s, step);
            Claims(t) == Claims(s) && Pending(t) == Pending(s) &&
            Surplus(t) == Surplus(s) + if Misses(s, step) then 1 else 0
  {
    var t := Do(s, step);
    TaskRevoked(s.tasks, step.task, t.tasks[step.task]);
    RevokeReads(s, step.task, t, t.tasks[step.task]);
    TokenGone(s.tokens, s.tasks[step.task].token);
  }

  lemma StepNumbered(s: State, step: Step)
    requires Numbered(s) && Enabled(s, step)
    ensures Numbered(Do(s, step))
  {
  }

  lemma StepAccounts(s: State, step: Step)
    requires Numbered(s) && Enabled(s, step)
    ensures var t := Do(s, step);
            && Numbered(t) && Pending(t) == Pending(s)
            && Surplus(t) == Surplus(s) + (if Misses(s, step) then 1 else 0)
            && Claims(t) == Claims(s) + (if Collides(s, step) then 1 else 0)
  {
    StepNumbered(s, step);
    match step
    case IssueCode(_) => StartsAccount(s, step);
    case StartExchange(_, _, _, _) => StartsAccount(s, step);
    case FinishExchange(_, _) => FinishExchangeAccounts(s, step);
    case FinishRefresh(_, _) => FinishRefreshAccounts(s, step);
    case StartRefresh(_, _, _) => ReadAccounts(s, step);
    case Revoke(_) => RevokeAccounts(s, step);
  }

  /** The books of every interleaving, from any state: missed revocations are the only source
      of surplus tokens, and collisions the only source of surplus claims. */
  lemma {:induction false} RunAccounts(s: State, steps: seq<Step>)
    requires Numbered(s) && Schedulable(s, steps)
    ensures var t := Run(s, steps);
            && Numbered(t) && Pending(t) == Pending(s)
            && Surplus(t) == Surplus(s) + Missed(s, steps)
            && Claims(t) == Claims(s) + Collisions(s, steps)
    decreases |steps|
  {
    if steps == [] {
    } else {
      StepAccounts(s, steps[0]);
      RunAccounts(Do(s, steps[0]), steps[1..]);
    }
  }

  /** Exactly when stored tokens outnumber exchanged codes. In every interleaving the tokens
      stored or owed are the codes exchanged plus the revocations that found their token gone.
      Once nothing is in flight, these are as many as the refreshes that started while another
      one had read the same token and not yet revoked it. */
  lemma TokensMatchCodesExactly(steps: seq<Step>)
    requires Schedulable(EMPTY, steps)
    ensures var s := Run(EMPTY, steps);
            && |s.tokens| + |Owing(s.tasks)| == |s.grants| + Missed(EMPTY, steps)
            && |s.responses| + |Unanswered(s.tasks)| == |s.grants|
            && (|s.tokens| <= |s.grants| <==> Missed(EMPTY, steps) <= |Owing(s.tasks)|)
            && (s.tasks == map[] ==>
                  && |s.tokens| == |s.grants| + Collisions(EMPTY, steps)
                  && Missed(EMPTY, steps) == Collisions(EMPTY, steps)
                  && (|s.tokens| == |s.grants| <==> Collisions(EMPTY, steps) == 0))
  {
    RunAccounts(EMPTY, steps);
    var s := Run(EMPTY, steps);
    assert Owing(EMPTY.tasks) == {} && Unanswered(EMPTY.tasks) == {} && ReadTokens(EMPTY) == {};
    if s.tasks == map[] {
      assert Owing(s.tasks) == {} && ReadTokens(s) == {};
    }
  }

  // ----- One exchange at a time, and two at once -----

  /** A schedule that leads from `s` to `t` with the given number of missed revocations. */
  predicate Reaches(s: State, steps: seq<Step>, t: State, missed: nat) {
    Schedulable(s, steps) && Run(s, steps) == t && Missed(s, steps) == missed
  }

  lemma ReachesCons(s: State, step: Step, rest: seq<Step>, t: State, missed: nat)
    requires Enabled(s, step) && Reaches(Do(s, step), rest, t, missed)
    ensures Reaches(s, [step] + rest, t, missed + if Misses(s, step) then 1 else 0)
  {
    assert ([step] + rest)[0] == step && ([step] + rest)[1..] == rest;
  }

  /** An exchange run on its own misses nothing and leaves nothing behind. */
  lemma WholeReached(s: State, x: Exchange) returns (steps: seq<Step>)
    requires Numbered(s)
    ensures Reaches(s, steps, Whole(s, x), 0) && Whole(s, x).tasks == s.tasks
  {
    var t := Whole(s, x);
    match x
    case Issue(record) =>
      ReachesCons(s, IssueCode(record), [], t, 0);
      steps := [IssueCode(record)] + [];
    case ByCode(code, redirectUri, clientId, now, expiresAt) =>
      var start := StartExchange(code, redirectUri, clientId, now);
      steps := [];
      if Do(s, start).next != s.next {
        ReachesCons(Do(s, start), FinishExchange(s.next, expiresAt), [], t, 0);
        steps := [FinishExchange(s.next, expiresAt)] + [];
      }
      ReachesCons(s, start, steps, t, 0);
      steps := [start] + steps;
    case ByToken(token, clientId, now, expiresAt) =>
      var start := StartRefresh(token, clientId, now);
      steps := [];
      if Do(s, start).next != s.next {
        var s1 := Do(s, start);
        ReachesCons(Do(s1, Revoke(s.next)), FinishRefresh(s.next, expiresAt), [], t, 0);
        ReachesCons(s1, Revoke(s.next), [FinishRefresh(s.next, expiresAt)] + [], t, 0);
        steps := [Revoke(s.next)] + ([FinishRefresh(s.next, expiresAt)] + []);
      }
      ReachesCons(s, start, steps, t, 0);
      steps := [start] + steps;
  }

  ghost predicate Balanced(s: State) {
    |s.tokens| == |s.responses| == |s.grants| && Numbered(s)
  }

  lemma WholeBalanced(s: State, x: Exchange)
    requires Balanced(s)
    ensures Balanced(Whole(s, x))
  {
    var steps := WholeReached(s, x);
    RunAccounts(s, steps);
    assert Owing(Whole(s, x).tasks) == Owing(s.tasks) && Unanswered(Whole(s, x).tasks) == Unanswered(s.tasks);
  }

  /** With exchanges run one at a time, there are exactly as many stored refresh tokens as
      codes exchanged: a refresh replaces its token. */
  lemma {:induction false} OneTokenPerCode(s: State, xs: seq<Exchange>)
    requires Balanced(s)
    ensures Balanced(RunWhole(s, xs))
    decreases |xs|
  {
    if xs == [] {
    } else {
      WholeBalanced(s, xs[0]);
      OneTokenPerCode(Whole(s, xs[0]), xs[1..]);
    }
  }

  /** Two refreshes of one token that both read it before either revokes it. */
  function Overlapping(token: Secret, clientId: string, now: int, n: nat, expiresAt: int): seq<Step> {
    var start := StartRefresh(token, clientId, now);
    [start, start, Revoke(n), Revoke(n + 1), FinishRefresh(n, expiresAt), FinishRefresh(n + 1, expiresAt)]
  }

  lemma BothRead(s: State, token: Secret, now: int) returns (t: State)
    requires UsableToken(s.tokens, token, now).Some?
    ensures var start := StartRefresh(token, s.tokens[token].clientId, now); t == Do(Do(s, start), start)
    ensures var read := TokenRead(token, s.tokens[token]);
            t == s.(tasks := s.tasks[s.next := read][s.next + 1 := read], next := s.next + 2)
  {
    var start := StartRefresh(token, s.tokens[token].clientId, now);
    t := Do(Do(s, start), start);
  }

  function RevokesAndFinishes(n: nat, expiresAt: int): seq<Step> {
    [Revoke(n)] + ([Revoke(n + 1)] + ([FinishRefresh(n, expiresAt)] + ([FinishRefresh(n + 1, expiresAt)] + [])))
  }

  lemma BothFinish(s: State, n: nat, token: Secret, r: TokenRecord, expiresAt: int) returns (t: State)
    requires n in s.tasks && n + 1 in s.tasks && s.tasks[n] == s.tasks[n + 1] == TokenRead(token, r)
    requires token in s.tokens
    ensures Reaches(s, RevokesAndFinishes(n, expiresAt), t, 1)
    ensures t.tasks == s.tasks - {n, n + 1} && t.grants == s.grants
  {
    var last := FinishRefresh(n + 1, expiresAt);
    var s1 := Do(s, Revoke(n));
    var s2 := Do(s1, Revoke(n + 1));
    var s3 := Do(s2, FinishRefresh(n, expiresAt));
    t := Do(s3, last);
    ReachesCons(s3, last, [], t, 0);
    ReachesCons(s2, FinishRefresh(n, expiresAt), [last] + [], t, 0);
    ReachesCons(s1, Revoke(n + 1), [FinishRefresh(n, expiresAt)] + ([last] + []), t, 0);
    ReachesCons(s, Revoke(n), [Revoke(n + 1)] + ([FinishRefresh(n, expiresAt)] + ([last] + [])), t, 1);
  }

  lemma OverlapReached(s: State, token: Secret, now: int, expiresAt: int) returns (t: State)
    requires UsableToken(s.tokens, token, now).Some? && s.next !in s.tasks && s.next + 1 !in s.tasks
    ensures Reaches(s, Overlapping(token, s.tokens[token].clientId, now, s.next, expiresAt), t, 1)
    ensures t.tasks == s.tasks && t.grants == s.grants
  {
    var n, r := s.next, s.tokens[token];
    var start := StartRefresh(token, r.clientId, now);
    var s2 := BothRead(s, token, now);
    t := BothFinish(s2, n, token, r, expiresAt);
    var rest := RevokesAndFinishes(n, expiresAt);
    ReachesCons(Do(s, start), start, rest, t, 1);
    ReachesCons(s, start, [start] + rest, t, 1);
    assert [start] + ([start] + rest) == Overlapping(token, r.clientId, now, n, expiresAt);
  }

  /** Interleaved, the balance is lost: from every state with a usable token, two overlapping
      refreshes miss one revocation and leave one token more, for the same grants. */
  lemma OverlapAddsToken(s: State, token: Secret, now: int, expiresAt: int) returns (t: State)
    requires UsableToken(s.tokens, token, now).Some? && Numbered(s)
    ensures Reaches(s, Overlapping(token, s.tokens[token].clientId, now, s.next, expiresAt), t, 1)
    ensures |t.tokens| == |s.tokens| + 1 && t.grants == s.grants
  {
    t := OverlapReached(s, token, now, expiresAt);
    RunAccounts(s, Overlapping(token, s.tokens[token].clientId, now, s.next, expiresAt));
  }

  // ----- The store -----

  /** The store and the exchanges on it. The methods named after steps are the stretches of an
      exchange between two `await`s. */
  class InMemoryOAuthTokenStore {
    var authorizationCodes: map<Secret, CodeRecord>
    var refreshTokens: map<Secret, TokenRecord>
    // The suspended exchanges with their local variables, and the source of fresh secrets.
    var tasks: map<nat, Task>
    var next: Secret
    ghost var grants: seq<Grant>
    ghost var responses: seq<Secret>

    constructor ()
      ensures Contents() == EMPTY
    {
      authorizationCodes, refreshTokens, tasks, next := map[], map[], map[], 0;
      grants, responses := [], [];
    }

    ghost function Contents(): State
      reads this
    {
      State(authorizationCodes, refreshTokens, tasks, next, grants, responses)
    }

    method SaveAuthorizationCode(code: Secret, record: CodeRecord)
      modifies this`authorizationCodes
      ensures authorizationCodes == old(authorizationCodes)[code := record]
    {
      authorizationCodes := authorizationCodes[code := record];
    }

    method ConsumeAuthorizationCode(code: Secret, now: int) returns (r: Option<CodeRecord>)
      modifies this`authorizationCodes
      ensures r == UsableCode(old(authorizationCodes), code, now)
      ensures authorizationCodes == old(authorizationCodes) - {code}
    {
      var record := if code in authorizationCodes then Some(authorizationCodes[code]) else None;
      authorizationCodes := authorizationCodes - {code};
      r := if record.None? || record.value.expiresAt <= now then None else record;
    }

    method SaveRefreshToken(token: Secret, record: TokenRecord)
      modifies this`refreshTokens
      ensures refreshTokens == old(refreshTokens)[token := record]
    {
      refreshTokens := refreshTokens[token := record];
    }

    method GetRefreshToken(token: Secret, now: int) returns (r: Option<TokenRecord>)
      ensures r == UsableToken(refreshTokens, token, now)
    {
      var record := if token in refreshTokens then Some(refreshTokens[token]) else None;
      r := if record.None? || record.value.expiresAt <= now then None else record;
    }

    method RevokeRefreshToken(token: Secret)
      modifies this`refreshTokens
      ensures refreshTokens == old(refreshTokens) - {token}
    {
      refreshTokens := refreshTokens - {token};
    }

    /** Sets the local variables of an exchange aside until its store call returns. */
    method Suspend(task: Task) returns (id: nat)
      modifies this`tasks, this`next
      ensures id == old(next) && next == old(next) + 1 && tasks == old(tasks)[id := task]
    {
      id := next;
      tasks, next := tasks[next := task], next + 1;
    }

    /** The authorization endpoint hands out a code. */
    method Authorize(record: CodeRecord) returns (code: Secret)
      modifies this
      ensures Contents() == Do(old(Contents()), IssueCode(record)) && code == old(next)
    {
      code, next := next, next + 1;
      SaveAuthorizationCode(code, record);
    }

    method BeginExchange(code: Secret, redirectUri: string, clientId: string, now: int) returns (task: Option<nat>)
      modifies this
      ensures Contents() == Do(old(Contents()), StartExchange(code, redirectUri, clientId, now))
      ensures var r := UsableCode(old(authorizationCodes), code, now);
              task == if r.Some? && r.value.clientId == clientId && r.value.redirectUri == redirectUri
                      then Some(old(next)) else None
    {
      var record := ConsumeAuthorizationCode(code, now);
      if record.None? || record.value.clientId != clientId || record.value.redirectUri != redirectUri {
        return None;
      }
      grants := grants + [Grant(code, record.value, clientId, redirectUri, now)];
      var id := Suspend(CodeConsumed(code, record.value));
      task := Some(id);
    }

    method EndExchange(task: nat, expiresAt: int) returns (token: Secret)
      requires task in tasks && tasks[task].CodeConsumed?
      modifies this
      ensures Contents() == Do(old(Contents()), FinishExchange(task, expiresAt)) && token == old(next)
    {
      var local := tasks[task];
      token, next := next, next + 1;
      SaveRefreshToken(token, Granted(local.granted, expiresAt));
      tasks, responses := tasks - {task}, responses + [local.code];
    }

    method BeginRefresh(token: Secret, clientId: string, now: int) returns (task: Option<nat>)
      modifies this
      ensures Contents() == Do(old(Contents()), StartRefresh(token, clientId, now))
      ensures var r := UsableToken(old(refreshTokens), token, now);
              task == if r.Some? && r.value.clientId == clientId then Some(old(next)) else None
    {
      var record := GetRefreshToken(token, now);
      if record.None? || record.value.clientId != clientId {
        return None;
      }
      var id := Suspend(TokenRead(token, record.value));
      task := Some(id);
    }

    method RevokeRead(task: nat)
      requires task in tasks && tasks[task].TokenRead?
      modifies this
      ensures Contents() == Do(old(Contents()), Revoke(task))
    {
      RevokeRefreshToken(tasks[task].token);
      tasks := tasks[task := TokenRevoked(tasks[task].held)];
    }

    method EndRefresh(task: nat, expiresAt: int) returns (token: Secret)
      requires task in tasks && tasks[task].TokenRevoked?
      modifies this
      ensures Contents() == Do(old(Contents()), FinishRefresh(task, expiresAt)) && token == old(next)
    {
      var local := tasks[task];
      token, next := next, next + 1;
      SaveRefreshToken(token, local.held.(expiresAt := expiresAt));
      tasks := tasks - {task};
    }

    /** A whole code exchange, undisturbed. */
    method ExchangeAuthorizationCode(code: Secret, redirectUri: string, clientId: string, now: int, expiresAt: int)
      returns (token: Option<Secret>)
      modifies this
      ensures Contents() == Whole(old(Contents()), ByCode(code, redirectUri, clientId, now, expiresAt))
      ensures var r := UsableCode(old(authorizationCodes), code, now);
              && (token.Some? <==> r.Some? && r.value.clientId == clientId && r.value.redirectUri == redirectUri)
              && authorizationCodes == old(authorizationCodes) - {code}
              && refreshTokens == if token.Some? then old(refreshTokens)[token.value := Granted(r.value, expiresAt)]
                                  else old(refreshTokens)
    {
      var task := BeginExchange(code, redirectUri, clientId, now);
      if task.None? {
        return None;
      }
      var issued := EndExchange(task.value, expiresAt);
      token := Some(issued);
    }

    /** A whole refresh, undisturbed: the new token replaces the old one. */
    method ExchangeRefreshToken(token: Secret, clientId: string, now: int,
                                expiresAt: int) returns (newToken: Option<Secret>)
      modifies this
      ensures Contents() == Whole(old(Contents()), ByToken(token, clientId, now, expiresAt))
      ensures var r := UsableToken(old(refreshTokens), token, now);
              && (newToken.Some? <==> r.Some? && r.value.clientId == clientId)
              && authorizationCodes == old(authorizationCodes)
              && refreshTokens ==
                 if newToken.Some?
                 then (old(refreshTokens) - {token})[newToken.value := r.value.(expiresAt := expiresAt)]
                 else old(refreshTokens)
    {
      var task := BeginRefresh(token, clientId, now);
      if task.None? {
        return None;
      }
      RevokeRead(task.value);
      var issued := EndRefresh(task.value, expiresAt);
      newToken := Some(issued);
    }
  }
}
