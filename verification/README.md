# Verified models of the mobile-money service

Dafny models of the algorithms and state machines of a mobile-money backend, with proofs of
what they promise over all inputs, all runs and all interleavings. `dafny verify dfyconfig.toml`
checks the whole project. There is one module per component:

| file | component |
|---|---|
| `EditDistance.dfy`, `SanctionsMatcher.dfy` | name screening against sanctions lists |
| `SwapRouter.dfy` | the multi-hop swap router contract |
| `Lockout.dfy` | login lockout |
| `JwtKeys.dfy` | JWT key rotation with a grace window |
| `Velocity.dfy` | the structuring alert over a rolling window |
| `ConnectionPool.dfy` | the Redis connection pool of the ingest node |
| `Deployer.dfy` | the resumable contract deployer |
| `WasmSections.dfy` | the WASM section reader |
| `OAuthStore.dfy` | authorization codes and refresh-token rotation |
| `PhoneInput.dfy` | phone number detection, validation and printing |
| `ReplicaRouter.dfy` | read-replica routing |
| `Prelude.dfy` | options, decimal notation, joining |

Code that updates state is a class whose methods are proved equal to a step function on a state
datatype; the results about runs are lemmas over those step functions. What lies outside a
component is a parameter: the clock, generated keys and tokens, the outcome of commands and
connections, the code of the pools, the name normaliser, the read-only test on SQL.

## Results in brief

- **Screening.** The table computes the length of the shortest edit script, and that length is a
  metric. Below 20000 characters a customer is blocked exactly when an entry has the same bag of
  tokens; from 20000 characters on, rounding hides a wrong character at every length. A customer is
  flagged exactly when an entry is within 15% of edits. A longer list never weakens the outcome.
- **Router.** A successful swap returns at least the caller's minimum, however the pools pay. It
  returns at least the composed per-hop floors for all monotone pools exactly if the path visits no
  pool twice. Honest pools whose quotes fit the arithmetic return exactly the announced amount.
- **Lockout.** Any half-open interval of one window holds at most max(1, 2·MAX − 2) counted
  failures, in all runs, if and only if a lock lasts at least a window. The bound is attained.
- **Key rotation.** Verification returns the primary and then the keys of a log that nothing is
  removed from, inside their window. Lazy cleanup is unobservable, key ids included, exactly if no
  number in the store is above the primary's, which holds from the first rotation on; before it, an
  expired higher key can have its id issued again. A primary verifies for a whole grace period after.
- **Velocity.** The pruned history answers as the complete log would, every answer is the count and
  sum of the window's events, and no window holds more than triggerCount − 1 approved structuring
  transactions.
- **Connection pool.** In every interleaving the pool is the disjoint union of available and used
  connections. No connection is ever in two hands as long as borrowers release what they hold and
  nothing else; a release of a connection in use is safe exactly if its holder makes it. If nothing
  closes before the pool is initialised, one `initialize` call keeps the size bound under all
  limits, and any number of them keep it exactly if the minimum is one. With close events during
  the initialisation, one call keeps it exactly if the maximum is at least twice the minimum less
  one. After a shutdown of n connections between min(n, minimum) and n of them come back.
- **Deployer.** Wherever runs are cut off, an initialised entry on disk has an id that was deployed
  from its upload and on which the configured calls succeeded in order with deployed ids as
  arguments, ids only change under force, and a second run does nothing. On a network that takes some functions only once, a re-run
  that is not hindered otherwise gets to its end exactly if no contract is half done, that is,
  initialised on the network but not in the file; a half-done contract stays so through any runs
  that do not force it.
- **WASM.** The reader undoes the encoding for sizes below 2^31 and reads larger 32-bit sizes as
  negative numbers. On any buffer without such a size its loop ends; in general it fails to end
  exactly if it comes back to an offset, which shows within 2^31 + length + 1 rounds.
- **OAuth.** In every interleaving a code yields at most one response and every refresh token stems
  from a matching grant. Once nothing is in flight, stored tokens are the exchanged codes plus the
  refreshes that started while another one had read the same token and not yet revoked it.
- **Phone.** What validation prints validates again, under any selected country, with the very
  same result.
- **Replicas.** In every interleaving, statements that are not read-only never reach a replica and
  every other one visits at most one before the primary; in every interleaving that leaves the n active replicas as they are, any n picks in a row hit each exactly
  once; an unreachable replica is not picked again, in any interleaving,
  until the lag monitor sets its status.

## Where code and documentation differ

- `adminUnlock` says that it returns true if an active lock was removed
  (src/auth/lockout.ts:278-281). The code returns true for a bare attempt counter as well;
  `Lockout.Store.AdminUnlock` states the code.
- The attempt window is called sliding (src/auth/lockout.ts:9, 172). It is a window fixed by the
  first failure, which is why up to 2·MAX − 2 failures fit into an interval of its length.
- A failed deployment "can simply be re-run" (scripts/deployContracts.ts:12-14). `initialized` is
  noted only after all calls (scripts/deployContracts.ts:338-347), so a re-run repeats `initialize`
  on the same id, which the repository's contracts refuse (contracts/blacklist/src/lib.rs:92-94,
  contracts/bridge/src/lib.rs:242-244). See `Deployer.CutOffLeavesHalfDone`, `Deployer.StuckForever`
  and `Deployer.RerunCompletesExactly`.
- `shutdown` (ingest-node/src/index.ts:328-347) disconnects every client, and each close event finds
  the pool below its minimum and starts a replacement; see `ConnectionPool.ShutdownComesBack`.
- Key ids are not unique over time (src/auth/jwtKeys.ts:190-198 looks at the store only); see
  `JwtKeys.ReissuedKid` and `JwtKeys.CleanupIsUnobservable`.

## What the interleavings cover

Every `await` is a point at which anything else may run. Where a promise is already settled the
program leaves less room, so some failing schedules over-approximate it:

- `createConnection` (ingest-node/src/index.ts:171-194) contains no `await`, so no close event can
  run before `initialize` or `getConnection` stores the client. The schedules of
  `ConnectionPool.DisturbedInit`, and with them the failing half of
  `ConnectionPool.BoundHoldsExactlyForWideLimits`, need such an event: they say what an `await` in
  `createConnection` would put at stake. For the same reason a shutdown brings back the smaller
  number of `ConnectionPool.ShutdownBoundsAttained`. The schedules of `ConnectionPool.OverlappingInits` need
  only several `initialize` calls before the first one is done.
- The calls of the in-memory OAuth store return settled promises (src/auth/oauth.ts:69-118), so two
  refreshes overlap, as in `OAuthStore.OverlapAddsToken`, only if both start in one task.

## Model

| member | source | states |
|---|---|---|
| `EditDistance.LevenshteinDistance` | src/compliance/sanctionsMatcher.ts:43-63 | the last cell of the table is the length of an edit script from s1 to s2, and no script is shorter |
| `EditDistance.FillBorders` | src/compliance/sanctionsMatcher.ts:48-49 | first column and first row hold their index |
| `EditDistance.FillInterior` | src/compliance/sanctionsMatcher.ts:51-60 | the nested loops fill every cell with the solution of the recurrence |
| `EditDistance.DistanceIsOptimal` | src/compliance/sanctionsMatcher.ts:43-63 | the distance is the minimum over all scripts of insertions, deletions and substitutions |
| `EditDistance.ShortestScript` | src/compliance/sanctionsMatcher.ts:53-58 | a script as long as the distance exists |
| `EditDistance.NoShorterScript` | src/compliance/sanctionsMatcher.ts:53-58 | every script is at least as long as the distance |
| `EditDistance.DistanceZero` | src/compliance/sanctionsMatcher.ts:43-63 | zero exactly on equal strings |
| `EditDistance.DistanceSymmetric` | src/compliance/sanctionsMatcher.ts:43-63 | symmetric |
| `EditDistance.TriangleInequality` | src/compliance/sanctionsMatcher.ts:43-63 | the triangle inequality, for all strings |
| `EditDistance.DistanceBounds` | src/compliance/sanctionsMatcher.ts:43-63 | between the length difference and the longer length |
| `SanctionsMatcher.SortCorrect` | src/compliance/sanctionsMatcher.ts:82-83 | token sorting yields a sorted permutation |
| `SanctionsMatcher.SplitJoin` | src/compliance/sanctionsMatcher.ts:82-83 | splitting undoes joining for tokens without spaces |
| `SanctionsMatcher.TokenSortedCanonical` | src/compliance/sanctionsMatcher.ts:82-83 | two names have the same token-sorted form exactly if they have the same bag of tokens |
| `SanctionsMatcher.TokenSortedLength` | src/compliance/sanctionsMatcher.ts:82-84 | token sorting keeps the length, so both scores have the same denominator |
| `SanctionsMatcher.SimilarityExact` | src/compliance/sanctionsMatcher.ts:76-89 | the score is the nearest multiple of 1/10000 to the share of characters that need no edit, ties upwards |
| `SanctionsMatcher.SimilaritySymmetric` | src/compliance/sanctionsMatcher.ts:69-90 | the score does not depend on the order of the names |
| `SanctionsMatcher.SimilarityRange` | src/compliance/sanctionsMatcher.ts:65-90 | scores lie in [0, 1]; they reach 1 exactly if both names are non-empty and 20000 times the distance is at most the length |
| `SanctionsMatcher.PerfectScoreMeansSameTokens` | src/compliance/sanctionsMatcher.ts:73-89 | below 20000 characters, 1.0 means the same bag of tokens, both ways |
| `SanctionsMatcher.RoundingHidesOneCharacter` | src/compliance/sanctionsMatcher.ts:89 | at every length from 20000 on, some names with different tokens score 1.0 |
| `SanctionsMatcher.FindClosest` | src/compliance/sanctionsMatcher.ts:96-105 | the loop returns the highest score and the first entry that reaches it |
| `SanctionsMatcher.Classify` | src/compliance/sanctionsMatcher.ts:107-136 | block at 1.0, review from 0.85, pass otherwise, with the entry reported only when flagged |
| `SanctionsMatcher.ScreenCustomerName` | src/compliance/sanctionsMatcher.ts:92-137 | the result is the screening outcome of the list |
| `SanctionsMatcher.OutcomeUnique` | src/compliance/sanctionsMatcher.ts:92-137 | the specification of an outcome determines it |
| `SanctionsMatcher.BlockedExactlyOnSameTokens` | src/compliance/sanctionsMatcher.ts:92-117 | below 20000 characters, blocked exactly if some entry has the same bag of tokens |
| `SanctionsMatcher.FlaggedExactlyOnSimilarNames` | src/compliance/sanctionsMatcher.ts:107-136 | flagged exactly if some entry needs edits for at most 15% of the characters, up to the rounding of the fourth decimal; empty names never are |
| `SanctionsMatcher.ReportsClosestEntry` | src/compliance/sanctionsMatcher.ts:96-128 | the score is the highest similarity of the list, and the entry reported with a flag is the first that reaches it |
| `SanctionsMatcher.MoreEntriesNeverWeaken` | src/compliance/sanctionsMatcher.ts:96-137 | more entries never lower the score or the severity |
| `SwapRouter.HopMinimumExact` | contracts/swap_router/lib.rs:197-227 | a minimum exists exactly for positive input and a positive quote up to i128::MAX/9900; it is max(1, 99% of the quote) and lies between 1 and the quote |
| `SwapRouter.Router.Execute` | contracts/swap_router/lib.rs:98-174 | the loop computes the swap; without success pools and balances are as before |
| `SwapRouter.Router.Quote` | contracts/swap_router/lib.rs:178-193 | the loop composes the pool quotes along the path |
| `SwapRouter.HopFloor` | contracts/swap_router/lib.rs:129-151 | a monotone pool's hop pays at least the floor of any smaller input, a missing quote counting as the floor 1 |
| `SwapRouter.HopsFloor` | contracts/swap_router/lib.rs:129-151 | the hops end at or above the composed floors |
| `SwapRouter.SwapGuarantee` | contracts/swap_router/lib.rs:121-156 | success implies at least the minimum and, for monotone pools visited once, at least the composed floors |
| `SwapRouter.KeepingPoolsNeverSlip` | contracts/swap_router/lib.rs:129-151 | each hop gives its pool the hop's own minimum, so pools that keep to it are never rejected for slippage, on paths of any length |
| `SwapRouter.RevisitedPoolBreaksFloors` | contracts/swap_router/lib.rs:129-151 | every path that visits a pool twice has a successful swap over monotone pools that returns 1 against composed floors of 990 |
| `SwapRouter.FloorsMetExactlyWithoutRevisits` | contracts/swap_router/lib.rs:121-156 | all monotone pools in all worlds meet the composed floors if and only if the path visits no pool twice |
| `SwapRouter.HonestHops` | contracts/swap_router/lib.rs:129-151 | with pools that pay their quote, no hop is rejected exactly if all quotes fit, and the amount is the simulated one |
| `SwapRouter.HonestSwap` | contracts/swap_router/lib.rs:98-193 | a funded, in-deadline swap over honest pools returns the quote, or fails for being below the minimum |
| `SwapRouter.SwapMovesExactly` | contracts/swap_router/lib.rs:123-165 | outside the router only the input leaves the caller and the output reaches the recipient; failure moves nothing |
| `SwapRouter.TransferMoves` | contracts/swap_router/lib.rs:123-165 | a transfer succeeds exactly if the sender has the amount, and moves it and nothing else |
| `SwapRouter.SwapErrors` | contracts/swap_router/lib.rs:101-119 | deadline and empty-path errors exactly in their cases, whatever the pools do; success only in time and for positive amounts |
| `Lockout.Store.GetLockoutStatus` | src/auth/lockout.ts:72-124 | locked while the lock lives, with its start and end; otherwise the attempts left |
| `Lockout.Store.RecordFailedAttempt` | src/auth/lockout.ts:137-242 | rejected unchanged while locked, otherwise counted, with expiry set on the first and the lock set at the limit; other identifiers untouched |
| `Lockout.Store.Clear` | src/auth/lockout.ts:267-269 | both keys are gone; the live ones are counted |
| `Lockout.Store.RecordSuccessfulLogin` | src/auth/lockout.ts:264-276 | the identifier starts afresh |
| `Lockout.Store.AdminUnlock` | src/auth/lockout.ts:282-307 | the identifier starts afresh; true exactly if a lock or a counter was live |
| `Lockout.CountedWithin` | src/auth/lockout.ts:137-217 | inside one window each counted failure uses up one of those still possible |
| `Lockout.CountedBound` | src/auth/lockout.ts:137-217 | with lock at least as long as the window, at most max(1, 2·MAX − 2) counted failures in any window without a reset |
| `Lockout.BoundIsAttained` | src/auth/lockout.ts:169-190 | every configuration with two or more attempts and a window of two seconds or more has a run with exactly that many |
| `Lockout.ShortLockBreaksBound` | src/auth/lockout.ts:177-190 | a shorter lock lets 2·MAX failures through |
| `Lockout.BoundHoldsExactlyForLongLocks` | src/auth/lockout.ts:137-217 | the bound holds in all runs if and only if the lock is at least as long as the window |
| `Lockout.JustLockedMarksTransition` | src/auth/lockout.ts:134-216 | the flag marks exactly the calls that lock an unlocked account |
| `Lockout.FailReportsStatus` | src/auth/lockout.ts:137-242 | a failed attempt reports the status right after it, counts unless the account was locked, and locks it exactly at the limit |
| `Lockout.LockIsNeverExtended` | src/auth/lockout.ts:140-148 | nothing before its expiry, short of a reset, changes a lock |
| `Lockout.LockLastsExactly` | src/auth/lockout.ts:86-101 | locked at every time before start plus duration, open from then on; reported with its start, its end and the minutes left, rounded up |
| `Lockout.RemainingAttemptsLock` | src/auth/lockout.ts:103-113 | as many more failures as attempts remain lock the account, and fewer leave it open; with a limit below one, none remain and the first failure locks |
| `JwtKeys.VersionRoundTrip` | src/auth/jwtKeys.ts:190-198 | the number parsed from a generated version is the number it was generated from |
| `JwtKeys.VersionForms` | src/auth/jwtKeys.ts:190-198 | loaded versions count with a capital letter, without one and with something behind the digits; one without a number counts as 0 |
| `JwtKeys.NextVersionIsFresh` | src/auth/jwtKeys.ts:190-198 | a new version is not in the store and is numbered above all of it |
| `JwtKeys.KeyStore.DeprecateExpiredKeys` | src/auth/jwtKeys.ts:96-120 | exactly the expired secondaries leave the store and are returned |
| `JwtKeys.KeyStore.GetActiveSigningKey` | src/auth/jwtKeys.ts:123-134 | the primary's key, or an error exactly if it is missing |
| `JwtKeys.PrimaryFirst` | src/auth/jwtKeys.ts:150-174 | keys in their window at its own clock reading, primary first, order otherwise kept |
| `JwtKeys.VerifiesExactly` | src/auth/jwtKeys.ts:150-163 | a key of the store verifies exactly if it is primary or less than a grace period has passed since it was rotated out, or created if it never was |
| `JwtKeys.KeyStore.GetVerificationKeys` | src/auth/jwtKeys.ts:142-175 | cleans up at one clock reading and returns the verification keys of a second one, the same as without the cleanup, or an error exactly if there are none |
| `JwtKeys.KeyStore.RotateKey` | src/auth/jwtKeys.ts:185-233 | the primary is stamped and demoted, the new key is primary, expired keys are gone |
| `JwtKeys.StoreAnswers` | src/auth/jwtKeys.ts:142-175 | the store answers for its contents as the history specification does |
| `JwtKeys.RetireLive` | src/auth/jwtKeys.ts:204-219 | a rotation's effect does not depend on keys already out of their window |
| `JwtKeys.VerificationMatchesLog` | src/auth/jwtKeys.ts:96-233 | in every run, verification returns the primary and then the keys of the whole log inside their window |
| `JwtKeys.CleanupIsUnobservable` | src/auth/jwtKeys.ts:96-233 | in all runs verification answers, ids included, as if nothing were ever removed, if and only if no number in the store is above the primary's |
| `JwtKeys.UnobservableAfterRotation` | src/auth/jwtKeys.ts:185-233 | from the first rotation on, from any store, cleanup is unobservable |
| `JwtKeys.KidsAreNeverReissued` | src/auth/jwtKeys.ts:190-198 | if no number is above the primary's, all ids ever issued are distinct and are those issued without cleanup |
| `JwtKeys.ReissuedKid` | src/auth/jwtKeys.ts:190-198 | with v2 loaded beside the primary v1 and out of its window, rotating issues v3, while verifying first makes it issue v2 again |
| `JwtKeys.PrimaryLeads` | src/auth/jwtKeys.ts:136-175 | in every run verification succeeds, and the primary and only the primary is first |
| `JwtKeys.ZeroDowntime` | src/auth/jwtKeys.ts:6-13 | a key that is primary at a time verifies for a grace period after it, through any operations |
| `JwtKeys.NumbersIncrease` | src/auth/jwtKeys.ts:190-198 | successive rotations issue strictly increasing numbers, from any store |
| `Velocity.VelocityChecker.CheckAndRecordTransaction` | src/compliance/velocityChecker.ts:58-108 | the verdict on the pruned window, which is stored with the transaction appended |
| `Velocity.RecentIsWindow` | src/compliance/velocityChecker.ts:64-67 | pruning keeps each transaction from the cutoff on as often as it occurs, and nothing older |
| `Velocity.PruningIsUnobservable` | src/compliance/velocityChecker.ts:64-107 | all verdicts, volumes and counts are those of the complete log |
| `Velocity.AnswersExactly` | src/compliance/velocityChecker.ts:51-107 | every answer of every run from the events alone: the user's transactions of the window are counted, summed up, and counted again in [0.95·threshold, threshold); approved exactly if the last number is below the trigger |
| `Velocity.StructuringIsBounded` | src/compliance/velocityChecker.ts:51-107 | at most triggerCount − 1 approved structuring transactions of a user in any closed window |
| `ConnectionPool.RedisConnectionPool.constructor` | ingest-node/src/index.ts:146-149 | limits adjusted, nothing in the pool |
| `ConnectionPool.LimitsAdjusted` | ingest-node/src/index.ts:146-149 | at least one connection, room for the minimum, and otherwise what was asked for |
| `ConnectionPool.RedisConnectionPool.StartInitialize` | ingest-node/src/index.ts:151-160 | starts the first creation unless already initialised |
| `ConnectionPool.RedisConnectionPool.GetConnection` | ingest-node/src/index.ts:196-223 | hands out the last available connection, or starts a creation, or waits |
| `ConnectionPool.RedisConnectionPool.ConnectionLands` | ingest-node/src/index.ts:159-165 | a created connection is stored for whoever it was created for |
| `ConnectionPool.RedisConnectionPool.CheckAvailable` | ingest-node/src/index.ts:223-231 | a waiting caller takes an available connection |
| `ConnectionPool.RedisConnectionPool.ReleaseConnection` | ingest-node/src/index.ts:248-261 | back to the available ones if ready, removed otherwise, nothing if not in use, whoever calls |
| `ConnectionPool.RedisConnectionPool.RemoveConnection` | ingest-node/src/index.ts:273-300 | gone from all three collections, with a replacement started below the minimum |
| `ConnectionPool.Splice` | ingest-node/src/index.ts:274-282 | the first occurrence is removed |
| `ConnectionPool.StepConsistent` | ingest-node/src/index.ts:151-347 | every atomic step keeps the pool consistent |
| `ConnectionPool.RunConsistent` | ingest-node/src/index.ts:151-347 | every interleaving does |
| `ConnectionPool.PoolIsDisjointUnion` | ingest-node/src/index.ts:196-300 | in every interleaving, whoever releases what: no duplicates, disjoint union of available and used, sizes add up |
| `ConnectionPool.WaitersAddUp` | ingest-node/src/index.ts:213-240 | in every interleaving the waiting requests are those that found nothing and have neither been served nor timed out |
| `ConnectionPool.NobodyShares` | ingest-node/src/index.ts:302-317 | in every interleaving in which borrowers release what they hold and nothing else, no two hold the same connection, and what is in use is held |
| `ConnectionPool.StrayReleaseShares` | ingest-node/src/index.ts:248-261 | wherever a held connection is in use, another borrower's release and one request give it a second holder |
| `ConnectionPool.ReleaseIsSafeExactlyByHolder` | ingest-node/src/index.ts:248-261 | a ready release of a connection in use keeps holders distinct in all orderly continuations if and only if its holder makes it |
| `ConnectionPool.UnreadyReleaseRemoves` | ingest-node/src/index.ts:253-258 | an unready connection leaves all three collections and is replaced exactly if fewer than the minimum are left |
| `ConnectionPool.ReadyReleaseReturns` | ingest-node/src/index.ts:253-255 | a ready connection goes back to the end of the available ones, from where it is handed out next |
| `ConnectionPool.LostIsNeverHandedOut` | ingest-node/src/index.ts:248-300 | after an unready release or a close event, no schedule hands the connection out again |
| `ConnectionPool.StepBounded` | ingest-node/src/index.ts:213-300 | once initialised with no initialisation that has more to create, every step keeps pool size plus creations within max − 1 + max(1, peak) |
| `ConnectionPool.StepBoots` | ingest-node/src/index.ts:151-165 | during an initialisation every step keeps pool, creations and what is left to create within the minimum if nothing closes, and within 2·min − 2 + peak otherwise |
| `ConnectionPool.QuietInitIsBounded` | ingest-node/src/index.ts:151-165 | in every schedule with one initialisation during which nothing closes, the bound holds once initialised, under all limits |
| `ConnectionPool.DisturbedInit` | ingest-node/src/index.ts:159-163 | for all limits, close events during the initialisation lead to twice the minimum with only two creations at a time |
| `ConnectionPool.BoundHoldsExactlyForWideLimits` | ingest-node/src/index.ts:196-300 | with one initialisation, all schedules keep the bound once initialised if and only if the maximum is at least twice the minimum less one |
| `ConnectionPool.OverlappingInits` | ingest-node/src/index.ts:151-165 | n `initialize` calls before the first is done, and no close event, end with n times the minimum at a peak of n |
| `ConnectionPool.QuietBoundHoldsExactlyForMinimumOne` | ingest-node/src/index.ts:151-300 | with any number of initialisations and no close before one is done, all schedules keep the bound once initialised if and only if the minimum is one |
| `ConnectionPool.ShutdownComesBack` | ingest-node/src/index.ts:273-347 | after a shutdown, k closings of disconnected clients, in every order with the landings, bring back between min(k, minimum) and k connections |
| `ConnectionPool.ShutdownBoundsAttained` | ingest-node/src/index.ts:273-347 | both numbers occur when the clients of the pool close once each |
| `Deployer.ContractDeployer.ExecCommand` | scripts/deployContracts.ts:516-521 | a command's effect, output or end of the run; nothing in a dry run |
| `Deployer.ContractDeployer.Write` | scripts/deployContracts.ts:543-547 | the entry is in memory and, outside dry runs, on disk |
| `Deployer.ContractDeployer.InvokeCalls` | scripts/deployContracts.ts:338-345 | the calls are invoked in order until one fails |
| `Deployer.ContractDeployer.DeployOne` | scripts/deployContracts.ts:301-348 | one contract is taken as far as the replies allow |
| `Deployer.ContractDeployer.RunAll` | scripts/deployContracts.ts:241-258 | the selected contracts in order, until the run ends |
| `Deployer.InvokeAllInv` | scripts/deployContracts.ts:342-345 | if the loop gets through, the calls have succeeded on the id, one after the other, in the configured order |
| `Deployer.InvokeAllRecorded` | scripts/deployContracts.ts:431-450 | the calls of the loop pass exactly the ids recorded at that moment for the contracts they mention |
| `Deployer.WriteInv` | scripts/deployContracts.ts:543-547 | writing an entry in order keeps file and memory in order |
| `Deployer.DeployContractInv` | scripts/deployContracts.ts:301-348 | so does taking a contract any part of the way |
| `Deployer.DryRunTouchesNothing` | scripts/deployContracts.ts:516-547 | a dry run changes neither file nor network |
| `Deployer.DryRunIdsAgree` | scripts/deployContracts.ts:437-447 | an id that a dry run would have produced reads the same where it is used |
| `Deployer.RunIsSafe` | scripts/deployContracts.ts:241-348 | one run, cut off anywhere, leaves every entry uploaded, every id deployed from that upload, every initialised id with all its calls done in order, other networks alone, and ids unless forced |
| `Deployer.CampaignIsSafe` | scripts/deployContracts.ts:12-14 | the same over any sequence of runs; every call ever made passed ids of the contracts it mentions, deployed before it |
| `Deployer.FileIsCurrent` | scripts/deployContracts.ts:530-547 | wherever a run stops, the file holds what the process knows |
| `Deployer.OnlyNamedContracts` | scripts/deployContracts.ts:242-244 | with `--only`, no command concerns a contract that is not named, and its entry stays |
| `Deployer.DeployContractDone` | scripts/deployContracts.ts:306-347 | a contract that is got through is initialised on disk, and only its entry changed |
| `Deployer.ForceRedeploys` | scripts/deployContracts.ts:306-336 | under force, a contract that is got through has a new instance from a new upload, and its id is the recorded one |
| `Deployer.SecondRunDoesNothing` | scripts/deployContracts.ts:12-14 | after a complete run, an unforced one uploads only install-only contracts, deploys and invokes nothing, and keeps the entries |
| `Deployer.RunCompletesExactly` | scripts/deployContracts.ts:301-348 | a run that is not hindered otherwise gets to its end if and only if each selected contract finds the ids it needs in its turn and none of its calls is refused, and is then done |
| `Deployer.RerunCompletesExactly` | scripts/deployContracts.ts:12-14 | for a configuration in order, an unforced run over all contracts that is not hindered otherwise gets to its end, with every contract initialised, if and only if no contract is half done |
| `Deployer.StuckRun` | scripts/deployContracts.ts:306-347 | a run that goes on with a half-done contract dies in its turn and leaves its entry as it is |
| `Deployer.StuckForever` | scripts/deployContracts.ts:306-347 | through any sequence of runs, with any replies, that do not force it, a half-done contract stays half done |
| `Deployer.CutOffLeavesHalfDone` | scripts/deployContracts.ts:338-347 | a run cut off after a first call that is taken only once leaves the contract half done |
| `WasmSections.ReadSectionSize` | benchmarks/soroban-gas-bench.js:297-306 | the inner loop computes the size |
| `WasmSections.ParseWasmSections` | benchmarks/soroban-gas-bench.js:271-314 | the loops compute the sections of the given number of rounds |
| `WasmSections.OrInBits` | benchmarks/soroban-gas-bench.js:304 | or-ing in the next seven bits adds them to the bit pattern |
| `WasmSections.OrIsBitwise` | benchmarks/soroban-gas-bench.js:304 | the or of two patterns has exactly the bits of either, overlapping or not |
| `WasmSections.ShiftWrapsAround` | benchmarks/soroban-gas-bench.js:304-305 | shift counts wrap around at 32 |
| `WasmSections.ReadSizeIsLebValue` | benchmarks/soroban-gas-bench.js:297-306 | any 32-bit LEB128 size is read in two's complement, and correctly exactly if below 2^31 |
| `WasmSections.RoundReadsSection` | benchmarks/soroban-gas-bench.js:293-311 | one round reads one encoded section and stops behind its payload |
| `WasmSections.NamesAreDistinct` | benchmarks/soroban-gas-bench.js:308 | different section ids have different names |
| `WasmSections.RecordKeepsLast` | benchmarks/soroban-gas-bench.js:309 | of several sections with one id the last one is recorded |
| `WasmSections.ParseUndoesEncode` | benchmarks/soroban-gas-bench.js:271-314 | header and any encoded sections: stops exactly at the end, with the size of the last section of each name and no other names |
| `WasmSections.FinishesWithoutSignBit` | benchmarks/soroban-gas-bench.js:293-311 | on any buffer without a size that has the sign bit, the loop ends within one round per two bytes behind the header and one more |
| `WasmSections.NeverFinishesExactlyIfOffsetReturns` | benchmarks/soroban-gas-bench.js:293-311 | on any buffer the loop never ends if and only if it comes back to an offset, and if and only if it is still running after 2^31 + length + 1 rounds |
| `WasmSections.LargeSizeNeverFinishes` | benchmarks/soroban-gas-bench.js:293-311 | a buffer with a size above 2^31 on which no number of rounds suffices |
| `OAuthStore.InMemoryOAuthTokenStore.ConsumeAuthorizationCode` | src/auth/oauth.ts:81-93 | the code is gone, and returned only if it had not expired |
| `OAuthStore.InMemoryOAuthTokenStore.GetRefreshToken` | src/auth/oauth.ts:103-113 | the record, only if it has not expired |
| `OAuthStore.InMemoryOAuthTokenStore.BeginExchange` | src/auth/oauth.ts:367-374 | up to its `await`, an exchange is the step that consumes the code |
| `OAuthStore.InMemoryOAuthTokenStore.EndExchange` | src/auth/oauth.ts:376-394 | after it, the step that stores and answers with a fresh token |
| `OAuthStore.InMemoryOAuthTokenStore.BeginRefresh` | src/auth/oauth.ts:403-406 | up to its first `await`, a refresh is the step that reads the token |
| `OAuthStore.InMemoryOAuthTokenStore.RevokeRead` | src/auth/oauth.ts:408 | then the step that revokes what was read, there or not |
| `OAuthStore.InMemoryOAuthTokenStore.EndRefresh` | src/auth/oauth.ts:410-428 | then the step that stores a fresh token |
| `OAuthStore.InMemoryOAuthTokenStore.ExchangeAuthorizationCode` | src/auth/oauth.ts:360-395 | performs the steps of the model's code exchange: the code is used up in any case; a token is issued exactly for a live code with its own client and redirect |
| `OAuthStore.InMemoryOAuthTokenStore.ExchangeRefreshToken` | src/auth/oauth.ts:397-429 | performs the steps of the model's refresh: the new token replaces the old one, exactly for a live token of its own client |
| `OAuthStore.StepCodes` | src/auth/oauth.ts:360-395 | every store step keeps a grant's code out of the store and answered at most once |
| `OAuthStore.StepTokens` | src/auth/oauth.ts:360-429 | every store step keeps all refresh tokens, stored or in flight, backed by a grant |
| `OAuthStore.InterleavingIsSafe` | src/auth/oauth.ts:360-429 | in every interleaving, at most one response per code and no token without a matching grant |
| `OAuthStore.RefreshStartsExactly` | src/auth/oauth.ts:403-406 | a refresh goes on exactly for an unexpired token of its own client, with its record; otherwise nothing changes |
| `OAuthStore.ExchangeStartsExactly` | src/auth/oauth.ts:367-374 | an exchange goes on exactly for an unexpired code with its own client and redirect; the code is gone in any case |
| `OAuthStore.GrantsWereIssued` | src/auth/oauth.ts:73-93 | in every interleaving, the record behind a grant was issued with a code |
| `OAuthStore.ExpiryIsKept` | src/auth/oauth.ts:81-113 | in every interleaving, grants were exchanged before their code expired, and tokens expire when the step that stored them said |
| `OAuthStore.RunAccounts` | src/auth/oauth.ts:360-429 | the same accounts from any state to any later one |
| `OAuthStore.TokensMatchCodesExactly` | src/auth/oauth.ts:360-429 | in every interleaving, tokens stored or owed are the codes exchanged plus the revocations that found nothing; with nothing in flight, these equal the refreshes that overlapped, so tokens equal codes exactly if none did |
| `OAuthStore.CodeYieldsTokenOnce` | src/auth/oauth.ts:360-395 | a code exchanged in time by its own client yields a refresh token with its subject, client and scope, and a second exchange yields nothing |
| `OAuthStore.RefreshReplacesToken` | src/auth/oauth.ts:397-429 | a refresh in time by its own client replaces the token by one for the same subject, client and scope, and the old one cannot be refreshed again |
| `OAuthStore.OneTokenPerCode` | src/auth/oauth.ts:397-429 | with exchanges one at a time, no revocation misses, and there are as many tokens as exchanged codes |
| `OAuthStore.OverlapAddsToken` | src/auth/oauth.ts:403-426 | from every state with a usable token, two overlapping refreshes miss one revocation and leave one token more |
| `PhoneInput.LongestPrefixWins` | frontend/components/PhoneInput.tsx:426-440 | the carrier of the longest matching prefix, if any prefix matches |
| `PhoneInput.PushParts` | frontend/components/PhoneInput.tsx:56-64 | the groups of the digits, as far as they go |
| `PhoneInput.FormatNational` | frontend/components/PhoneInput.tsx:49-144 | the groups joined by spaces |
| `PhoneInput.FormatKeepsDigits` | frontend/components/PhoneInput.tsx:49-144 | printing a full number loses no digit and ends with one |
| `PhoneInput.FindCountry` | frontend/components/PhoneInput.tsx:413-421 | the first country whose calling code is in front |
| `PhoneInput.CodeDecides` | frontend/components/PhoneInput.tsx:413-421 | a calling code in front determines the country |
| `PhoneInput.FindCarrier` | frontend/components/PhoneInput.tsx:426-440 | the first match in the table sorted by length |
| `PhoneInput.ValidatePhoneNumber` | frontend/components/PhoneInput.tsx:445-530 | the branches compute the validation result |
| `PhoneInput.ValidExactly` | frontend/components/PhoneInput.tsx:496-528 | valid exactly with the national length and a known prefix; the two tests are reported apart, and a missing prefix, too few and too many digits told apart |
| `PhoneInput.DomesticForm` | frontend/components/PhoneInput.tsx:490-494 | the trunk zero of the domestic form is dropped, except in Ivory Coast |
| `PhoneInput.WithoutCountry` | frontend/components/PhoneInput.tsx:445-488 | blank input and input without a country, with what is reported for them |
| `PhoneInput.RoundTrip` | frontend/components/PhoneInput.tsx:445-530 | a valid input's printed form and E.164 form validate to the same result under any selected country |
| `PhoneInput.PrefixTableIsTrunkFree` | frontend/components/PhoneInput.tsx:264-408 | outside Ivory Coast no carrier prefix starts with zero |
| `PhoneInput.OwnRoundTrip` | frontend/components/PhoneInput.tsx:264-530 | the round trip for the program's own tables |
| `ReplicaRouter.ActiveFromMembers` | src/config/database.ts:795-800 | exactly the enabled and healthy replicas, in ascending order |
| `ReplicaRouter.ReplicaPool.GetNextReplicaIndex` | src/config/database.ts:806-812 | the next active replica in turn, and the turn moves on |
| `ReplicaRouter.ReplicaPool.MarkReplicaUnavailable` | src/config/database.ts:818-823 | the replica is disabled and unhealthy, the others as before |
| `ReplicaRouter.ReplicaPool.FinishTry` | src/config/database.ts:837-852 | after the `await`s of a try, the replica is marked exactly if it could not be reached |
| `ReplicaRouter.ReplicaPool.TryReplica` | src/config/database.ts:832-853 | an undisturbed try: one replica is picked and marked if it cannot be reached |
| `ReplicaRouter.PickIsActive` | src/config/database.ts:806-812 | a pick is active, and there is none exactly if no replica is |
| `ReplicaRouter.PicksAreActive` | src/config/database.ts:806-812 | in every interleaving of tries and status refreshes, whatever is picked is active then |
| `ReplicaRouter.RoundRobin` | src/config/database.ts:802-812 | in every interleaving along which the n active replicas stay the same, any n picks in a row are a rotation of them, each exactly once |
| `ReplicaRouter.ReadRoute` | src/config/database.ts:937-951 | a read visits at most one replica, active when picked, then the primary unless it was served |
| `ReplicaRouter.WritesNeverReachReplica` | src/config/database.ts:292-308 | in every interleaving, through pool.query, querySmart and queryWithContext: what is in flight on a replica is read-only, what is not read-only goes to the primary alone, and each statement visits at most one replica before the primary |
| `ReplicaRouter.ReadsReachReplica` | src/config/database.ts:856-862 | a statement goes to a replica exactly if it is read-only, some replica is active, and its entry point and request allow it |
| `ReplicaRouter.AnsweringReplicaStays` | src/config/database.ts:842-851 | a try that was served or rejected leaves the rotation as it is |
| `ReplicaRouter.UndisturbedRoute` | src/config/database.ts:937-951 | an undisturbed statement meant for a replica takes the route of a read |
| `ReplicaRouter.UnreachableLeavesRotation` | src/config/database.ts:842-851 | in every interleaving after a try that could not reach its replica, that replica is not picked until its status is set; the others are unaffected |

## Left out

- WasmSections.ParseWasmSections: takes a bound on the rounds of its outer loop, because on some buffers the program's loop never ends (`LargeSizeNeverFinishes`); a bound of 2^31 + length + 1 rounds decides whether the loop ends (`NeverFinishesExactlyIfOffsetReturns`).
- SanctionsMatcher.SimilarityExact: exact fractions instead of IEEE doubles, rounded half up; the normaliser (upper case, NFD, removal of punctuation) is an arbitrary function.
- SanctionsMatcher.ScreenCustomerName: the text of the reason and the built-in sample list.
- SwapRouter.Router.Execute: the caller's authorisation, the event, and resource limits of the host; pools act on their own state and pay the router only, and what a pool holds itself is not tracked. A quote only reads the pool's state, although `get_quote` is an ordinary contract call (contracts/swap_router/lib.rs:202).
- Lockout.Store.RecordFailedAttempt: Redis is available, each call is atomic, and times are whole seconds; the fallbacks for an unavailable Redis, messages and events are absent, and window and duration are positive as Redis demands.
- JwtKeys.KeyStore.GetVerificationKeys: one clock reading for the whole filtering loop; the store is loaded, so the refill of an empty store from the environment is absent, here as in `DeprecateExpiredKeys`, `GetActiveSigningKey` and `RotateKey`; rollback to an older version and resetting the store are absent, and version numbers are unbounded integers.
- Velocity.VelocityChecker.CheckAndRecordTransaction: one checker with amounts as exact reals; clearing a user's history and the text of the reason are absent.
- ConnectionPool.RedisConnectionPool.ReleaseConnection: polling intervals, the five-second limit and metrics are reduced to the steps they trigger.
- Deployer.RunCompletesExactly: instances are told apart by contract name and id, and no output of a command is an id on which a function taken only once was already called.
- Deployer.ContractDeployer.RunAll: building, resolving the admin and asset ids, environment placeholders, time stamps and network metadata are absent; writing the file is atomic.
- OAuthStore.InMemoryOAuthTokenStore.ExchangeRefreshToken: new tokens are fresh and hashing is injective; the Redis-backed store and the signing of access tokens are absent.
- PhoneInput.ValidatePhoneNumber: names, flags and colours of countries and carriers, and the wording of error messages.
- ReplicaRouter.ReplicaPool.TryReplica: retries on the primary, lag monitoring, abort signals and audit logging are absent, and the read-only test is an arbitrary predicate.
- The HTTP routes, the React component, database services, the other contracts, the other benchmarks and the Go ingest service: input and output, or settled by a single branch.
