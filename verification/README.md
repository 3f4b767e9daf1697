# Kubeflare: proofs about its concurrent protocols and its diagnosis loop

Kubeflare is mostly wiring around HTTP, a database and Kubernetes clients, but several small protocols and one
large control loop in it carry guarantees that range over every run. This project models those parts in Dafny and
proves the guarantees. `dafny verify dfyconfig.toml` checks everything.

Each protocol is modelled twice, and the two are tied together. A **class** has the fields of the Go type and one
method for each operation, proved equal to a function on the values of those fields. A **state machine** over the
same functions takes one event for each lock region, script, transaction or `select` branch, in any order, and
the theorems speak about every run of it. Sequential code with loops is a method proved against a function, and
the theorems speak about that function.

| files | subject |
|---|---|
| `RedisSemaphore`, `SemaphoreProtocol` | the distributed semaphore: two scripts over sorted sets, leases over several keys, one-key releases, expiry of members and of whole keys |
| `McpSession` | request and response multiplexing over one connection (section 5 of the JSON-RPC 2.0 Specification for matching by id), with cancellation and termination |
| `BoundedStringSet`, `CaseArchive` | the bounded FIFO set, and archiving a diagnosis case against taking it down and against the warm-up of a start |
| `AuthStores`, `TokenRotation` | refresh-token rotation and token revocation over an authoritative and a best-effort store |
| `Limiter`, `CircuitBreaker`, `McpAdmission` | the keyed limiter and the circuit breaker in front of each external tool server |
| `Text`, `ToolTurns`, `AgentLoop`, `AgentLoopRuns`, `AgentLoopSteps`, `FinalAnswer`, `ToolPairing` | the diagnosis loop, its turns, its final answer stream, and the turns' way into a provider request |
| `MarkupSearch`, `DsmlParser`, `DsmlRoundTrip`, `DsmlWriter` | tool calls written as markup in the answer text |
| `ContextWindow` | the chat history that a request carries |
| `HypothesisLedger` | the hypothesis ledger of a diagnosis |

## What the proofs say about the code

Most guarantees hold as promised. These do not hold on all inputs, and theorems say when they do:

- The semaphore keeps its limits exactly when a key's limit is at most one or the longest ttl used is at most twice
  the shortest: a short lease's key expiry otherwise removes a longer one
  (`SemaphoreProtocol.SafeIffNeverOverAdmits`). Callers may read their clocks late, never early.
- A takedown of an archived case can be undone in two ways and no other (`CaseArchive.CoverLostExactly`): by an
  archiver's last check after `capacity` other runs were newly suppressed since the mark
  (`CaseArchive.LastCheckIsExact`, `CaseArchive.MissedTakedown`), and by the warm-up, which replaces the cache with
  rows it loaded before the takedown. The warm-up undoes only takedowns that it was not told of, or that came after
  it asked (`CaseArchive.OnlyLaterTakedownsAreUndone`, `CaseArchive.UndoneTakedown`).
- A revoked token is never accepted again on one clock reading. The code reads the clock twice: a token whose
  revocation Postgres holds is accepted again exactly when it expires between the two readings and nothing else
  speaks against it (`TokenRotation.AcceptedIffAcrossExpiry`, `TokenRotation.AcceptedAcrossExpiry`).
- Tool messages answer their calls exactly when call ids carry no outer white space, because ids are trimmed on one
  side only (`ToolPairing.RequestPairsIffTrimmed`).
- The comment on the context window says that pairs are kept together. They are exactly when the character limit does
  not fall between an answer and its question (`ContextWindow.PairsKeptExactly`).
- The comment in the breaker says that no report can arrive while it is open. One can, exactly unless the server has
  a single slot (`McpAdmission.LateReportsIffSpareSlot`). Such reports are ignored, and all invariants are proved
  with them.
- `applyLedgerUpdates` says that it reports whether anything changed. It reports whether some update did at its turn;
  `HypothesisLedger.FlagIsWrongExactly` says for which lists the two differ.
- Tool calls written as markup come back as they were written except that a full-width bar in a name or value becomes
  a plain one, because the whole block is rewritten before it is read (`DsmlWriter.WrittenCallsParseBack`, through
  `DsmlWriter.Says`).
- The plain counter's limit holds under every interleaving, but an attempt is refused when holders and attempts not
  yet taken back fill it, even if a slot is free (`Limiters.RefusedIffFull`, `Limiters.RefusedWhileFree`).

Clocks, the model, the tools, the critics, failures of a store, evictions by the case cache and calls to the
library's text functions are parameters or oracles: the theorems hold whatever they answer.

## Model

| member | source | states |
|---|---|---|
| `SemaphoreProtocol.SafeIffNeverOverAdmits` | internal/platform/coordination/redis.go:22-70 | no run of acquires, refreshes, partial releases, purges and key expiries holds more live leases under a key than its cap, exactly when the cap is at most one or the longest ttl is at most twice the shortest |
| `SemaphoreProtocol.NeverOverAdmits` | internal/platform/coordination/redis.go:22-70 | in every run every live lease is stored under each of its safe keys with the score at which it lapses, and the live leases of a key never exceed its cap |
| `SemaphoreProtocol.RunKeepsInvariants` | internal/platform/coordination/redis.go:22-70 | every run keeps: each stored score is its lease's expiry, no key holds more members than its cap, a safe key outlives its members and stores its live leases |
| `SemaphoreProtocol.EqualScores` | internal/platform/coordination/redis.go:40-45 | in every run the scores of one member are equal across its keys |
| `SemaphoreProtocol.SuccessfulRefresh` | internal/platform/coordination/redis.go:56-69 | a refresh that succeeds was of a lease that had not lapsed at the caller's time and was stored under all its keys |
| `SemaphoreProtocol.CutOffRun` | internal/platform/coordination/redis.go:40-45 | a run that exceeds the cap when one ttl is more than twice another: the short lease's key expiry takes the long lease away |
| `SemaphoreProtocol.StepKeepsBasic` | internal/platform/coordination/redis.go:22-70 | one event of any kind keeps scores tied to leases and every key within its cap |
| `SemaphoreProtocol.StepKeepsKept` | internal/platform/coordination/redis.go:22-70 | one event of any kind keeps every live lease of a safe key stored |
| `RedisSemaphore.AcquireOutcome` | internal/platform/coordination/redis.go:22-48 | an acquire is admitted exactly when every key has room among its unexpired members; refused, it adds nothing and removes only lapsed members; admitted, each key holds its unexpired members and the new one, and expires after twice the ttl |
| `RedisSemaphore.RefreshOutcome` | internal/platform/coordination/redis.go:50-70 | a refresh succeeds exactly when its member is unexpired under every key and then moves only that member's score; failed, it adds nothing and removes only lapsed members |
| `RedisSemaphore.AdmittedIffRoom` | internal/platform/coordination/redis.go:28-36 | the first pass admits exactly when no limited key is full of unexpired members, although it purges key after key |
| `RedisSemaphore.CountPassRemovesOnlyLapsed` | internal/platform/coordination/redis.go:28-36 | the counting pass removes only members whose score has passed |
| `RedisSemaphore.RedisServer.RunAcquire` | internal/platform/coordination/redis.go:22-48 | the two loops of the acquire script, on the server's sorted sets |
| `RedisSemaphore.RedisServer.RunRefresh` | internal/platform/coordination/redis.go:50-70 | the two loops of the refresh script, on the server's sorted sets |
| `SemaphoreProtocol.RedisCoordinator.Acquire` | internal/platform/coordination/redis.go:91-136 | blank members and ttls that are not positive are errors; without a dimension that has a positive limit and a nonblank sanitized key the lease is unlimited; otherwise it is leased exactly when every such dimension has fewer unexpired members than its own limit, and then under exactly those sanitized keys, in order |
| `SemaphoreProtocol.LimitedSelects` | internal/platform/coordination/redis.go:104-116 | what is sent are exactly the usable dimensions, in order, each with its own limit |
| `SemaphoreProtocol.RefusalIsJustified` | internal/platform/coordination/redis.go:22-48 | slots never leak: in every run an acquire is refused only if under one of its keys as many leases as the limit have not lapsed at the caller's time |
| `SemaphoreProtocol.LiveLeaseRefreshes` | internal/platform/coordination/redis.go:50-70 | in every run a live lease of safe keys can be refreshed and is then stored under all its keys until a ttl after the caller's time |
| `SemaphoreProtocol.RedisLease.Refresh` | internal/platform/coordination/redis.go:249-263 | a refresh sends the lease's own keys; a lease without keys always succeeds |
| `SemaphoreProtocol.RedisLease.Release` | internal/platform/coordination/redis.go:265-278 | the first release removes the member key by key, every later one does nothing |
| `SemaphoreProtocol.DropAllEffect` | internal/platform/coordination/redis.go:265-278 | after a release the member is under none of its keys and every other member is where it was |
| `McpSession.ResponseIsOwn` | internal/module/agent/infrastructure/mcp/session.go:85-161 | a call that returns a result returns a received message with its own id, so no message reaches two calls |
| `McpSession.ResponseReachesCall` | internal/module/agent/infrastructure/mcp/session.go:65-161 | in every reachable state a response to a pending call is held by the reader, then fills that call's slot alone, and a call in its select can return it by its own next step |
| `McpSession.ResponseIsNeverLost` | internal/module/agent/infrastructure/mcp/session.go:65-161 | whatever happens afterwards, that response is in the reader's hand or in the call's slot until the call has returned |
| `McpSession.RegisteredUntilAnswered` | internal/module/agent/infrastructure/mcp/session.go:122-208 | a call is registered exactly while the session is not closed, and stays so until its response is received, it gives up, or the session closes |
| `McpSession.ReaderNeverBlocks` | internal/module/agent/infrastructure/mcp/session.go:85-100 | no waiter slot ever holds more than one message, and the slot the reader is about to fill is free |
| `McpSession.NothingLeftPending` | internal/module/agent/infrastructure/mcp/session.go:122-161 | a returned call has no entry in the pending table, under every interleaving with cancellation and termination |
| `McpSession.ClosedStaysEmpty` | internal/module/agent/infrastructure/mcp/session.go:193-208 | once closed is set nothing enters the pending table again |
| `McpSession.TerminationErrorIsFirstCause` | internal/module/agent/infrastructure/mcp/session.go:193-220 | every termination error that any call reports is the cause of the first terminate |
| `McpSession.NoCallIsStuck` | internal/module/agent/infrastructure/mcp/session.go:141-161 | after done closes, a call that has not returned always has an own step to take |
| `McpSession.ReturnsWithinRank` | internal/module/agent/infrastructure/mcp/session.go:122-161 | whatever the other goroutines do, at most four own steps bring a call to its return |
| `McpSession.OwnStepsAdvance` | internal/module/agent/infrastructure/mcp/session.go:122-161 | an own step brings a call nearer to its return and no foreign step takes it back |
| `McpSession.RunKeepsInv` | internal/module/agent/infrastructure/mcp/session.go:34-220 | the invariant of all runs: where an id, its slot and its message can be, and that termination only moves forward |
| `McpSession.Session.DispatchResponse` | internal/module/agent/infrastructure/mcp/session.go:85-100 | a message is handed to a waiter exactly when its id is pending, and then to that id's, whose entry alone leaves the table |
| `McpSession.Session.AddPending` | internal/module/agent/infrastructure/mcp/session.go:126-132 | a call registers unless the session is closed |
| `McpSession.Session.Terminate` | internal/module/agent/infrastructure/mcp/session.go:193-208 | the writes of the once-only body of terminate, in order; each prefix is a state that others can see |
| `CaseArchive.TakedownWins` | internal/module/agent/application/internal/core/case_library.go:188-365 | for every interleaving of archivers, takedowns and the warm-up: once a run that was taken down has no goroutine left, none of its cases is cached, nor in the database unless its last deletion failed, provided its own archivers check in time and the warm-up brings no case of it back |
| `CaseArchive.CoverLostExactly` | internal/module/agent/application/internal/core/case_library.go:188-365 | one event leaves a case of a run that was taken down in the cache with nobody to clear it exactly when it is a last check after capacity further suppressions or the warm-up's replacement of the cache by a case it had loaded |
| `CaseArchive.OnlyLaterTakedownsAreUndone` | internal/module/agent/application/internal/core/case_library.go:188-235 | if the warm-up was told of every run taken down when it asked, it brings back only cases of runs marked between that read and its replacement of the cache |
| `CaseArchive.UndoneTakedown` | internal/module/agent/application/internal/core/case_library.go:188-209 | for every capacity and without any other suppression, a run in which a takedown between the warm-up's read and its replacement leaves the case cached for good |
| `CaseArchive.LastCheckIsExact` | internal/module/agent/application/internal/core/case_library.go:312-331 | the last check misses a marked run exactly when at least capacity other runs were suppressed since the mark |
| `CaseArchive.MissedTakedown` | internal/module/agent/application/internal/core/case_library.go:312-365 | for every capacity, a run with exactly capacity other marks in between ends with the taken-down case cached and stored for good |
| `CaseArchive.SuppressedIffRecent` | internal/module/agent/application/internal/core/case_library.go:339-365 | a marked run is still suppressed exactly while fewer than capacity additions followed its mark |
| `CaseArchive.RunKeepsCovered` | internal/module/agent/application/internal/core/case_library.go:188-365 | under the same two conditions on that run, every run of the system keeps: a stored case of a run that was taken down has a goroutine left that is going to clear it |
| `CaseArchive.CaseLibrary.Advance` | internal/module/agent/application/internal/core/case_library.go:268-365 | each atomic action of an archiver or a takedown on the suppression set, the cache and the database; ArchiverStoresItsCase and TakedownRemovesItsCases say what the actions come to |
| `CaseArchive.ArchiverStoresItsCase` | internal/module/agent/application/internal/core/case_library.go:268-331 | an archiver left alone adds its case to cache and database, or nothing when its run is suppressed |
| `CaseArchive.TakedownRemovesItsCases` | internal/module/agent/application/internal/core/case_library.go:339-365 | a takedown left alone removes exactly the cases of its run from both stores and marks the run |
| `CaseArchive.TakedownSparesOthers` | internal/module/agent/application/internal/core/case_library.go:339-365 | no action of a takedown, among any others, touches a case of another run |
| `CaseArchive.UntakenCasesStay` | internal/module/agent/application/internal/core/case_library.go:188-365 | in every run of the system a stored case of a run never taken down stays in the database, and cached unless the bounded cache drops it or the warm-up replaces the cache |
| `CaseArchive.WarmUpLoadsTheRest` | internal/module/agent/application/internal/core/case_library.go:188-235 | a warm-up left alone suppresses the reported runs in order and leaves cached exactly the listed rows of the other runs that there is room for |
| `CaseArchive.CaseLibrary.LoadSuppressed` | internal/module/agent/application/internal/core/case_library.go:213-235 | the warm-up marks the trimmed, nonblank reported runs one after the other and collects them for its filter |
| `CaseArchive.CaseLibrary.Filter` | internal/module/agent/application/internal/core/case_library.go:200-206 | the rows whose run was not reported |
| `CaseArchive.CaseLibrary.ReplaceCache` | internal/module/agent/application/internal/core/case_library.go:208-208 | the cache holds only loaded rows afterwards |
| `BoundedStringSets.BoundedStringSet.Add` | internal/module/agent/application/internal/cache/stringset.go:32-48 | the ring, its head and the membership set describe the last capacity effective additions, one more after each new value |
| `BoundedStringSets.BoundedStringSet.Contains` | internal/module/agent/application/internal/cache/stringset.go:51-59 | a value is reported exactly when it is among the last capacity effective additions |
| `BoundedStringSets.BoundedStringSet.constructor` | internal/module/agent/application/internal/cache/stringset.go:20-29 | a capacity that is not positive becomes one; the set starts empty |
| `BoundedStringSets.SurvivesExactly` | internal/module/agent/application/internal/cache/stringset.go:32-48 | a value survives exactly capacity minus one later effective additions |
| `BoundedStringSets.AcceptAllKeepsGenuine` | internal/module/agent/application/internal/cache/stringset.go:32-48 | after any series of adds, entries at most capacity apart differ |
| `BoundedStringSets.WindowHasNoDuplicates` | internal/module/agent/application/internal/cache/stringset.go:32-48 | the ring never holds a value twice |
| `BoundedStringSets.WriteAtHead` | internal/module/agent/application/internal/cache/stringset.go:37-47 | overwriting the head slot evicts the oldest value and keeps ring, head and set in agreement |
| `TokenRotation.AtMostOneRotation` | internal/module/iam/infrastructure/postgres/auth_state_repository.go:312-347 | in every run, whatever fails, each refresh token has at most one committed rotation |
| `TokenRotation.OneUnrevokedRecordPerSession` | internal/module/iam/infrastructure/postgres/auth_state_repository.go:285-347 | in every reachable state each session has at most one unrevoked refresh record in the authoritative store |
| `TokenRotation.RunKeepsRotationInv` | internal/module/iam/infrastructure/postgres/auth_state_repository.go:245-347 | every run keeps: rows belong to issued tokens, one usable refresh token per session, and nothing rotated twice or two tokens into one |
| `TokenRotation.NeverAcceptedAgain` | internal/shared/middleware/authn.go:327-363 | with one clock reading, a token whose revocation either store recorded is never accepted again, whatever later calls fail and whatever expired rows are cleaned |
| `TokenRotation.AcceptedIffAcrossExpiry` | internal/shared/middleware/authn.go:327-363 | with separate clock readings, a token whose revocation Postgres recorded is accepted exactly when all else is right, no read fails, Redis does not report it, and it expires between the manager's reading and Postgres's |
| `TokenRotation.AcceptedOnlyAcrossExpiry` | internal/shared/middleware/authn.go:327-363 | for a record in either store, acceptance means that no read failed and the token expired between the manager's reading and that store's |
| `TokenRotation.AcceptedAcrossExpiry` | internal/shared/middleware/authn.go:327-363 | that gap is real: a run in which a revoked token is accepted across its expiry |
| `TokenRotation.RecordStays` | internal/module/iam/infrastructure/redis/auth_state_store.go:108-121 | a revocation recorded in either store is still there at every later state, unless its token has expired |
| `TokenRotation.RotationRecordsRevocation` | internal/module/iam/infrastructure/postgres/auth_state_repository.go:312-347 | a rotation or consumption that takes effect in a store records the old token's revocation there |
| `AuthStores.SameSecond` | internal/shared/middleware/authn.go:349-349 | the manager's comparison of seconds and the stores' comparison of instants lapse at the same instant |
| `AuthStores.PostgresStore.StoreRefreshToken` | internal/module/iam/infrastructure/postgres/auth_state_repository.go:245-262 | a row is inserted once per token id |
| `AuthStores.PostgresStore.RotateRefreshToken` | internal/module/iam/infrastructure/postgres/auth_state_repository.go:312-347 | one transaction: consume the old token and insert the new row, or nothing |
| `AuthStores.PostgresStore.ConsumeRefreshToken` | internal/module/iam/infrastructure/postgres/auth_state_repository.go:285-310 | only the token's own, unrevoked and unexpired row can be consumed |
| `AuthStores.PostgresStore.RevokeToken` | internal/module/iam/infrastructure/postgres/auth_state_repository.go:212-226 | a revocation is inserted unless present and lasts until the token expires |
| `AuthStores.PostgresStore.CleanupExpired` | internal/module/iam/infrastructure/postgres/auth_state_repository.go:82-105 | cleanup drops exactly the rows and revocations that expired by its instant |
| `AuthStores.RedisStore.RotateRefreshToken` | internal/module/iam/infrastructure/redis/auth_state_store.go:178-224 | the watched transaction over the refresh and revocation keys with their expiries |
| `AuthStores.RedisStore.RevokeToken` | internal/module/iam/infrastructure/redis/auth_state_store.go:108-113 | a revocation key lives until the token expires, or a second if it already has |
| `AuthStores.FailoverStore.RotateRefreshToken` | internal/module/iam/infrastructure/authstate/failover_store.go:103-115 | the authoritative store, Postgres if there is one, decides alone; the best-effort store is touched only after it committed and cannot change the answer |
| `AuthStores.FailoverStore.ConsumeRefreshToken` | internal/module/iam/infrastructure/authstate/failover_store.go:89-101 | as for a rotation: the authoritative store alone decides |
| `AuthStores.RedisStore.ConsumeRefreshToken` | internal/module/iam/infrastructure/redis/auth_state_store.go:155-176 | without interference, the revocation key is claimed first and stays claimed when the row does not match; in the runs its two writes are separate steps |
| `AuthStores.RedisStore.StoreRefreshToken` | internal/module/iam/infrastructure/redis/auth_state_store.go:123-138 | the refresh key lives until the token expires, or a second if it already has |
| `AuthStores.FailoverStore.RevokeToken` | internal/module/iam/infrastructure/authstate/failover_store.go:58-62 | both stores are asked and a failure of either is reported |
| `AuthStores.FailoverStore.IsTokenRevoked` | internal/module/iam/infrastructure/authstate/failover_store.go:64-68 | the answer of the two stores read together |
| `AuthStores.ReadBool` | internal/module/iam/infrastructure/authstate/failover_store.go:282-298 | a store that says yes decides; otherwise a failure anywhere is reported, never a no |
| `AuthStores.CallAll` | internal/module/iam/infrastructure/authstate/failover_store.go:264-280 | one success does not hide another store's failure |
| `AuthStores.TokenManager.VerifyToken` | internal/shared/middleware/authn.go:327-363 | a token is accepted exactly when kind, claims and expiry are right and neither the token nor its session is reported revoked, failures counting as rejections |
| `AuthStores.TokenManager.RefreshToken` | internal/shared/middleware/authn.go:184-221 | a refresh succeeds exactly for an accepted token whose rotation commits in the authoritative store, and the new token stays in its session |
| `AuthStores.PgConsumesExactly` | internal/module/iam/infrastructure/postgres/auth_state_repository.go:285-310 | a consumption succeeds exactly for the token's own, unrevoked and unexpired row, revokes that row, records the revocation and touches nothing else |
| `AuthStores.PgRotatesExactly` | internal/module/iam/infrastructure/postgres/auth_state_repository.go:312-347 | a rotation commits exactly when that row can be consumed and the new id is free; the new row is unrevoked; otherwise nothing changes |
| `AuthStores.RdRotatesExactly` | internal/module/iam/infrastructure/redis/auth_state_store.go:178-224 | in Redis a rotation happens exactly when the token is not reported revoked and its live key holds such a row |
| `AuthStores.SingleWrites` | internal/module/iam/infrastructure/redis/auth_state_store.go:108-138 | each single write changes what it names, under an expiry no earlier than the token's, and nothing else |
| `TokenRotation.AcceptedTokenRotates` | internal/shared/middleware/authn.go:184-221 | in every run a stored, unrevoked refresh token that a verification accepts can be rotated into any fresh id, whose row is then the unrevoked one |
| `TokenRotation.FirstTokenIsStored` | internal/module/iam/infrastructure/postgres/auth_state_repository.go:245-262 | in every run the first token of a session can be stored and its row then is as issued |
| `AgentLoopRuns.RunIsBounded` | internal/module/agent/application/internal/core/loop.go:211-429 | whatever the oracles answer, think calls stay within MaxSteps plus MaxReflectionSteps for each critic round held, critic rounds within MaxReflections and successful reassessments within MaxReplans |
| `AgentLoopRuns.BoundIsReached` | internal/module/agent/application/internal/core/loop.go:211-429 | the bound on think calls is exact: with reflection on and no token budget some oracle makes a run use all of it |
| `AgentLoopSteps.ToolStepExactly` | internal/module/agent/application/internal/core/loop.go:235-425 | for every state, a thought with calls that was not cut short leads to the final answer exactly when the tokens spent exceed a budget, or no call is accepted under an unseen key and the error limit is reached; in every other case with such calls all of them are executed in order, answered in order, and the successful keys remembered |
| `AgentLoopSteps.AnswerStepExactly` | internal/module/agent/application/internal/core/loop.go:331-369 | for every state, a thought without calls is rewritten once, replaced by the fallback, criticized, sent back for more steps or streamed under exactly these conditions |
| `AgentLoopSteps.ReassessesExactly` | internal/module/agent/application/internal/core/loop.go:237-290 | the reassessment takes place exactly when plan or ledger can change, a tool succeeded since the last one, the interval has passed and neither count nor budget is used up; the model is then asked unless the client is gone |
| `AgentLoopSteps.CutShortEnds` | internal/module/agent/application/internal/core/loop.go:262-322 | a client found gone while sending ends the run silently and nothing is executed |
| `AgentLoopSteps.FailedThoughtEnds` | internal/module/agent/application/internal/core/loop.go:290-305 | a failed model call ends the run, as failed unless the client is gone |
| `AgentLoopSteps.LessConfidenceMoreSteps` | internal/module/agent/application/internal/core/reflection.go:331-350 | the lower the confidence the more steps: all of them for none, one for full confidence, in between the rounded linear share |
| `AgentLoopSteps.DefaultsAreExact` | internal/module/agent/application/internal/core/service.go:191-280 | limits that were given stay and the others get the documented defaults |
| `AgentLoopRuns.AtMostOneRewrite` | internal/module/agent/application/internal/core/loop.go:331-341 | a run asks for at most one rewrite; a second unusable answer, and nothing else, ends it with the fallback text |
| `AgentLoopRuns.ExitsAreExplained` | internal/module/agent/application/internal/core/loop.go:235-429 | the loop fails only because the model failed and ends silently only because the client was gone; a failing reassessment, critic or tool never fails it |
| `AgentLoopRuns.EndsAreExplained` | internal/module/agent/application/internal/core/loop.go:235-588 | the whole run, final answer stream included: an error only from a model call, silence only because the client was gone, otherwise the fallback text or what a complete stream said |
| `FinalAnswer.StreamFinalAnswer` | internal/module/agent/application/internal/core/loop.go:523-588 | the stream loop with each of its early ends |
| `FinalAnswer.CompleteStreamAnswers` | internal/module/agent/application/internal/core/loop.go:553-587 | a complete stream answers with all its text trimmed, with the trimmed complete text exactly when that is blank, and with an error when both are |
| `FinalAnswer.CutStreamEnds` | internal/module/agent/application/internal/core/loop.go:536-575 | a stream cut before it is complete ends silently exactly when what cuts it finds the client gone, else with an error |
| `FinalAnswer.StreamEndIsExplained` | internal/module/agent/application/internal/core/loop.go:523-588 | silence only because the client was gone; an answer only from a complete stream, and never blank |
| `AgentLoop.AgentRun.RunToEnd` | internal/module/agent/application/internal/core/loop.go:235-588 | the loop and then, where it leads there, the final answer stream |
| `AgentLoopRuns.TokenUseIsPeak` | internal/module/agent/application/internal/core/loop.go:296-315 | what a run has used is zero or a count some reply reported, and no reply reported more: counts are never added up |
| `AgentLoopRuns.EveryTurnIsPaired` | internal/module/agent/application/internal/core/loop.go:381-425 | every turn of every run answers its calls one for one, ids and multiplicities included |
| `AgentLoopRuns.SucceededKeyNeverRunsAgain` | internal/module/agent/application/internal/core/loop.go:381-425 | a tool-and-arguments key that succeeded in one step is never executed in a later one, and nothing is executed once the budget is exceeded |
| `AgentLoopRuns.ReassessmentsAreSpaced` | internal/module/agent/application/internal/core/loop.go:237-275 | successful reassessments are at least ReplanInterval steps apart with a new successful tool call before each, so their number times the interval never exceeds the step of the last |
| `AgentLoop.AgentRun.RunLoop` | internal/module/agent/application/internal/core/loop.go:235-429 | the loop over all its variables refines the specification step by step and terminates although its bound moves both ways |
| `AgentLoop.AgentRun.Iterate` | internal/module/agent/application/internal/core/loop.go:235-426 | one iteration with its order of phases and its exits |
| `AgentLoop.AgentRun.Reassess` | internal/module/agent/application/internal/core/loop.go:244-276 | the reassessment runs only when due and counts only when it succeeds |
| `AgentLoop.AgentRun.Think` | internal/module/agent/application/internal/core/loop.go:290-324 | token use is the latest cumulative count; a failed model call ends the run |
| `AgentLoop.AgentRun.Conclude` | internal/module/agent/application/internal/core/loop.go:331-369 | an answer without tool calls is rewritten once, criticized, or streamed |
| `AgentLoop.AgentRun.Criticize` | internal/module/agent/application/internal/core/loop.go:342-368 | a critic that fails never fails the run; a doubted answer becomes a turn and moves the step bound |
| `AgentLoop.AgentRun.Act` | internal/module/agent/application/internal/core/loop.go:374-401 | ids are completed, the budget is checked, and a step without a valid call counts towards the error limit; ToolStepExactly says when that ends the run |
| `AgentLoop.AgentRun.Execute` | internal/module/agent/application/internal/core/loop.go:401-425 | after execution every planned call has one result, and only successes are remembered |
| `AgentLoop.AgentRun.ObserveAll` | internal/module/agent/application/internal/core/loop.go:412-424 | the keys that succeeded and one observation for each executed call, in order |
| `AgentLoop.StepStaysInBound` | internal/module/agent/application/internal/core/loop.go:357-366 | one iteration leaves the step counter alone and the bound within MaxSteps plus all reflection steps |
| `AgentLoop.Supplement` | internal/module/agent/application/internal/core/reflection.go:331-350 | a doubted answer gets between one and MaxReflectionSteps further steps |
| `AgentLoop.Extended` | internal/module/agent/application/internal/core/loop.go:360-361 | the new bound never exceeds MaxSteps plus all reflection steps |
| `AgentLoop.WithDefaults` | internal/module/agent/application/internal/core/service.go:191-280 | any configuration becomes one with positive limits |
| `ToolTurns.EnsureInvocationIDs` | internal/module/agent/application/internal/core/loop.go:1075-1081 | blank ids are replaced in place and nothing else changes |
| `ToolTurns.ValidateSplits` | internal/module/agent/application/internal/core/loop.go:381-391 | every call is either answered with an error or planned, with multiplicities |
| `ToolTurns.PlannedAreFresh` | internal/module/agent/application/internal/core/loop.go:784-787 | nothing is planned under a key that already succeeded |
| `ToolTurns.StepTurnPaired` | internal/module/agent/application/internal/core/loop.go:381-425 | errors followed by observations answer the step's calls one for one |
| `ToolTurns.BarrenTurnPaired` | internal/module/agent/application/internal/core/loop.go:392-400 | a step without a valid call still answers all its calls |
| `ToolTurns.ValidateAll` | internal/module/agent/application/internal/core/loop.go:381-391 | the validation loop splits a step's calls into errors and plans, both in order |
| `ToolTurns.ValidateIsExact` | internal/module/agent/application/internal/core/loop.go:381-391 | the calls to execute are exactly the accepted ones under unseen keys, and the answers name exactly the others with their reasons, both in order |
| `ToolPairing.RunRequestsPair` | internal/module/ai/infrastructure/llm/assistant_generator.go:290-322 | every request built from the turns of a run answers each assistant message with tool calls at once and in full, exactly when no call id carries outer white space |
| `ToolPairing.RequestPairsIffTrimmed` | internal/platform/llm/llm.go:501-523 | the same for any paired turns, history and question: the filter trims ids in tool messages and nowhere else |
| `ToolPairing.TurnIsWellPaired` | internal/module/ai/infrastructure/llm/assistant_generator.go:306-320 | the messages of one turn through both translations |
| `ToolPairing.ToolMessagesSurvive` | internal/platform/llm/llm.go:508-514 | the filter drops no tool message, not even an empty one |
| `ToolPairing.TurnRequest` | internal/platform/llm/llm.go:501-523 | what the request holds of one turn: only a blank draft without calls is dropped |
| `ToolPairing.TurnContents` | internal/module/ai/infrastructure/llm/assistant_generator.go:306-358 | the request of a turn holds the model's text with each call's id, tool and arguments, then each result under its id and tool name, in order |
| `ToolPairing.FilterOne` | internal/platform/llm/llm.go:501-526 | the filter decides on each message alone, and what it keeps is trimmed except for ids, names and arguments of calls |
| `ToolPairing.OneOfHistory` | internal/module/ai/infrastructure/llm/assistant_generator.go:290-300 | a history message comes through trimmed unless blank; roles other than assistant and system become the user's |
| `ToolPairing.RequestInOrder` | internal/module/ai/infrastructure/llm/assistant_generator.go:290-322 | a request is the history, the question unless blank, and the turns, one after the other |
| `ToolPairing.TrimmingKeepsIffTrimmed` | internal/platform/llm/llm.go:515-521 | trimming a list of ids keeps it, as a multiset, exactly when all of them were trimmed |
| `ToolPairing.WellPairedConcat` | internal/platform/llm/llm.go:501-523 | two lists of messages pair up independently unless the second starts inside a block |
| `ToolPairing.ToToolChatMessages` | internal/module/ai/infrastructure/llm/assistant_generator.go:290-322 | history, question and turns become messages in order |
| `ToolPairing.ToPlatformToolCalls` | internal/module/ai/infrastructure/llm/assistant_generator.go:342-358 | calls keep their ids, names and arguments |
| `ToolPairing.NewRequestMessages` | internal/platform/llm/llm.go:501-526 | the filter loop, and the error for a request without messages |
| `ToolPairing.ToOpenAIToolCalls` | internal/platform/llm/llm.go:1037-1057 | calls keep their ids; a blank kind becomes a function |
| `McpAdmission.SlotsAreExact` | internal/module/agent/infrastructure/mcp/manager.go:409-432 | in every run the limiter count of a server is the number of calls holding a slot, never more than the maximum, and the key exists exactly while it is positive |
| `McpAdmission.LimiterRefusalTouchesNothing` | internal/module/agent/infrastructure/mcp/manager.go:414-417 | the limiter refuses exactly when all slots are held, and then changes nothing, the breaker included |
| `McpAdmission.BreakerRefusalReturnsSlot` | internal/module/agent/infrastructure/mcp/manager.go:418-422 | a breaker refusal leaves counts and breaker as they were |
| `McpAdmission.BreakerInvariant` | internal/module/agent/infrastructure/mcp/breaker.go:54-107 | late reports included: half-open holds exactly while the flag is set and an admitted call is still to report; closed means fewer than threshold failures since the last success or closing |
| `McpAdmission.AdmissionIsExact` | internal/module/agent/infrastructure/mcp/breaker.go:54-78 | in every reachable state a call is admitted exactly when the breaker is closed, or open for at least the cooldown since the last opening in the log, in which case it becomes the probe; a refusal changes nothing |
| `McpAdmission.ReportIsExact` | internal/module/agent/infrastructure/mcp/breaker.go:81-107 | in every reachable state a report opens the breaker exactly when it is a failure in half-open or the threshold-th failure in a row, and closes it exactly when it is a success in half-open |
| `McpAdmission.OpenedAtIsLastOpening` | internal/module/agent/infrastructure/mcp/breaker.go:54-107 | in every run the time kept is that of the last opening |
| `McpAdmission.UnlimitedNeverRefuses` | internal/module/agent/infrastructure/mcp/manager.go:409-417 | without a limit or a server name the limiter refuses nothing and counts nothing |
| `McpAdmission.LateReportsIffSpareSlot` | internal/module/agent/infrastructure/mcp/breaker.go:104-106 | for every threshold, a report can arrive while the breaker is open, in some run, exactly unless the server is limited to a single slot |
| `McpAdmission.LateReportIsIgnored` | internal/module/agent/infrastructure/mcp/breaker.go:104-106 | such a report leaves the breaker as it is and frees its slot |
| `McpAdmission.HalfOpenCannotWedge` | internal/module/agent/infrastructure/mcp/breaker.go:54-107 | in half-open some admitted call is still to report, and the first report of any call leaves half-open |
| `McpAdmission.NoAdmissionWithinCooldown` | internal/module/agent/infrastructure/mcp/breaker.go:54-107 | no call is admitted within the cooldown of any earlier opening |
| `McpAdmission.Manager.Acquire` | internal/module/agent/infrastructure/mcp/manager.go:409-432 | limiter first, then breaker; busy exactly when the count is at the maximum, unavailable exactly when the breaker refuses, and each refusal restores what it took |
| `McpAdmission.Manager.Done` | internal/module/agent/infrastructure/mcp/manager.go:424-431 | only the first call of a done closure reports and frees the slot |
| `CircuitBreakers.CircuitBreaker.TryAllow` | internal/module/agent/infrastructure/mcp/breaker.go:54-78 | admitted exactly when closed, open with the cooldown over, or half-open without a probe |
| `CircuitBreakers.CircuitBreaker.Report` | internal/module/agent/infrastructure/mcp/breaker.go:81-107 | the state change of record in each state |
| `CircuitBreakers.CircuitBreaker.IsOpen` | internal/module/agent/infrastructure/mcp/breaker.go:110-117 | whether a call would be refused for the cooldown, without changing the breaker |
| `CircuitBreakers.WithDefaults` | internal/module/agent/infrastructure/mcp/breaker.go:36-49 | threshold and cooldown given as positive stay; otherwise five failures and thirty seconds |
| `Limiters.KeyedSemaphore.Acquire` | internal/shared/limiter/limiter.go:35-52 | a slot is taken only below the maximum; a blank key and a maximum of zero are unlimited |
| `Limiters.KeyedSemaphore.Release` | internal/shared/limiter/limiter.go:55-63 | the last release deletes the key |
| `Limiters.ReleaseUndoesAcquire` | internal/shared/limiter/limiter.go:35-63 | a release restores the table of counts that the acquire found |
| `Limiters.CounterNeverOverAdmits` | internal/shared/limiter/limiter.go:82-94 | under every interleaving of the counter's atomic instructions the holders never exceed the maximum |
| `Limiters.RefusedIffFull` | internal/shared/limiter/limiter.go:82-94 | an attempt is refused exactly when holders and attempts not yet taken back fill the counter |
| `Limiters.RefusedWhileFree` | internal/shared/limiter/limiter.go:82-94 | so an attempt can be refused while nobody holds the only slot |
| `Limiters.Counter.Acquire` | internal/shared/limiter/limiter.go:82-94 | without interference the counter is exact in both outcomes |
| `DsmlWriter.WrittenCallsParseBack` | internal/platform/llm/llm.go:697-835 | calls written as markup in either style of bars, with any raw names and values in which no tag starts, parse back under any entity decoder to what they say, in order, those without a name left out; the cleaned text is the text around them |
| `DsmlRoundTrip.SplitIsLayout` | internal/platform/llm/llm.go:707-727 | the blocks partition any text: nothing is lost, they are the complete blocks from left to right, and none is left behind the last |
| `DsmlRoundTrip.LayoutIsUnique` | internal/platform/llm/llm.go:707-727 | there is only one such partition of a text |
| `DsmlRoundTrip.ParseTakesBlocksOut` | internal/platform/llm/llm.go:697-731 | the calls are those of the blocks in order, the cleaned text is the text with just the blocks taken out, and text without calls comes back untouched |
| `DsmlWriter.ElementRead` | internal/platform/llm/llm.go:747-821 | a written element is found with its decoded name and its body, and the search goes on right behind it; of one without a name only the tag is stepped over |
| `DsmlWriter.AttributeRead` | internal/platform/llm/llm.go:823-835 | the name attribute is read back from its tag, decoded and trimmed |
| `DsmlWriter.AttributeUnclosed` | internal/platform/llm/llm.go:823-835 | an attribute whose value is not closed reads as no name |
| `DsmlWriter.UnclosedElement` | internal/platform/llm/llm.go:766-770 | an element that is never closed ends the reading |
| `DsmlWriter.UnfinishedTag` | internal/platform/llm/llm.go:752-760 | so does a tag that is never finished |
| `DsmlWriter.ArgumentsExactly` | internal/platform/llm/llm.go:791-821 | the arguments are the named parameters, each with the value given last |
| `DsmlWriter.BlocksInOrder` | internal/platform/llm/llm.go:702-727 | calls and texts of consecutive blocks follow one another |
| `DsmlWriter.BlockRead` | internal/platform/llm/llm.go:747-787 | a written block reads back as its calls, whichever bars it uses |
| `DsmlParser.ParseDSMLToolCalls` | internal/platform/llm/llm.go:697-731 | the entry point refines the partition: calls and cleaned text, or the untouched input |
| `DsmlParser.CollectBlocks` | internal/platform/llm/llm.go:702-727 | the block loop with its two early ends |
| `DsmlParser.ParseDSMLInvokes` | internal/platform/llm/llm.go:747-789 | the invoke loop: tags without a name are stepped over, an unclosed one ends it |
| `DsmlParser.ParseDSMLParameters` | internal/platform/llm/llm.go:791-821 | the parameter loop: a later parameter of the same name wins |
| `DsmlParser.FindDSMLMarker` | internal/platform/llm/llm.go:733-745 | the marker loop over all markers |
| `DsmlParser.MarkerIsFirst` | internal/platform/llm/llm.go:733-745 | the marker found stands where it was found and no marker stands earlier |
| `ContextWindow.ApplyContextWindow` | internal/module/ai/application/service.go:1034-1074 | all system messages, then the longest suffix of the dialogue within both the message and the character limit, in its order; at most 20 such messages, and 24000 characters in all if there are any |
| `ContextWindow.ToMessageContext` | internal/module/ai/application/service.go:990-1027 | the window over the messages selected from the conversation |
| `ContextWindow.ChosenExactly` | internal/module/ai/application/service.go:990-1027 | exactly the answered questions, their answers, and the completed system messages not between a question and its answer are passed on |
| `ContextWindow.AnsweredExactly` | internal/module/ai/application/service.go:1000-1093 | a question counts as answered exactly when it is shown and completed and the next shown user or assistant message is a completed answer |
| `ContextWindow.OnlyCompletedArePassedOn` | internal/module/ai/application/service.go:990-1027 | nothing deleted, blank or incomplete is passed on |
| `ContextWindow.SplitIsExact` | internal/module/ai/application/service.go:1039-1047 | system messages and dialogue partition the selected messages by role, with multiplicities |
| `ContextWindow.SplitConcat` | internal/module/ai/application/service.go:1039-1047 | each part keeps its order |
| `ContextWindow.ChosenInOrder` | internal/module/ai/application/service.go:990-1027 | messages are passed on in their original order |
| `ContextWindow.DialogueAlternates` | internal/module/ai/application/service.go:1006-1025 | the dialogue alternates question and answer, question first |
| `ContextWindow.NextAssistantIsNextTurn` | internal/module/ai/application/service.go:1076-1093 | the search finds the next shown turn when that is a completed answer, and only then |
| `ContextWindow.NextCompletedAssistantIndex` | internal/module/ai/application/service.go:1076-1093 | the search loop |
| `ContextWindow.GreedyIsLongest` | internal/module/ai/application/service.go:1053-1063 | counting from the newest message until a limit is hit gives the longest suffix that fits |
| `ContextWindow.KeepNewest` | internal/module/ai/application/service.go:1053-1063 | the loop from the newest message backwards |
| `ContextWindow.ReverseInPlace` | internal/module/ai/application/service.go:1066-1068 | the kept messages are reversed in place |
| `ContextWindow.PairsKeptExactly` | internal/module/ai/application/service.go:1029-1033 | pairs are kept together exactly when the character limit does not fall between an answer within the message limit and its question |
| `ContextWindow.AnswerLeftAlone` | internal/module/ai/application/service.go:1029-1074 | a question too long to keep leaves its answer behind alone |
| `HypothesisLedger.ApplyingTwiceIsApplyingOnce` | internal/module/agent/application/internal/core/hypothesis.go:135-166 | applying an update list twice gives the ledger of applying it once, also with several updates for one id |
| `HypothesisLedger.SeriesKeepsLedger` | internal/module/agent/application/internal/core/hypothesis.go:96-203 | from any seeded ledger every series of update lists keeps ids and texts, at most five hypotheses, confidences in range and at most four distinct references each, none ever lost |
| `HypothesisLedger.ApplyLedgerUpdates` | internal/module/agent/application/internal/core/hypothesis.go:135-166 | the updates in place, and changed exactly when some update changed the ledger at its turn |
| `HypothesisLedger.FlagIsWrongExactly` | internal/module/agent/application/internal/core/hypothesis.go:131-166 | a change is reported for an unchanged ledger exactly for lists that say something new about some hypothesis and yet settle every one where it stands; the opposite never happens |
| `HypothesisLedger.UnchangedIffSettled` | internal/module/agent/application/internal/core/hypothesis.go:135-166 | a list leaves the ledger as it is exactly when, for every hypothesis, its last status and confidence are the present ones and it brings no reference there is room for |
| `HypothesisLedger.ReportedIffSomethingNew` | internal/module/agent/application/internal/core/hypothesis.go:135-166 | the flag is set exactly when some update says something new about the ledger as given |
| `HypothesisLedger.NoChangeReported` | internal/module/agent/application/internal/core/hypothesis.go:135-166 | a reported no-change means the ledger is as it was |
| `HypothesisLedger.ChangesCanCancelOut` | internal/module/agent/application/internal/core/hypothesis.go:135-166 | for every ledger whose first hypothesis is pending, confirming it and taking that back is such a list |
| `HypothesisLedger.LastOnesWin` | internal/module/agent/application/internal/core/hypothesis.go:143-165 | the last recognizable status and the last confidence given for an id win |
| `HypothesisLedger.StatusWords` | internal/module/agent/application/internal/core/hypothesis.go:80-91 | which words stand for which status, up to case and outer white space, and that no others do |
| `HypothesisLedger.SeededIsOk` | internal/module/agent/application/internal/core/hypothesis.go:96-129 | a seeded ledger has at most five hypotheses with distinct texts and the ids H1 to H5 |
| `HypothesisLedger.SeededItem` | internal/module/agent/application/internal/core/hypothesis.go:96-129 | every hypothesis is a given text, squeezed, pending, neutral and without evidence, right behind those of the texts before it |
| `HypothesisLedger.SeededCovers` | internal/module/agent/application/internal/core/hypothesis.go:96-129 | a text that is not blank is in the ledger, up to case, unless the ledger is full of earlier ones |
| `HypothesisLedger.SeededGrows` | internal/module/agent/application/internal/core/hypothesis.go:96-129 | hypotheses stand in the order of their first mention |
| `HypothesisLedger.IDsAreUnique` | internal/module/agent/application/internal/core/hypothesis.go:74-76 | ids are unique |
| `HypothesisLedger.SeedLedger` | internal/module/agent/application/internal/core/hypothesis.go:96-129 | the seeding loops, plan before playbook |
| `HypothesisLedger.MergeEvidenceRefs` | internal/module/agent/application/internal/core/hypothesis.go:170-203 | the two merge loops, with the early end at the cap |
| `HypothesisLedger.MergeKeepsRefs` | internal/module/agent/application/internal/core/hypothesis.go:170-203 | references are only added at the end, at most four and distinct |
| `HypothesisLedger.MergeTakesInOrder` | internal/module/agent/application/internal/core/hypothesis.go:170-203 | a merge appends the new references in the order of their first mention while there is room, and answers nothing when there is none to append |
| `HypothesisLedger.NewRefsExactly` | internal/module/agent/application/internal/core/hypothesis.go:170-203 | those are exactly the nonblank trimmed references not yet there, each once |
| `HypothesisLedger.ResolvedCount` | internal/module/agent/application/internal/core/hypothesis.go:54-62 | the number of confirmed or excluded hypotheses |

## Left out

- HTTP handlers, middleware chains, metrics, logging, configuration files, Kubernetes and Prometheus tools, uploads,
  pub/sub, WebSocket tickets, retry and pagination: wiring, or easier than the rest.
- Redis, Postgres and GORM beyond the atomic steps modelled; clock skew beyond readings that are late.
- The namespace prefix of semaphore keys, and two limits whose keys become equal after sanitizing having different
  caps: a policy gives every key one cap.
- The Redis server's own rounding and the sub-millisecond part of a ttl: times are whole milliseconds.
- Message framing, replies to requests of the peer, and notifications of the session; numbering past the largest
  64-bit id. The writes of the transport are one step that may fail.
- The vector cache of the case library: a set of cases that may drop any others when one is added. Embeddings,
  extraction by the model and few-shot selection.
- Session-level revocation, subject-wide revocation, login-failure counters and OIDC state: a verification takes the
  session's answer as a parameter. The failover store's `GetRefreshToken`.
- Signing, encoding and JSON: a token is its decoded payload, a DSML call's arguments are the map before marshalling.
- `normalizeDSMLToolCalls`, the streaming parser around the DSML text, and the accumulator for native tool calls.
- Prompt texts, answer-quality heuristics, the playbook and the reflection panel: oracles. What
  `finalDiagnosticAnswer` does to the text of the final answer stream.
- The tool trace and the other counters of a run's statistics: they do not influence the loop.
- `dedupKey` and the schema check of a call: one oracle from a call to a reason or a key.
- The three phases of one tool batch: the outcome of each call is an oracle, and losing the client during the batch
  ends the run after the executions.
- Floating-point confidences are real numbers; a value that is not a number is not modelled.
- Strings are sequences of Unicode characters; text that is not valid UTF-8 is not modelled.
- TokenRotation.AcceptedOnlyAcrossExpiry: one direction for a record that only Redis holds, because a revocation
  written there after the token's expiry lives a second longer, so what Redis still reports depends on when it was
  written.
