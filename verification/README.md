# TrustVault protocols in Dafny

A model of the protocols inside TrustVault whose guarantees come from the order of writes, from lifetimes
in seconds and milliseconds, or from caches that must agree with a slower truth, with proofs of what
those protocols keep.

Two kinds of member work together:

- **Transition systems on values** (`Revocation`, `Keys`, `AuthzInterleaving`, `AuthzCaching`, `Orchestrator`,
  `AlertEmitter`, `Mfa`, `MfaInterleaving`). Each `await`, SQL statement or Kafka call is one event; `Enabled` says when the
  event may happen, `Apply` what it does, and `Runs` makes a run of any events in any order. Crashes, aborts and
  failing calls are events too. The theorems speak of every run from an initial state.
- **Classes in the form of the source** (`TokenRevoker.Stores`, `JwtLib.JwtService`, `AuthzMiddleware.Middleware`,
  `OrchestratorLoops.Service`, `AlertEmitter.Emitter`, `AuditEmitter.Emitter`, `Mfa.Plugin`,
  `Ledger.Contract`, and the method `Backoff.ExponentialBackoff`). They keep the source's fields, loops and branches. The
  contract of each method says what it changes in the stores. Where a transition system exists, the contracts of the methods that
  do the work (all of `TokenRevoker.Stores` that handle a message or a request; of `JwtService` fetching, issuing, validating and rotating;
  `Authorize` and `Handle`, both loops of `Service`, `Emit`) also say that the call is a run of that system
  (`Reaches`); those of `Mfa.Plugin` say that it is one step of `Mfa`. `AuthzCaching.ServeIsRun` and `MfaInterleaving.VerifyIsRun`
  say that the functions which `Handle` and `VerifyCode` are proved to compute are runs of the finer systems. So the theorems
  about runs hold of the programs.

Failing calls are parameters: a `budget` of statements that answer, or flags that say which call answers. Clock
readings, fresh UUIDs, one-time-password checks, JSON-logic rules and the hash are parameters as well.

| file | content |
|---|---|
| `Tokens.dfy`, `Alerts.dfy`, `Wrappers.dfy` | token times, the blacklist, alerts, `Option` and `Result` |
| `Revocation.dfy`, `Finality.dfy`, `TokenRevoker.dfy` | both revocation paths as one system; when revocation is final; the two programs |
| `Keys.dfy`, `JwtLib.dfy` | rotating and cached signing keys; `lib/jwt.ts` |
| `Authz.dfy`, `AuthzInterleaving.dfy`, `AuthzCaching.dfy`, `AuthzMiddleware.dfy` | the shared enforcer and the decision cache; interleaved requests, on the enforcer and on the cache in front of it; the middleware |
| `Pipeline.dfy`, `Orchestrator.dfy`, `OrchestratorLoops.dfy`, `LostMessages.dfy` | consume, process, produce; the two loops; what is lost |
| `AlertEmitter.dfy` | the dual write with compensation, for overlapping emits |
| `Backoff.dfy`, `AuditEmitter.dfy` | retry delays; audited actions |
| `Roles.dfy` | pagination |
| `Mfa.dfy`, `MfaInterleaving.dfy` | challenges, one request at a time; overlapping verifications |
| `Ledger.dfy` | the ledger, its export and its retried submits |

## What turned out false, and exactly when it holds

- Revocation of an access token is final if, once a path has written its entry, no direct blacklist write for that token
  falls short of the rest of its life (`OverwriteIsSafeIff`; `ShortWriteRevives` is a run in which one does), and its session
  did not open between the SELECT and the UPDATE of a sweep of its own user. Over every run with sufficient direct writes,
  an access token is rejected for good exactly when it has expired or has an entry (`RejectedIffListed`), so that UPDATE
  flags only rejected ones exactly when each session that opened since the SELECT has expired or has an entry already
  (`UpdateIsSafeIff`). A revoked token without an entry always has such a session (`RevokedWithoutEntry`), and
  `GapSessionStaysValid` is a run from an initial world that ends with one, its token still accepted. Revocation is not
  final for refresh tokens (`LifetimesInUse`).
- Overlapping key rotations keep some key active, but the number of active keys stays the same exactly when as many
  different keys were retired as were created (`ActiveKeysCount`); `OverlapGrows` is a run from one active key to two.
- Interleaved requests share the enforcer. What the last clearing kept, and what was loaded and joined since, by whichever
  request, decides the answer (`AnswerIff`). If the table is not edited from a request's reading of its rows to its
  `enforce`, the answer is the rule's when nobody else clears or adds between the request's own clearing and that, and at
  least never a wrong refusal when nobody else clears (`UndisturbedIsExact`);
  `CollisionRefuses` is a run from the initial state in which another request's clearing refuses what the rule allows.
- A published alert always has its row exactly when no emit that publishes had found the row of another emit, still under way,
  that then deletes it (`PublishedHasRowIff`); `RaceRun` is a run in which that happens. Emits that do not overlap, but may be
  interrupted, leave rows without an alert; `EmitsAgreeIff` says which sequences of emits leave none.
- A challenge earns one token at most when its verifications do not overlap. In general it does exactly when none of those that
  earned one read the row before another of them updated it and updated it afterwards (`OneTokenIff`); `TwoTokensRun` is a
  run in which one code earns two.
- Following `next` over the roles skips one row per page boundary, so it is complete exactly when everything fits on the first page
  (`WalkIsCompleteIff`).
- Every logged pair has its last log as its ledger entry exactly when no two different logged pairs have the same joined text
  (`LastWriterIff`); separator-free run ids are enough for that (`SeparatorFreeApart`), and `SeparatorMatters` is a pair of
  logs without.
- A message is not always processed: it is lost exactly when its fourth attempt aborts and a later offset of its partition is
  committed before a restart (`LostIff`; `LossRun` is such a run).
- A consumer that was paused takes no message until the process restarts (`PausedUntilRestart`); `StarvedRun` is a run
  after which it waits for ever, its queue empty and an input unread.

Where code and its own words differ, the code is modelled: a failing cache read leads to a full evaluation, not
to the default denial that its comment announces (`iam-service/src/middleware/authz.ts:96`), and an error that is not
retriable is retried like any other (`soar-service/src/emitters/kafkaEmitter.ts:66-67`).

## Model

| member | source | states |
|---|---|---|
| Tokens.ExpiredIff | iam-service/src/lib/jwt.ts:100 | flooring both the issue time and the clock to seconds puts the deadline at exactly `exp` thousand milliseconds |
| Tokens.RejectedFromIff | iam-service/src/lib/jwt.ts:93-105 | from a moment on no validation accepts the token exactly when it has expired or its blacklist entry outlives `exp` |
| Tokens.ListingIsFinalIff | iam-service/src/lib/jwt.ts:136-139 | a blacklist write is final exactly when its lifetime reaches `exp`; a lifetime as long as the token's always does |
| Tokens.LifetimesInUse | iam-service/src/lib/jwt.ts:74-75 | 900 s and 24 h both cover every 15-minute access token; neither covers a refresh token with more than a day to live |
| Revocation.StepKeepsInv | iam-service/cmd/token-revoker/main.go:115-177 | every statement of either path, in any interleaving and at any crash, keeps the listing, lock, selection and record invariants |
| Finality.RevocationIsFinal | iam-service/src/lib/jwt.ts:93-109 | once an access token's session is flagged or its revocation recorded, by either path, no later validation accepts it, whatever happens to other tokens, as long as no direct write cuts this token's entry short once a path has written it, and its session did not open in a sweep of its own user; a late blacklist read can pass it only after it has expired |
| Revocation.RevokedForever | iam-service/src/routes/sessions.ts:101-104 | flags, recorded revocations and tokens never disappear in any run |
| Revocation.ListedBeforeRecorded | iam-service/cmd/token-revoker/main.go:166-177 | in every reachable world each recorded token has a blacklist entry |
| Revocation.WideAlertsRecordOnce | iam-service/cmd/token-revoker/main.go:122-160 | concurrent user-wide alerts together record a token at most once, and no alert records one twice |
| Revocation.CommitCompletes | iam-service/cmd/token-revoker/main.go:138-163 | after a user-wide commit every session its SELECT saw is flagged, recorded under the alert and blacklisted |
| Revocation.RecordedOnce | iam-service/cmd/token-revoker/main.go:122-163 | however transactions run concurrently, fail or are delivered again, the recorded rows are one block of distinct tokens for each id in `revoked_alerts`, and nothing else; the sessions flagged are those each block's UPDATE flagged, all of the alert's user, and those deleted by request |
| Finality.OverwriteIsSafeIff | iam-service/src/lib/jwt.ts:136-139 | a later direct blacklist write keeps a revoked access token rejected exactly when it writes nothing, the token has expired, or its lifetime covers what is left |
| Finality.ShortWriteRevives | iam-service/src/lib/jwt.ts:136-139 | a run from an initial world in which a one-second write over the entry of a revoked token makes it accepted again |
| Finality.RejectedIffListed | iam-service/src/lib/jwt.ts:93-105 | over every run in which direct writes to its entry are sufficient, whatever opens and sweeps when, an access token is rejected for good exactly when it has expired or has an entry |
| Finality.UpdateIsSafeIff | iam-service/cmd/token-revoker/main.go:139-160 | over every such run, the access tokens the UPDATE flags are all rejected for good exactly when each of them whose session opened since the SELECT has expired or has an entry already |
| Finality.RevokedWithoutEntry | iam-service/cmd/token-revoker/main.go:139-160 | over every run whatever, a revoked token that has no entry is one whose session opened in the middle of a sweep of its own user |
| Finality.GapSessionStaysValid | iam-service/cmd/token-revoker/main.go:139-160 | a run from an initial world, with one session opened in that gap, that ends with the session flagged and its token accepted |
| TokenRevoker.ExactlyOnce | iam-service/cmd/token-revoker/main.go:95-164 | after any deliveries with duplicates and failures at any statement the database is what applying each alert once, at its first committed delivery, makes of it |
| TokenRevoker.CommittedOrKnown | iam-service/cmd/token-revoker/main.go:126-132 | the ids so applied are exactly those of which some delivery committed |
| TokenRevoker.ChangesIff | iam-service/internal/revoker/revoker.go:17-23 | a delivery changes the database exactly when it is of a High or Critical account compromise with a new id and every statement answers |
| TokenRevoker.DeliveryIs | iam-service/cmd/token-revoker/main.go:126-163 | what a delivery that changes anything changes: the alert's id is known, each target has exactly one more record of this alert, and a user-wide alert leaves no session of its user unrevoked; no other row changes |
| TokenRevoker.OutcomeIsRun | iam-service/cmd/token-revoker/main.go:115-177 | what one delivery leaves behind, whichever statement fails, is reached by a run of the revocation system |
| TokenRevoker.OutcomeDelivers | iam-service/cmd/token-revoker/main.go:115-164 | in the tables that outcome is the alert's whole effect or nothing, in whatever order the SELECT returned its rows |
| TokenRevoker.RowsOfEnumeration | iam-service/cmd/token-revoker/main.go:139-157 | the loop records the same bag of rows in whatever order the query lists the sessions |
| TokenRevoker.ProgramsRevokeForGood | iam-service/src/lib/jwt.ts:93-109 | the programs make own steps only, so a token revoked when they start is rejected wherever they lead |
| TokenRevoker.ProgramsRevoke | iam-service/cmd/token-revoker/main.go:95-177 | every access token the programs newly revoke is rejected for good |
| TokenRevoker.Stores.Query | iam-service/cmd/token-revoker/main.go:139-152 | returns the token id of every session that is the user's and not revoked, once each, and no other |
| TokenRevoker.Stores.RevokeEach | iam-service/cmd/token-revoker/main.go:153-157 | succeeds exactly when two statements per token answer; otherwise the tokens reached so far stay listed |
| TokenRevoker.Stores.RevokeTargets | iam-service/cmd/token-revoker/main.go:134-163 | the tables change only if every remaining statement answers; the blacklist keeps what was listed |
| TokenRevoker.Stores.Process | iam-service/cmd/token-revoker/main.go:115-164 | commits exactly when four statements answer for a known alert id, six for a named token, six and two per session for a user; a new alert then has each of its targets recorded once and blacklisted for a day, and a user-wide one leaves no session of its user unrevoked and touches no other; otherwise no table changes |
| TokenRevoker.Stores.Handle | iam-service/cmd/token-revoker/main.go:97-110 | a message that does not parse, or is not of a High or Critical account compromise, changes nothing; any other has the specified effect on the database; the handling is a run of the revocation system |
| TokenRevoker.Stores.ConsumeClaim | iam-service/cmd/token-revoker/main.go:95-113 | every message is marked, even one whose processing failed; together they leave the database of the delivery sequence and are a run of the revocation system |
| TokenRevoker.Stores.DeleteSession | iam-service/src/routes/sessions.ts:88-110 | 400, 404, 403 and 204 exactly when the id is empty, the session unknown, the caller neither an administrator nor its owner, or otherwise all needed calls answer; only then is this session, and no other, flagged, after its id was blacklisted for fifteen minutes; any stop in between is a run of the revocation system |
| Keys.SomeKeyIsActive | iam-service/src/lib/jwt.ts:123-128 | with any number of rotations interleaved or abandoned anywhere, some key is active in every state |
| Keys.RoundTrip | iam-service/src/lib/jwt.ts:66-109 | a token issued by any process is valid at any other with its payload, exactly until it expires or is blacklisted, across any rotations and cache states |
| Keys.AcceptedIff | iam-service/src/lib/jwt.ts:93-105 | over any run, a token, whoever made it, passes at any process exactly when its `kid` is a row whose secret signed it, it has not expired, and it has an id that is not blacklisted; a pass returns its own payload |
| Keys.CachesAreInvisible | iam-service/src/lib/jwt.ts:33-41 | any cached or fetched secret is the one of the key table |
| Keys.SigningKeyIsRecent | iam-service/src/lib/jwt.ts:43-51 | the key a process signs with was active at or after a read that was stored less than five minutes ago |
| Keys.RotateSwaps | iam-service/src/lib/jwt.ts:123-128 | a whole rotation swaps the key it found for the new one and keeps the number of active keys |
| Keys.SerialRotationsKeepOne | iam-service/src/lib/jwt.ts:123-128 | serial rotations from one active key end with one active key, the newest |
| Keys.ActiveKeysCount | iam-service/src/lib/jwt.ts:123-128 | over any run, with rotations overlapping or abandoned anywhere, the active keys are those active at the start and those created, without those retired; their number is unchanged exactly when as many different keys were retired as created |
| Keys.OverlapIsHarmlessIff | iam-service/src/lib/jwt.ts:123-128 | if two rotations both find, both create and then both retire, the number of active keys is kept exactly when they found different ones |
| Keys.OverlapRun | iam-service/src/lib/jwt.ts:123-128 | that schedule is a run of the key system, from any state in which both can find their key |
| Keys.OverlapGrows | iam-service/src/lib/jwt.ts:123-128 | a run from an initial state with one active key in which two rotations overlap and leave two |
| Keys.RotationKeepsOthers | iam-service/src/lib/jwt.ts:123-130 | a rotation leaves the caches of other processes and the tokens issued before it right |
| Keys.FetchIsRun | iam-service/src/lib/jwt.ts:33-41 | a fetch that misses the cache is a run of the key system |
| Keys.FetchActiveIsRun | iam-service/src/lib/jwt.ts:43-51 | so is a fetch of any active key |
| Keys.RotationIsRun | iam-service/src/lib/jwt.ts:123-130 | so is a whole rotation, with rows and caches as the method leaves them |
| Keys.IssueIsRun | iam-service/src/lib/jwt.ts:66-91 | so are the two tokens of one issue under the cached active key |
| JwtLib.JwtService.FetchKey | iam-service/src/lib/jwt.ts:33-41 | returns the table's secret whether or not it was cached, fails exactly on an unknown id or an unanswered decryption of an uncached one, and is a run of the key system whatever other processes are doing |
| JwtLib.JwtService.FetchActiveKey | iam-service/src/lib/jwt.ts:43-51 | returns a key that was active when read, caches it in both places, fails exactly when it must read and cannot, and is a run of the key system |
| JwtLib.JwtService.IssueJwt | iam-service/src/lib/jwt.ts:66-91 | both tokens verify under the table's key of their `kid`, carry the same identity, each its own given id, and differ in lifetime; the issue is a run of the key system |
| JwtLib.JwtService.ValidateJwt | iam-service/src/lib/jwt.ts:93-109 | a token passes exactly when it decodes, the secret of its `kid` can be had and signed it, its `exp` is ahead, it has an id, and Redis answers and does not list that id, and then with its own payload; `kid_missing`, `invalid`, `jti_missing` and `revoked` each exactly when their test is the first to fail; with all calls answering the verdict is that of the key table without caches |
| JwtLib.JwtService.RotateKeys | iam-service/src/lib/jwt.ts:123-134 | if every call answers, the found active row and no other is retired, a new active row with the given secret follows, it is cached for five minutes and announced, and the cached active key is dropped; whichever call fails, all of this stops there, the caches stay right, and the call is a run of the key system |
| JwtLib.JwtService.RevokeToken | iam-service/src/lib/jwt.ts:136-139 | a write rejects an earlier token for good exactly when its lifetime reaches the token's `exp`, always when it is as long as the token's, and touches no other token's standing |
| Authz.ReachIsLeast | iam-service/src/middleware/authz.ts:28-35 | the names a subject belongs to are the least set that holds the subject and follows every grouping |
| Authz.EnforcerRefinesRule | iam-service/src/middleware/authz.ts:99-105 | with any groupings left behind and however they chain, the refilled enforcer allows exactly when some role of this token has a stored policy for path and method |
| Authz.DecisionsAre | iam-service/src/middleware/authz.ts:86-123 | for a verified token: a live cache entry decides; otherwise it passes exactly when some role has the row, every rule accepts and each needed call answers, `abac` means the role has it and some rule refuses, `rbac` anything else; what is cached, and for how long |
| Authz.CacheStaysBacked | iam-service/src/middleware/authz.ts:86-123 | every cached allow stays backed by an allowing evaluation sixty seconds before its expiry, under any requests and table edits |
| Authz.CachedAllowIsRecent | iam-service/src/middleware/authz.ts:88-97 | an allow served from the cache was fully evaluated, and allowed, less than sixty seconds before, for the same token id, method and path |
| Authz.CachedAllowIsFresh | iam-service/src/middleware/authz.ts:88-97 | with unchanged tables and one payload per token id, a cached allow is what a fresh evaluation would say |
| AuthzMiddleware.Middleware.LoadPolicies | iam-service/src/middleware/authz.ts:46-55 | afterwards the enforcer holds exactly the stored policies of these roles, and no new grouping |
| AuthzMiddleware.Middleware.AddGroupings | iam-service/src/middleware/authz.ts:102-104 | adds exactly the groupings of this subject with these roles |
| AuthzMiddleware.Middleware.CheckAbacRules | iam-service/src/middleware/authz.ts:57-65 | passes exactly when every stored rule accepts the attributes |
| AuthzMiddleware.Middleware.Authorize | iam-service/src/middleware/authz.ts:99-105 | the answer is the stateless rule's, whatever the enforcer held before, and is what the interleaved system answers at the end of the request's run |
| AuthzMiddleware.Middleware.Handle | iam-service/src/middleware/authz.ts:67-124 | `jwt_missing` and `jwt_invalid` exactly for a request without a token or with a rejected one; a verified one passes exactly when a live cache entry says so, or none is found and some role has the row, every rule accepts and each needed call answers; `cache`, `abac` and `rbac` name the cause of a denial; an evaluation is cached for sixty seconds, an exception as a denial; nothing depends on what the enforcer held; the handling is a run of the interleaved system |
| AuthzInterleaving.EnforceInterleavedIff | iam-service/src/middleware/authz.ts:99-118 | in any interleaving, with subjects and roles apart, `enforce` is true exactly when some policy now loaded is of a role some grouping now gives the subject |
| AuthzInterleaving.AllowIsBacked | iam-service/src/middleware/authz.ts:99-118 | an allow in any interleaving is backed by a row that stood in the table when some request read it and by a role some verified token of the same subject carried |
| AuthzInterleaving.AnswerIff | iam-service/src/middleware/authz.ts:99-105 | whichever request cleared last, the answer at `enforce` is an allow exactly when the additions since, with the groupings the clearing kept, hold a policy for path and method of a role they give this subject |
| AuthzInterleaving.UndisturbedIsExact | iam-service/src/middleware/authz.ts:99-105 | over any run from a request's reading to its `enforce`, with the table unedited: if nobody clears after it, it is never refused what the rule allows; if nobody else adds either, it gets exactly the rule's answer |
| AuthzInterleaving.CollisionRun | iam-service/src/middleware/authz.ts:46-55 | the eight events that lead from the initial state to the collision |
| AuthzInterleaving.CollisionRefuses | iam-service/src/middleware/authz.ts:46-55 | a run from the initial state, event by event, after which another request's clearing refuses a request the rule allows |
| AuthzCaching.CachedAllowIsBacked | iam-service/src/middleware/authz.ts:86-119 | with requests interleaved at their awaits, a cached allow was stored sixty seconds before it lapses by a request of the same token id, method and path that `enforce` allowed after a matching policy row was read from the table and its role verified for the same subject, and whose attributes all rules then accepted |
| AuthzCaching.LetThroughIsBacked | iam-service/src/middleware/authz.ts:86-119 | so whoever is let through either passed such an evaluation itself or hit an allow stored less than sixty seconds before by one that did |
| AuthzCaching.ServeIsRun | iam-service/src/middleware/authz.ts:67-124 | a request that nobody interrupts, whichever of its calls fail, is a run of this system that gives the answer and the cache of the functions for one request at a time |
| Orchestrator.StepKeepsInv | ai_service/kafka_orchestrator.py:44-137 | every step of either loop, every abort and every restart keeps order, accounting, outputs and queue bound |
| Orchestrator.OutputsAreTheImage | ai_service/kafka_orchestrator.py:50-95 | across any run a partition's committed records are the in-order image of its inputs up to the committed offset, minus exactly the lost ones, each with four aborted attempts and passed by a later commit |
| Orchestrator.ImageOffsets | ai_service/kafka_orchestrator.py:78-84 | that image holds exactly the offsets in range that are not lost, each with its own record, in increasing order |
| Orchestrator.AtMostOnceInOrder | ai_service/kafka_orchestrator.py:50-95 | each input yields at most one committed record, and a partition's records are committed in offset order |
| Orchestrator.CommittedNeverGoesBack | ai_service/kafka_orchestrator.py:78-84 | committed offsets never go back and committed records are never withdrawn |
| Pipeline.Routing | ai_service/pipeline.py:3-9 | a JSON object not marked bad goes to `alerts` as it is; bytes that are not JSON and bad objects go to the dead-letter topic, the first unchanged, the second with a fixed body, each with its own reason |
| Orchestrator.EveryRecordIsRouted | ai_service/kafka_orchestrator.py:54-77 | every committed record is the routing, spelled out, of the logged input at its source |
| Orchestrator.QueueBoundAndOrder | ai_service/kafka_orchestrator.py:104-136 | the queue never exceeds 10001, and every message taken is finished, in processing or queued, in arrival order, with one `task_done` per finished one |
| Orchestrator.PausedUntilRestart | ai_service/kafka_orchestrator.py:104-117 | once paused the consumer takes nothing until the process restarts |
| LostMessages.LostIff | ai_service/kafka_orchestrator.py:87-92 | a message is lost exactly when the run holds the abort of its fourth attempt and, before any restart, the commit of a later offset of its partition |
| LostMessages.AttemptsAreFailures | ai_service/kafka_orchestrator.py:87-95 | the attempt counter is the number of aborts since the message was taken, with no commit, restart or other message in between |
| LostMessages.LossRun | ai_service/kafka_orchestrator.py:87-95 | a run from an initial state that commits the second of two inputs and loses the first |
| LostMessages.StarvedRun | ai_service/kafka_orchestrator.py:104-117 | a run from an initial state with 10002 inputs to one with an empty queue and a paused consumer, after which, short of a restart, the last input is never taken |
| OrchestratorLoops.Aborts | ai_service/kafka_orchestrator.py:87-95 | counts the attempts that abort before the first that commits |
| OrchestratorLoops.SleptBound | ai_service/kafka_orchestrator.py:93-95 | the sleeps sum to 2, 6 or 14 seconds after one, two or more aborts |
| OrchestratorLoops.AttemptsAreARun | ai_service/kafka_orchestrator.py:50-95 | every way the four attempts can fail is a run of the system that ends in the same state |
| OrchestratorLoops.Service.ConsumeOne | ai_service/kafka_orchestrator.py:104-117 | appends the next message, pauses exactly above ten thousand, and is a run of the system |
| OrchestratorLoops.Service.ProcessKafkaMessage | ai_service/kafka_orchestrator.py:44-95 | commits record and offset together exactly when one of four attempts answers throughout, else changes neither; the record's topic, value and reason are spelled out; it sleeps 0, 2, 6 or 14 seconds |
| OrchestratorLoops.Service.ProcessOne | ai_service/kafka_orchestrator.py:128-136 | the first queued message is finished once whatever became of it, and the round is a run of the system |
| AlertEmitter.PublishedHasRowIff | ai_service/app/alert_emitter.py:86-127 | over every run of overlapping emits, crashes included: each published alert has its row in every state exactly when no emit that published had found a row which its inserter, still under way, went on to delete |
| AlertEmitter.CheckBeforeStep | ai_service/app/alert_emitter.py:115-125 | the same condition before each step: a delete is safe exactly when no emit that found its row has published, a commit exactly when the row it found still stands |
| AlertEmitter.PublishedHasRow | ai_service/app/alert_emitter.py:86-127 | if emits of one event never overlap, a published alert has its row in every state and no compensating delete removes it |
| AlertEmitter.RaceRun | ai_service/app/alert_emitter.py:120-125 | a run from the empty state, event by event, in which two overlapping emits of one event leave it published without a row |
| AlertEmitter.EmitIsEveryOutcome | ai_service/app/alert_emitter.py:86-127 | every run of one emit on its own, failing or crashing anywhere, leaves the stores in one of three ways, and in one of two unless a crash, an abort or the delete interrupts it |
| AlertEmitter.EmitOrphans | ai_service/app/alert_emitter.py:86-127 | exactly which rows without an alert an emit makes or heals |
| AlertEmitter.UninterruptedEmitsAgree | ai_service/app/alert_emitter.py:86-127 | after any uninterrupted emits, duplicates included, table and topic hold the same event ids |
| AlertEmitter.EmitsAgreeIff | ai_service/app/alert_emitter.py:86-127 | after any emits whatever, they agree exactly when every event whose row an interruption wrote was also emitted or had its row before |
| AlertEmitter.Emitter.Emit | ai_service/app/alert_emitter.py:72-127 | publishes exactly when begin, insert and publish answer on a producer without an open transaction; a row is added exactly when the publish answers too, or an abort or delete that fails leaves it behind, and no other row changes; it raises exactly when one of begin, abort or delete does, a failed abort blocks every later emit, and the call is a run of the system |
| Backoff.ExponentialBackoff | soar-service/src/utils/backoff.ts:8-23 | at most one call more than the retries, none after the first that succeeds, success exactly when the last call succeeds, and one wait between calls |
| Backoff.DelayAt | soar-service/src/utils/backoff.ts:19 | each wait is the base times a power of the factor, rounded halves up and then capped |
| Backoff.DelaysGrow | soar-service/src/utils/backoff.ts:19 | the waits never shrink and never exceed the cap |
| Backoff.TotalWaitBound | soar-service/src/utils/backoff.ts:19 | the waits sum to at most the capped and to at most the geometric bound, each rounding adding at most a half |
| Backoff.LoopWaitBound | soar-service/src/utils/backoff.ts:8-23 | both bounds, taken for all the retries, hold however many calls the loop makes |
| Backoff.EmitterWaits | soar-service/src/emitters/kafkaEmitter.ts:69 | with the emitter's settings the five waits are 200, 360, 648, 1166 and 2100 ms, 4474 ms in all |
| AuditEmitter.SameKeyIff | soar-service/src/emitters/kafkaEmitter.ts:43-48 | separator-free events share a message key exactly when they are of the same step of the same run at the same time |
| AuditEmitter.FirstConnectDecides | soar-service/src/emitters/kafkaEmitter.ts:35-41 | the first emit since the start, or since the last shutdown that disconnected, decides for all later ones: one rejected connect fails every emit until another shutdown |
| AuditEmitter.Emitter.Transact | soar-service/src/emitters/kafkaEmitter.ts:57-68 | a transaction leaves one committed record, the event as it is under the topic of its day and the hash of its run, step and time, or, aborted at any call, none |
| AuditEmitter.Emitter.Retry | soar-service/src/emitters/kafkaEmitter.ts:56-69 | of the six attempts at most one commits, the first that can, with that record, and the aborted ones leave nothing; the waits between them are the loop's |
| AuditEmitter.Emitter.EmitAction | soar-service/src/emitters/kafkaEmitter.ts:50-72 | returns normally exactly when connected and one of six attempts commits; then that record is committed, otherwise none; it waits at most 4474 ms |
| AuditEmitter.Emitter.WithAudit | soar-service/src/emitters/kafkaEmitter.ts:74-85 | the function runs once; a normal return adds one record, whose status is success, and a throw adds none of that status and at most one, with status failure; at most twelve transactions begin |
| Roles.PageAt | iam-service/src/routes/roles.ts:38-46 | a page shows the next rows up to the limit, and its `next` is the first row it does not show |
| Roles.ListRolesIs | iam-service/src/routes/roles.ts:24-54 | one request with any cursor: 400 exactly for a limit outside 1 to 100, 403 exactly for a valid limit without the permission, otherwise the rows beyond the cursor up to the limit, and the id of the first one not shown |
| Roles.WalkReturnsKept | iam-service/src/routes/roles.ts:35-53 | following `next` ends and returns, in order and once each, exactly the rows whose index modulo `limit + 1` is not `limit` |
| Roles.VisibleRoles | iam-service/src/routes/roles.ts:24-54 | that is all a permitted client with a valid limit sees; any other sees nothing |
| Roles.WalkIsCompleteIff | iam-service/src/routes/roles.ts:45-46 | the walk returns every row exactly when all rows fit on the first page |
| Roles.LastShownIsComplete | iam-service/src/routes/roles.ts:45-46 | with the last row shown as the cursor the same walk would return every row |
| Mfa.GrantsAreEarnedOnce | iam-service/src/routes/mfa.ts:80-146 | in any serial run each challenge yields at most one token, to its user, by its expiry, for a code accepted then |
| Mfa.OpenUntil | iam-service/src/routes/mfa.ts:92-126 | over any serial run, whatever other challenges are made or verified in between, a code is good for a challenge exactly when less than five minutes have passed since it was made, none of its own verifications has succeeded, and the code is accepted |
| Mfa.ClosedForever | iam-service/src/routes/mfa.ts:124-129 | a verified or lapsed challenge is refused for ever |
| Mfa.Plugin.EvaluateRisk | iam-service/src/routes/mfa.ts:80-107 | when the risk is 60 or more or the device unknown, creates row and marker with one five-minute lifetime and answers with the challenge; else changes nothing; every other challenge keeps its row and marker; the challenge can then be verified with an accepted code for exactly five minutes |
| Mfa.Plugin.VerifyCode | iam-service/src/routes/mfa.ts:119-146 | refuses exactly when the marker has lapsed or is missing, the row is missing, expired or verified, or the code is not accepted, and then changes nothing; otherwise marks this row before it drops this marker, touches no other challenge, and returns a token for the challenge's user only after both |
| MfaInterleaving.TokensAreEarned | iam-service/src/routes/mfa.ts:119-146 | however verifications overlap, each token goes to the challenge's user, for a code accepted by the challenge's expiry after its marker was found |
| MfaInterleaving.OneTokenIff | iam-service/src/routes/mfa.ts:119-146 | over every interleaved run, failures included: a challenge earns one token at most exactly when no verification that earned one read the row before another such one updated it, and updated it afterwards |
| MfaInterleaving.ClosedToNewcomers | iam-service/src/routes/mfa.ts:124-129 | once the row is verified, only verifications that had read it before can still earn a token |
| MfaInterleaving.EvaluateIsRun | iam-service/src/routes/mfa.ts:93-96 | making a challenge without interruption is a run of this system with the effect of the serial step |
| MfaInterleaving.VerifyIsRun | iam-service/src/routes/mfa.ts:119-146 | a verification that nobody interrupts, wherever it fails, is a run of this system that changes the stores, and earns a token, as the step for one request at a time does |
| MfaInterleaving.TwoTokensRun | iam-service/src/routes/mfa.ts:123-145 | a run, event by event, in which two verifications of one challenge with one code both earn a token |
| Ledger.JoinInjective | ledger-service/chaincode/ledger/src/ledger_contract.ts:13 | a separator-free run id and a timestamp can be told apart again after joining |
| Ledger.LedgerIsLastWriter | ledger-service/chaincode/ledger/src/ledger_contract.ts:8-16 | after any logs with separator-free run ids the entry of each pair is the last log of that pair |
| Ledger.KeysComeFromLogs | ledger-service/chaincode/ledger/src/ledger_contract.ts:8-16 | the ledger holds nothing but well-formed logs that were submitted, each under its own key |
| Ledger.VerifyAcceptsLastIff | ledger-service/chaincode/ledger/src/ledger_contract.ts:20-25 | verification accepts exactly the hash of the pair's last log, and fails exactly when there is none |
| Ledger.SharedEntryIff | ledger-service/chaincode/ledger/src/ledger_contract.ts:13 | two pairs share an entry exactly when their joined texts are equal |
| Ledger.LastWriterIff | ledger-service/chaincode/ledger/src/ledger_contract.ts:8-16 | after any logs whatever, every logged pair has its last log as its entry exactly when no two different logged pairs have the same joined text |
| Ledger.SeparatorFreeApart | ledger-service/chaincode/ledger/src/ledger_contract.ts:13 | logs whose run ids hold no separator never have two pairs with the same joined text |
| Ledger.SeparatorMatters | ledger-service/chaincode/ledger/src/ledger_contract.ts:13 | two concrete pairs, one with the separator in its run id, of which the second takes over the first's entry |
| Ledger.ResubmitIsIdempotent | ledger-service/src/fabricClient.ts:62-85 | any number of consecutive submits of one log equals one |
| Ledger.Contract.LogEvent | ledger-service/chaincode/ledger/src/ledger_contract.ts:8-16 | a log is refused, and changes nothing, exactly when its run id or timestamp is empty; any other becomes the entry under the hash of the two, joined, and no other entry changes |
| Ledger.Contract.VerifyHash | ledger-service/chaincode/ledger/src/ledger_contract.ts:20-25 | fails exactly for an unknown key; else says whether the provided hash is that of the stored text |
| Ledger.Contract.ExportCSV | ledger-service/chaincode/ledger/src/ledger_contract.ts:28-39 | one row per entry, in ascending key order, each with its key, timestamp, text and hash |
| Ledger.Contract.StateByRange | ledger-service/chaincode/ledger/src/ledger_contract.ts:29 | every key once, in ascending order |
| Ledger.LessIff | ledger-service/chaincode/ledger/src/ledger_contract.ts:29 | the key order of the range query is the lexicographic one: the lesser has ended, or has the smaller character, where the two first differ |
| Ledger.ExportIsLastLogs | ledger-service/chaincode/ledger/src/ledger_contract.ts:28-39 | for each logged pair exactly one exported row, with the text, timestamp and hash of the pair's last log |
| Ledger.RowsAreLogged | ledger-service/chaincode/ledger/src/ledger_contract.ts:28-39 | each exported row is that of one logged pair, and of no other row's |
| Ledger.Contract.SubmitWithRetry | ledger-service/src/fabricClient.ts:62-85 | at most three submits, retried only after transient errors, leave the ledger as after one if any was applied and unchanged otherwise |

## Left out

- Finality.RevocationIsFinal: is stated for runs in which no direct write cuts this token's own entry short once a path has written it, and its session does not open in a sweep of its own user; `Finality.OverwriteIsSafeIff`, `Finality.RejectedIffListed` and `Finality.UpdateIsSafeIff` say exactly what happens otherwise.
- Tokens made by `sign` (`iam-service/src/lib/jwt.ts:53-58`) carry no `exp`, and refresh tokens live 30 days; finality is stated for access tokens only.
- The columns `jti` and `jwt_id` of the sessions table are one column here, and `revoked_at` timestamps are not kept.
- One delivery of the revoker, and one `deleteSession` request, read one clock in the classes; the transition system lets time pass between any two of their statements.
- Advisory locks are per user; two users whose `hashtext` values collide also wait for each other, which only removes interleavings.
- Rows of `jwt_keys` are numbered so that an active row comes last at the start; a `kid` is that number, so equal ids for different rows do not occur.
- Kafka: one consumer and one producer per service, atomic transactions, a commit that throws commits nothing, and no rebalances or broker internals. An insert that throws writes nothing.
- Message values that are not UTF-8, or JSON but no object, and failing `abort_transaction` or `begin_transaction` calls, leave the orchestrator's transaction open; the orchestrator is modelled on well-formed values and answering aborts. In the alert emitter begins and aborts may raise.
- JSON is not parsed: an `Input`, a `Log` and a `Message` are what parsing yields, and equal texts yield equal values; headers and re-serialisation are reduced to topic, value and reason.
- Keys.OverlapIsHarmlessIff: speaks of the rows after one schedule of two rotations, which `Keys.OverlapRun` shows to be a run; `Keys.ActiveKeysCount` covers every run.
- `Emitter.Emit` is one call with no other under way; overlapping emits are in the transition system of `AlertEmitter` only, where an emit that finds a transaction open raises at once and changes nothing.
- Sending to `alerts_dlq` is counted as attempted; it swallows every error, so no more can be said.
- Audit events are their six named fields; the optional `details`, which `withAudit` drops, is not kept.
- Casbin: policies are a set, grouping is reflexive and transitive without its depth limit, and the matcher's `eval(r.obj)` clause is not modelled. JSON-logic is an arbitrary predicate.
- The interleaved theorems about an allow assume that no subject of a token is also the name of a role. That a cached allow equals a fresh evaluation (`Authz.CachedAllowIsFresh`) is about requests handled one after the other.
- Key material, KMS, signatures, one-time passwords and SHA-256 are abstract: a signature verifies under its own secret only, and the hash is injective where a lemma says so.
- Backoff delays are exact reals; floating-point error in powers of the factor is not modelled. The client's 50 ms retry pauses (`ledger-service/src/fabricClient.ts:70`) are not kept.
- The methods of `Mfa.Plugin` run one at a time and create row and marker together; overlapping verifications, and rows whose marker is never written, are in `MfaInterleaving`. Notifying the user of the code is not kept.
- `listSessions` pages by the same scheme as the roles listing, and role creation, update and deletion are plain row edits; they would only add easy members.
- Circuit breaker, HTTP routing, schema validation beyond the limit of the roles listing, metrics, logging, the dashboard, scoring, playbooks and deployment files.
