# Calcar: durability, single use and codecs

Calcar runs coding agents on a computer and lets a phone follow and steer them. Its promises are about
things that happen once and are not lost: an agent over SQLite numbers, trims and replays workflow events
and takes each phone input or approval at most once; a Go backend pairs devices over Postgres and Redis and
hands out revocable tokens; several small hand-written codecs sit in between. This project models those
parts in Dafny and proves what they promise.

How the project is laid out:

- `Prelude`, `Utf8`, `Decimal`, `Strings`: ordered maps, UTF-8 (strict and lossy), decimal text, the white
  space tests of Rust's `str`.
- `Json`, `JsonGrammar`, `JsonParser`: the printer and the byte-positioned parser as classes, each against a
  function. `JsonSyntax`: every way to spell a document, as trees that know nothing of the parser; `JsonTexts` and
  `JsonCovers` prove that the parser reads exactly those; `JsonRoundTrip`: what is printed is one of them.
  `Registry`: the sidecar file on top.
- `EventTypes`, `Ring`, `Storage`, `Replay`, `Outbox`: the event ring, the store as a class over its tables, a paging
  reader and the snapshot, the outbox with a relay that may crash.
- `Requests`, `SingleResolve`, `RepeatsAndDeadlines`, `Router`, `Permission`: the pending rows; every
  concurrent run of input calls, verdicts, sweeps, failures and crashes, one storage statement at a time; what
  a call about to run a statement can still come to; the router and the permission manager as classes.
- `Lifecycle`: the sole writer of workflow state, with torn calls.
- `Pairing`, `Tokens`: the two-store pairing protocol and the Redis tokens.
- `Lines`, `LateDrains`, `GenericLines`: incremental line assembly over capped sinks. The marker prefix is a parameter of
  `Lines`, so that one model stands for `claude.rs`, `codex.rs` and `opencode.rs`.
- `Quoting`, `Base64Url`, `Preimage`: Windows argument quoting (both copies are the same code), base64url, hash
  preimages.

What stands for what: a Rust `String` is a `string` of Unicode scalar values and its length in bytes is that
of its UTF-8 form; a `BTreeMap` is a sequence of entries in key order; a SQLite table is a map by its
primary key, or rows in key order; one SQL statement or transaction and one Redis command are one atomic
step, and so is a call that moves a workflow's state, whose callers take turns. The clock a call reads is a
parameter, and where order in time matters it never goes back. A child process is a source of growing
snapshots and one exit code. Random tokens are parameters that were never issued before. Whether a write
works, fails, or works while its answer is lost is a parameter too.

Results where the code and its description differ:

- The comment on `DecidePairingSession` (`backend/store/combined.go:115-118`) says that any Postgres failure
  stamps a consumed mark. The code does so only for a settled or expired row; the model follows the code
  (`Pairing.DeadMarkIff`, `Pairing.MismatchesCannotSpoil`).
- The router's note on two threads that both read Delivered (`agent/crates/calcar-workflow/src/router.rs:21-24`)
  does not happen: the conditional UPDATE lets one of them through (`SingleResolve.OneWinnerPerRow`). The call that
  inserted the row and lost it then fails with an error instead of answering duplicate.
- A caller can be told that a command is a repeat although it never started and nobody is working on it, in two
  ways. Its own INSERT fails, the row appears after its second UPDATE, and the router answers a repeat for any
  row the SELECT finds, a pending one included (`RepeatsAndDeadlines.RepeatInVain`). Or the row is settled, but by
  an approval request, which may name any row, an input's included
  (`agent/crates/calcar-connect/src/server.rs:197-206`, `RepeatsAndDeadlines.ApprovedInputNeverStarts`).
- A repeat answer is of a settled row exactly when the row was there at the call's second UPDATE, which it is
  whenever its claim made or met it (`RepeatsAndDeadlines.RepeatIsSettledIff`). It is sure to be of a row that the
  input route won exactly when it had been so won before that UPDATE; a call that made the row gives no repeat
  (`RepeatsAndDeadlines.RepeatIsOwnIff`). The stored payload tells: the router's is empty and no other route's is,
  so in every run an input is started, about to start or lost with its call, one of the three and once, exactly
  when its row is resolved with the empty payload (`SingleResolve.OneHandIffRouteWon`).
- Only the first UPDATE of a resolve looks at the deadline. The stamp it leaves is before the deadline,
  however the system goes on, exactly when the row is there at that UPDATE (`RepeatsAndDeadlines.StampInTimeIff`,
  with `LateWinPossible` for a row that is not). The row itself can be changed any time later: a call about to
  run its second UPDATE is sure not to change it late exactly when the row is already settled or has no deadline
  (`RepeatsAndDeadlines.MomentInTimeIff`, with `LateMomentPossible`).
- A crash can put the stored state more than one step ahead of the lifecycle log, one step per call that fails
  midway (`Lifecycle.LagPerCall`, `Lifecycle.TwoTornCalls`). It stays at most one ahead exactly when between two
  such calls on a workflow one that moves its state is answered Done (`Lifecycle.AtMostOneAhead`).
- The session id two streams share can depend on drain times; `Lines.SessionIsStableIff` says exactly when
  not.
- Outbox entries of one workflow leave in sequence order exactly when its clock stamps did not go back
  (`Outbox.OrderedIffClockKept`); when the clock goes back between two appends a drain can hand out the second
  one first (`Outbox.ClockBackReorders`).
- The generic adapter stops for good at its first finished drain (`GenericLines.StoppedForGood`). When the sink
  still grows after it, what it reported is the whole sink's lines exactly when the late bytes at most end the
  line it had cut (`GenericLines.EarlyFinishIff`). The marker adapters read on and flush at every finished drain:
  each that cuts a line makes one line more (`LateDrains.EarlyFlushIff`).
- The parser takes more than RFC 8259 and less: leading zeros, a missing side of the decimal point, a plus sign in
  the first place of a `\u` code and form feeds as white space are accepted, codes of surrogates are refused one by
  one, so a pair of them never makes a character (`JsonSyntax`, `JsonCovers.ParsesIff`).
- The bytes hashed for an approval context are shared by two contexts exactly when a text field holds a NUL
  (`Preimage.ContextUniqueIffClean`); a registry row with an empty field does not survive its file
  (`Registry.SaveLoad`).
- With different times to live on one device, a later short token can let the index expire before an older
  long one (`Tokens.IssueCoversIff`, `Tokens.ShorterTtlMissesToken`); revokes are complete exactly while every
  live token is covered (`Tokens.RevokeIsCompleteIff`).

## Model

| member | source | states |
|---|---|---|
| Ring.CutIsShortest | agent/crates/calcar-storage/src/lib.rs:436-490 | the trimmed prefix is the shortest that meets both budgets or leaves one row, and the newest row always survives |
| Ring.FitsIff | agent/crates/calcar-storage/src/lib.rs:436-445 | the budgets are 5000 events and 10 MiB |
| Ring.AppendTracks | agent/crates/calcar-storage/src/lib.rs:308-364 | an append to a ring that is the tail of its full history gets number n+1 and leaves such a ring again, within budget |
| Ring.Conservation | agent/crates/calcar-storage/src/lib.rs:308-364 | in every reachable ring the survivors are exactly the events appended as cut+1 to n, the cut is both the recorded boundary and the dropped count, each row is charged 64 bytes and its four texts, and at most 5000 events and 10 MiB are kept unless one event is left |
| Ring.PageOf | agent/crates/calcar-storage/src/lib.rs:368-382 | a page is the contiguous run of rows after the given number, as long as limit and rows allow |
| Storage.FindCutoff | agent/crates/calcar-storage/src/lib.rs:446-473 | the loop over the oldest rows with two deficits stops at the shortest cut, and says nothing to cut otherwise |
| Storage.Storage.TrimRing | agent/crates/calcar-storage/src/lib.rs:436-490 | delete plus upsert leaves exactly the trimmed ring and touches no other workflow |
| Storage.Storage.AppendEvent | agent/crates/calcar-storage/src/lib.rs:308-364 | succeeds exactly for known workflows; the whole new store; the event gets the next number of the full history; every ring keeps tracking its history and the outbox holds one row per number |
| Storage.Storage.CreateWorkflow | agent/crates/calcar-storage/src/lib.rs:220-249 | a duplicate id fails and changes nothing, otherwise one running row is added |
| Storage.Storage.SetWorkflowState | agent/crates/calcar-storage/src/lib.rs:274-299 | called by one writer at a time, succeeds exactly for storable targets of live workflows; the error of each refusal; nothing changes on refusal |
| Storage.Storage.OutboxDrain | agent/crates/calcar-storage/src/lib.rs:505-518 | hands out the first pending entries in (stamp, workflow, number) order, all of them if the limit allows |
| Storage.Storage.OutboxMarkPublished | agent/crates/calcar-storage/src/lib.rs:520-530 | marks the listed pending entries only; the answer is exactly by how much the pending count fell |
| Storage.MarkAllMeans | agent/crates/calcar-storage/src/lib.rs:520-530 | marking stamps exactly the pending entries of the list and leaves every other row as it is |
| Storage.Storage.UpsertSessionBinding | agent/crates/calcar-storage/src/lib.rs:546-562 | the binding is replaced or added and nothing else changes |
| Storage.Storage.CreatePendingRequest | agent/crates/calcar-storage/src/lib.rs:578-594 | succeeds exactly for a known workflow and an unused id; which error otherwise |
| Storage.Storage.ResolvePendingRequest | agent/crates/calcar-storage/src/lib.rs:599-635 | the two UPDATEs and the SELECT compute the resolve and its answer |
| Storage.Storage.ExpirePendingRequests | agent/crates/calcar-storage/src/lib.rs:638-644 | flips exactly the overdue pending rows and counts them |
| Storage.StatsConserve | agent/crates/calcar-storage/src/lib.rs:384-415 | in every valid store count and bytes are those of the kept rows, count plus dropped is the number of appends, the boundary is the dropped count, oldest and newest frame the survivors |
| Storage.AppendIsRelayStep | agent/crates/calcar-storage/src/lib.rs:324-353 | on a consistent store an append changes the outbox as a step of the relay's table does, with the first number the workflow has not used |
| Storage.OutboxRowPerAppend | agent/crates/calcar-storage/src/lib.rs:324-353 | a workflow has exactly as many outbox rows as appends |
| Replay.PageIs | agent/crates/calcar-storage/src/lib.rs:368-382 | in every reachable store a page is exactly the events numbered from just past the asked number or the cut |
| Replay.PagingIsFaithful | agent/crates/calcar-storage/src/lib.rs:366-382 | pages interleaved with any appends and trims: no duplicate, no reordering, every event as appended, only numbers at or below the cut skipped |
| Replay.ShortPageIsCaughtUp | agent/crates/calcar-storage/src/lib.rs:366-382 | after a page shorter than its limit the reader holds the newest number |
| Replay.SnapshotIsNewest | agent/crates/calcar-connect/src/catalog.rs:239-253 | one read of 5500 rows yields the true high-water mark and exactly the newest min(count, 500) events |
| Outbox.Drain | agent/crates/calcar-storage/src/lib.rs:505-518 | the batch is the ordered prefix of the pending entries |
| Outbox.OrderedIffClockKept | agent/crates/calcar-storage/src/lib.rs:505-518 | drains give a workflow's entries in sequence order for every limit if and only if its pending stamps never go back |
| Outbox.RelayLosesNothing | agent/crates/calcar-storage/src/lib.rs:502-538 | over every run of appends, drains, hand-overs, marks and crashes with a deduping consumer, whatever the clock does: nothing lost, nothing taken twice, and pending plus published is the number of appends |
| Outbox.RelayKeepsOrder | agent/crates/calcar-storage/src/lib.rs:502-538 | over every such run whose clock does not go back each workflow is taken as 1, 2, 3 |
| Outbox.ClockBackReorders | agent/crates/calcar-storage/src/lib.rs:505-518 | for any two stamps of which the second is earlier, a run of the relay that takes event 2 first |
| Requests.ResolveMeans | agent/crates/calcar-storage/src/lib.rs:599-635 | applied exactly for a pending row before its deadline, with the payload and stamp written; each other answer characterised; no other row touched |
| Requests.ResolveEvolves | agent/crates/calcar-storage/src/lib.rs:599-635 | a resolve drops no row, keeps what rows were created with and never touches a settled row |
| Requests.SweepMeans | agent/crates/calcar-storage/src/lib.rs:638-644 | exactly the pending rows whose deadline has come become expired, and no other row or field changes |
| SingleResolve.AcceptedIff | agent/crates/calcar-connect/src/exec.rs:90-97 | accepted are exactly the ids of one to 128 characters out of 64: letters, digits, hyphen, underscore |
| SingleResolve.StorageKeyInjective | agent/crates/calcar-workflow/src/router.rs:155-157 | accepted ids never share a storage key across workflows, and an id with a colon always shares one |
| SingleResolve.RowsOnlySettle | agent/crates/calcar-storage/src/lib.rs:599-644 | over every interleaving rows only go from pending to resolved or expired and are then frozen |
| SingleResolve.OneWinnerPerRow | agent/crates/calcar-storage/src/lib.rs:599-635 | at most one call per row succeeds whatever its route, the row keeps that call's payload and stamp, no stamp is later than the moment the row changed, and the stamp is before the deadline if the call found the row at its first UPDATE |
| SingleResolve.AtMostOnce | agent/crates/calcar-connect/src/server.rs:298-361 | a command is started at most once per workflow and input id over every run, and recorded at most once |
| SingleResolve.OneHandIffRouteWon | agent/crates/calcar-workflow/src/router.rs:79-121 | over every run, whatever any route does: an accepted input is started, about to start, or lost between confirm and start, exactly one of the three and once, if its row is resolved with the router's empty payload, and none of them otherwise |
| SingleResolve.ExactlyOnce | agent/crates/calcar-workflow/src/router.rs:79-121 | when a caller was told delivered, or repeat by a call whose second UPDATE met the row, and no call stands or died between confirm and start: the row is settled, and the command has started exactly once if its payload is the empty one and never otherwise; delivered means once |
| RepeatsAndDeadlines.RepeatIsSettledIff | agent/crates/calcar-storage/src/lib.rs:611-635 | from every reachable state with an input call about to run its second UPDATE: whatever comes next, the repeat it may answer is of a settled row, if and only if the row is there; a claim that made or met the row suffices |
| RepeatsAndDeadlines.RepeatIsOwnIff | agent/crates/calcar-workflow/src/router.rs:98-121 | from every such state: whatever comes next, the repeat it may answer is of a row that the input route won, if and only if the row is already so won or the call made the row itself, and then it answers no repeat |
| RepeatsAndDeadlines.ApprovedInputNeverStarts | agent/crates/calcar-connect/src/server.rs:197-206 | for every accepted input, a run after which a retry that met the row was told repeat, no call is left, nothing was lost, and the command never starts because an approval request has won its row |
| RepeatsAndDeadlines.RepeatInVain | agent/crates/calcar-storage/src/lib.rs:620-633 | for every accepted input, a run after which a caller was told repeat, no call is left and the command never started |
| RepeatsAndDeadlines.StampInTimeIff | agent/crates/calcar-storage/src/lib.rs:604-618 | a call about to run its first UPDATE wins with a stamp before the deadline, whatever comes next, if and only if its row is there |
| RepeatsAndDeadlines.MomentInTimeIff | agent/crates/calcar-storage/src/lib.rs:611-618 | a call about to run its second UPDATE changes the row before the deadline, whatever comes next, if and only if the row is there and settled or without a deadline |
| RepeatsAndDeadlines.LateWinPossible | agent/crates/calcar-storage/src/lib.rs:599-618 | for any deadline, a run in which a request with no time to live appears between a call's two UPDATEs and is won with a stamp at its deadline |
| RepeatsAndDeadlines.LateMomentPossible | agent/crates/calcar-storage/src/lib.rs:604-618 | for any deadline and any later moment, a run in which a call that saw the row in time changes it at that moment |
| SingleResolve.DeliveredMeansDone | agent/crates/calcar-connect/src/server.rs:328-371 | the delivered answer implies the command started and both records were appended |
| SingleResolve.GateKeepsKeys | agent/crates/calcar-connect/src/server.rs:263-303 | over every run an input that started, whose row was won by the input route or is an input row, is of a known workflow whose provider is the generic one, and so is every row of kind input |
| RepeatsAndDeadlines.UndisturbedInput | agent/crates/calcar-connect/src/server.rs:263-371 | an accepted input passes the gate exactly when its workflow is known and generic; with an unused key and nobody interfering it is started once, recorded twice, answered delivered, and its row is resolved with the empty payload; at a closed gate nothing is left |
| Router.AttemptMeans | agent/crates/calcar-workflow/src/router.rs:79-121 | exactly when a delivery wins, repeats or fails; the row is settled afterwards and can never be won again; no other row is touched |
| Router.AttemptIsThreeMoves | agent/crates/calcar-workflow/src/router.rs:98-121 | an uninterrupted delivery is the claim and the two UPDATEs of the concurrent system |
| Router.InputRouter.Deliver | agent/crates/calcar-workflow/src/router.rs:79-121 | the claim and resolve calls do what one attempt says, empty ids are refused, and both counters follow the outcome |
| Router.InputRouter.ForgetWorkflow | agent/crates/calcar-workflow/src/router.rs:145-150 | drops and returns one workflow's counters |
| Permission.AgreementIsStable | agent/crates/calcar-adapters/src/permission.rs:17-24 | the map agrees with the rows after anything else the store can do |
| Permission.AwaitingIsExact | agent/crates/calcar-adapters/src/permission.rs:188-203 | the list is exactly the answerable requests if and only if no other route resolved an open one |
| Permission.VerdictMeans | agent/crates/calcar-adapters/src/permission.rs:121-177 | which verdict is applied, duplicate, overdue or unknown; an applied one leaves "allow:" or "reject:" and the recorded summary, whichever was decided; a wrong device changes nothing |
| Permission.MeansIff | agent/crates/calcar-adapters/src/permission.rs:132-147 | an id means a request if it is its key, or, with no such key, the bare id of this request alone |
| Permission.FirstVerdictStands | agent/crates/calcar-adapters/src/permission.rs:11-13 | after an applied verdict the same device always hears duplicate, others unknown, and the row goes on saying what was decided about which summary |
| Permission.ListIsExactInEveryRun | agent/crates/calcar-adapters/src/permission.rs:80-203 | over every run with the manager as sole resolver of its rows the map agrees and the list is exact |
| Permission.PermissionManager.Request | agent/crates/calcar-adapters/src/permission.rs:80-117 | exactly when a request is recorded, row and binding together under workflow and id joined by a colon, with the deadline now plus ttl unless that saturates; which error otherwise |
| Permission.PermissionManager.Resolve | agent/crates/calcar-adapters/src/permission.rs:121-177 | a verdict acts on the entry the id means, and an id that means none or several changes nothing; when applied, the bound device's answer, allow or reject with the recorded summary, is what the row keeps |
| Permission.PermissionManager.SweepExpired | agent/crates/calcar-adapters/src/permission.rs:181-184 | flips and counts the overdue rows and keeps the agreement |
| Permission.PermissionManager.PendingFor | agent/crates/calcar-adapters/src/permission.rs:188-203 | the sorted list of awaiting ids without repeats |
| Lifecycle.WorkflowManager.CreateWorkflow | agent/crates/calcar-workflow/src/lifecycle.rs:83-118 | exactly when creation succeeds or is refused, and the store after it, also when a write fails midway |
| Lifecycle.WorkflowManager.Transition | agent/crates/calcar-workflow/src/lifecycle.rs:126-142 | exactly which calls move state, which error otherwise, and the store with or without the event |
| Lifecycle.WorkflowManager.TransitionOnDisconnect | agent/crates/calcar-workflow/src/lifecycle.rs:148-160 | a move to completed is refused and changes nothing, the rest is a transition |
| Lifecycle.WorkflowManager.Reconcile | agent/crates/calcar-workflow/src/lifecycle.rs:214-263 | the decision for each stored state and binding, and the only store change |
| Lifecycle.CreationMeans | agent/crates/calcar-workflow/src/lifecycle.rs:83-118 | from any state: when a creation is admitted, the row, the binding and the event it leaves, field by field, and when it answers Done |
| Lifecycle.MoveMeans | agent/crates/calcar-workflow/src/lifecycle.rs:126-160 | from any state: which transitions move the state, that only state and stamp change, and the event of each target state with its type, id, reason and session |
| Lifecycle.RecoveryMeans | agent/crates/calcar-workflow/src/lifecycle.rs:214-263 | from any state: recovery fails exactly a live workflow without a binding, and the event says so |
| Lifecycle.RecoveryAnswers | agent/crates/calcar-workflow/src/lifecycle.rs:214-263 | what recovery answers: the state of an ended workflow, the stored binding of a bound one, a clean failure of any other |
| Lifecycle.HistoryMatchesWrites | agent/crates/calcar-workflow/src/lifecycle.rs:265-297 | over every run only storable states are stored, and the lifecycle events of the full history are exactly the recorded state writes in order |
| Lifecycle.LastEventTells | agent/crates/calcar-workflow/src/lifecycle.rs:265-297 | the last lifecycle event is that of the state a known number of torn writes before the stored one, and equals the stored one's exactly when the states are equal |
| Lifecycle.TwoTornCalls | agent/crates/calcar-workflow/src/lifecycle.rs:126-142 | a run of three calls whose stored state is two steps ahead of the log |
| Lifecycle.LagPerCall | agent/crates/calcar-workflow/src/lifecycle.rs:265-297 | in every run a call that moves a workflow's state and is answered Done closes the distance between state and log, one that fails midway adds a step, any other leaves it |
| Lifecycle.AtMostOneAhead | agent/crates/calcar-workflow/src/lifecycle.rs:126-142 | a run keeps the stored state at most one step ahead of the log in every prefix if and only if between any two calls that failed midway one that moves the state was answered Done |
| Lifecycle.TerminalIsFinal | agent/crates/calcar-storage/src/lib.rs:285-293 | a terminal row is unchanged by any later calls |
| Lifecycle.ProjectionIsHonest | agent/crates/calcar-workflow/src/lifecycle.rs:182-207 | in every run a row projects to itself exactly when terminal and to disconnected otherwise, which is never stored |
| Lifecycle.ReconcileSettles | agent/crates/calcar-workflow/src/lifecycle.rs:214-263 | recovery leaves a workflow terminal or bound, is idempotent, and repeats a reattach word for word |
| Lifecycle.ReattachCounts | agent/crates/calcar-workflow/src/lifecycle.rs:233-242 | last_seq is the number of all appends and minus replayed_events gives the cut |
| Pairing.OneGrant | backend/store/postgres/postgres.go:260-377 | over every interleaving with failures, lost answers, crashes and key loss: at most one grant, approved exactly when it exists, the granted key is the recorded join key, at most one join recorded |
| Pairing.OneDecision | backend/store/combined.go:119-147 | at most one decision returns success, and the audit row and the grant table agree with it |
| Pairing.RedisFollowsPostgres | backend/store/combined.go:80-147 | a Redis approved or rejected, or a reported approved, rejected or expired, is what Postgres says |
| Pairing.SettledIsFrozen | backend/store/postgres/postgres.go:210-377 | a settled audit row, a recorded join and the expiry never change again |
| Pairing.MismatchChangesNothing | backend/store/postgres/postgres.go:334-344 | a key mismatch or an approval without a join changes neither store |
| Pairing.MismatchesCannotSpoil | backend/store/combined.go:119-147 | from every reachable state with an open session and a matching approval about to start: however mismatched approvals, key loss, crashes of others and time interleave with its steps, they change nothing durable and its third step returns the only grant |
| Pairing.DeadMarkIff | backend/store/combined.go:130-138 | a decision goes on to kill the live entry exactly when the row is there, settled or late, and Postgres's answer came back |
| Pairing.UndisturbedDecision | backend/store/combined.go:119-147 | alone, a decision succeeds in both stores exactly when live entry, row, expiry and key allow it |
| Pairing.UndisturbedJoin | backend/store/combined.go:91-113 | alone, a join is recorded, key as key and request id as request id, in both stores, exactly when both are filled and the live entry and the row are open; refused by the entry it changes nothing, refused by the row it closes the entry |
| Pairing.UndisturbedCreate | backend/store/combined.go:67-75 | alone, a create makes the pending row with its expiry and the live entry in whole seconds, unless either is there or the time is over |
| Pairing.UndisturbedRead | backend/store/combined.go:80-89 | alone, a read reports the live entry's status or, without an entry, the row's, which it expires first if it is overdue |
| Pairing.JoinsAreCallers | backend/store/postgres/postgres.go:260-300 | over every run the recorded key and request id are those of one join that a caller began, a grant's key is such a key, and so is what the live entry holds |
| Tokens.IssueCoversIff | backend/store/redis/redis.go:377-399 | an issue keeps every live token in a long enough index exactly when the ttl plus the hour reaches the older tokens |
| Tokens.RevokeIsComplete | backend/store/redis/redis.go:415-437 | with coverage, after a revoke no token of the device works now or later |
| Tokens.RevokeIsCompleteIff | backend/store/redis/redis.go:415-437 | no revoke of any device, now or later, misses a live token if and only if every live token is in an index that lives as long |
| Tokens.RevokeTouchesNoOther | backend/store/redis/redis.go:415-437 | a revoke leaves all other devices' tokens as they are |
| Tokens.IssueMeans | backend/store/redis/redis.go:377-399 | an issued token resolves to its device and user for exactly its time to live, joins the live members in an index that ends an hour later, and no other token is touched |
| Tokens.ConsumeMeans | backend/store/redis/redis.go:472-501 | a token is exchanged exactly when it is live and of this device; the answer is its user, it is gone and no other is |
| Tokens.RevokeAlwaysComplete | backend/store/redis/redis.go:377-465 | with one ttl per kind coverage holds in every run, so a revoke leaves no access or refresh token of the device usable |
| Tokens.ConsumedOnce | backend/store/redis/redis.go:472-501 | a refresh token is consumed at most once over every run, and a device mismatch consumes nothing |
| Tokens.ShorterTtlMissesToken | backend/store/redis/redis.go:377-399 | a shorter second ttl leaves a live token outside a revoke |
| Tokens.TokenStore.IssueAccessToken | backend/store/redis/redis.go:377-399 | refused for empty ids or a ttl that is not positive, else the whole new shelf, also if the index expiry fails |
| Tokens.TokenStore.IssueRefreshToken | backend/store/redis/redis.go:442-465 | the same on the refresh shelf only |
| Tokens.TokenStore.ConsumeRefreshToken | backend/store/redis/redis.go:472-501 | the script's answer and the new shelf, nothing changed on a refusal |
| Tokens.TokenStore.RevokeDeviceTokens | backend/store/redis/redis.go:415-437 | both shelves lose the device's members and index |
| Lines.CappedSink.Push | agent/crates/calcar-pty/src/plain.rs:259-266 | whatever the chunks, the buffer is the first cap bytes of the stream and truncated says if there were more |
| Lines.SplitResumes | agent/crates/calcar-adapters/src/claude.rs:212-242 | splitting a stream piece by piece with the remainder carried over equals splitting it once |
| Lines.LateBytes | agent/crates/calcar-adapters/src/claude.rs:231-238 | flushing a fragment and reading on gives the lines of the whole exactly when nothing follows or nothing was cut |
| LateDrains.EarlyFlushIff | agent/crates/calcar-adapters/src/claude.rs:212-242 | for any drains of sinks that may go on growing after the child is done: each stream's lines are those of one parse of all it came to hold if and only if no finished drain cut a line, and each that did makes exactly one line more |
| Lines.DocumentedGrammar | agent/crates/calcar-adapters/src/claude.rs:39-56 | each documented marker line gives the documented event or session |
| Lines.LineEndsDoNotMatter | agent/crates/calcar-adapters/src/claude.rs:239-241 | carriage returns at the end of a line, however many, leave its effect as it is |
| Lines.Meaning | agent/crates/calcar-adapters/src/claude.rs:167-208 | a line yields at most one event, and a session only without one and never empty |
| Lines.GrammarOf | agent/crates/calcar-adapters/src/claude.rs:158-208 | how a line is split into prefix, verb and payload, and that other lines mean nothing |
| Lines.Consume | agent/crates/calcar-adapters/src/claude.rs:212-242 | the byte loop yields the events and session of exactly the lines completed, and holds back the rest |
| Lines.Adapter.Drain | agent/crates/calcar-adapters/src/claude.rs:320-363 | events, session and cursors of one drain over both streams, closing event included |
| Lines.DrainsEqualOneParse | agent/crates/calcar-adapters/src/claude.rs:320-363 | for any drain times whose first finished drain sees full sinks: per-stream lines and events are those of one parse, and one closing event |
| Lines.ClosingTells | agent/crates/calcar-adapters/src/claude.rs:344-361 | in every schedule the one closing event is stopped, completed with "exit 0", or an error with the exit code, by what the first drain that found the child done saw |
| Lines.OneDrainSays | agent/crates/calcar-adapters/src/claude.rs:320-363 | one drain of a finished child reports stdout's events, then stderr's, then the closing one |
| Lines.RaceDisagrees | agent/crates/calcar-adapters/src/claude.rs:328-343 | two racing session markers have a schedule whose session is not that of one parse |
| Lines.SessionIsStableIff | agent/crates/calcar-adapters/src/claude.rs:328-343 | every schedule's session is that of one parse if and only if the streams do not race |
| GenericLines.LinesOfSink | agent/crates/calcar-adapters/src/generic.rs:163-164 | lines of the lossily decoded sink are the decoded lines of its bytes |
| GenericLines.GenericAdapter.Drain | agent/crates/calcar-adapters/src/generic.rs:148-192 | what one drain reports and the counters it leaves |
| GenericLines.EveryLineOnce | agent/crates/calcar-adapters/src/generic.rs:148-192 | for any drain times whose first finished drain sees the full sink, all that is reported is: the start, each stdout line exactly once and in order, stderr as one error if there is any, and the exit code, each under its event type |
| GenericLines.StoppedForGood | agent/crates/calcar-adapters/src/generic.rs:148-192 | nothing is reported after the first drain that saw the exit |
| GenericLines.EarlyFinishIff | agent/crates/calcar-adapters/src/generic.rs:148-192 | with bytes that come after that drain, the lines reported are those of the whole sink if and only if the late bytes at most end the line it had cut |
| JsonCovers.ParsesIff | agent/crates/calcar-connect/src/json.rs:135-351 | a text is accepted, as a given value, if and only if it spells a document of that value nested at most 64 levels, with any of the five white space characters around and between its tokens and each string character, number and field spelled in any of the ways written down in `JsonSyntax` |
| JsonCovers.LastKeyStays | agent/crates/calcar-connect/src/json.rs:197-230 | of several fields with one key the last one gives the value |
| JsonTexts.TextParses | agent/crates/calcar-connect/src/json.rs:135-351 | every such document parses to what it means up to 64 levels and is refused beyond |
| JsonTexts.SpelledString | agent/crates/calcar-connect/src/json.rs:257-311 | a string however spelled, raw, by letter or by code in either case, reads as its characters wherever it stands |
| JsonCovers.Skipped | agent/crates/calcar-connect/src/json.rs:153-157 | what is skipped is the longest run of space, tab, line feed, form feed and carriage return, and nothing else |
| JsonRoundTrip.PlainIs | agent/crates/calcar-connect/src/json.rs:59-120 | what is printed is the document without white space in which a string character is escaped by letter for quote, backslash, line feed, carriage return and tab, by code for the other controls, and is raw otherwise |
| JsonRoundTrip.RenderParse | agent/crates/calcar-connect/src/json.rs:59-351 | parsing a rendered float-free value gives it back exactly up to 64 levels and is refused beyond |
| JsonRoundTrip.QuotedRoundTrip | agent/crates/calcar-connect/src/json.rs:104-120 | a printed string reads back as itself wherever it stands |
| JsonRoundTrip.IntRoundTrip | agent/crates/calcar-connect/src/json.rs:313-351 | a printed integer reads back as itself before any delimiter |
| JsonRoundTrip.RenderInjective | agent/crates/calcar-connect/src/json.rs:59-100 | different readable values print differently |
| JsonRoundTrip.AcceptedIsCanonical | agent/crates/calcar-connect/src/json.rs:135-351 | whatever is accepted has ordered unique keys and at most 64 levels, and reprints to itself when float-free |
| Json.Output.WriteString | agent/crates/calcar-connect/src/json.rs:104-120 | the escaping loop appends exactly the quoted text |
| Json.Output.WriteValue | agent/crates/calcar-connect/src/json.rs:65-100 | the recursive writer appends exactly the rendering |
| JsonParser.Parser.SkipWs | agent/crates/calcar-connect/src/json.rs:153-157 | the cursor stops at the first byte that is not white space, or at the end |
| JsonParser.Parser.Lit | agent/crates/calcar-connect/src/json.rs:163-170 | advances over the word exactly when it stands there |
| JsonParser.Parser.Object | agent/crates/calcar-connect/src/json.rs:197-230 | the entry loop answers as the grammar does, a repeated key replacing its entry |
| JsonParser.Parser.Array | agent/crates/calcar-connect/src/json.rs:232-255 | the item loop answers as the grammar does |
| JsonParser.Parser.Number | agent/crates/calcar-connect/src/json.rs:313-351 | the cursor loop over a number answers as the grammar does and stops where it stops |
| JsonParser.Parser.String | agent/crates/calcar-connect/src/json.rs:257-300 | the escape loop answers as the grammar does, never past the end |
| JsonParser.Parser.Value | agent/crates/calcar-connect/src/json.rs:172-195 | the recursive descent terminates on every input and answers as the grammar does |
| JsonParser.ParseText | agent/crates/calcar-connect/src/json.rs:135-145 | a whole document is accepted exactly when the grammar accepts it with only white space left |
| Registry.SaveLoad | agent/crates/calcar-connect/src/catalog.rs:75-139 | saving then loading gives the registry back exactly when no recorded field is empty |
| Registry.FileSays | agent/crates/calcar-connect/src/catalog.rs:121-139 | the file is one JSON object with the ids in order under "workflows" and the rows in order under "approvals", each with its three fields |
| Registry.ReadIdsMeans | agent/crates/calcar-connect/src/catalog.rs:90-98 | of any list of values the ids read are the non-empty strings, as an ordered set |
| Registry.ReadRowMeans | agent/crates/calcar-connect/src/catalog.rs:99-115 | exactly which values are rows and as what, a missing or empty resolution reading as approved |
| Registry.RetainInOrder | agent/crates/calcar-connect/src/catalog.rs:147-151 | recording keeps the other rows in their order |
| Registry.RunSurvivesRestart | agent/crates/calcar-connect/src/catalog.rs:141-151 | over every run approval ids stay distinct and restarts change nothing |
| Registry.Store.TouchWorkflow | agent/crates/calcar-connect/src/catalog.rs:141-145 | an id that is not empty is in the set afterwards, every other id is in it exactly when it was before, and the set stays ordered; an empty one changes nothing |
| Registry.Store.FromParsed | agent/crates/calcar-connect/src/catalog.rs:84-118 | the two loops keep exactly the usable ids and rows, in order |
| Registry.Store.LoadText | agent/crates/calcar-connect/src/catalog.rs:75-118 | any text loads, a blank or broken one as empty |
| Registry.Store.Save | agent/crates/calcar-connect/src/catalog.rs:121-139 | what is written to the file |
| Registry.Store.RecordApproval | agent/crates/calcar-connect/src/catalog.rs:147-151 | one row per approval id, the newest last |
| Quoting.QuoteArg | agent/crates/calcar-pty/src/lib.rs:79-111 | the backslash-counting loop produces the quoted form |
| Quoting.BareIff | agent/crates/calcar-pty/src/lib.rs:79-82 | an argument is left as it is exactly when it is not empty and holds no space, tab or quote; any other is put between quotes |
| Quoting.CommandLine | agent/crates/calcar-pty/src/lib.rs:66-77 | refused exactly for an empty list, else the joined quoted arguments |
| Quoting.OneSpace | agent/crates/calcar-pty/src/lib.rs:66-77 | exactly one space stands between any two neighbouring arguments |
| Quoting.SplitJoined | agent/crates/calcar-pty/src/lib.rs:66-111 | splitting the command line by the documented Microsoft rules gives back every argument list |
| Quoting.JoinedInjective | agent/crates/calcar-pty/src/plain.rs:198-240 | no two argument lists share a command line |
| Base64Url.Encode | backend/ws/hub.go:109-126 | the loop with a never-masked wrapping accumulator emits the unpadded base64url text of sections 3.2 and 5 of RFC 4648, on 32- and 64-bit words |
| Base64Url.SameBits | backend/ws/hub.go:109-126 | four sextets hold the 24 bits of three bytes, highest first |
| Base64Url.DecodeEncoded | backend/ws/hub.go:109-126 | every byte string decodes back from its text |
| Base64Url.EncodeDecoded | backend/ws/hub.go:109-126 | the decoder accepts only texts the encoder produces |
| Base64Url.EncodedLength | backend/ws/hub.go:109-126 | the text has the least number of symbols, no padding |
| Preimage.ContextDetermined | backend/trust/trust.go:111-126 | the hashed bytes determine all five fields when the last three texts are NUL-free |
| Preimage.ContextLayout | backend/trust/trust.go:111-122 | where each of the five fields stands in the hashed bytes |
| Preimage.ContextUniqueIffClean | backend/trust/trust.go:111-126 | a context shares its bytes with no other exactly when none of its texts holds a NUL |
| Preimage.GrantDetermined | backend/store/postgres/postgres.go:382-390 | for equally long keys and NUL-free sessions the hashed bytes determine key, session and granter |
| Preimage.GrantLayout | backend/store/postgres/postgres.go:382-389 | where key, session and granter stand in the hashed bytes |
| Preimage.GrantUniqueIffClean | backend/store/postgres/postgres.go:382-390 | among equally long keys a grant's bytes are its own exactly when neither id holds a NUL |

## Left out

- SHA-256 and Ed25519: properties are about the bytes fed to them.
- Floats in JSON: a float is its accepted literal; its value and the way floats are printed are not modelled, so
  they are outside the round trip.
- Splitting the program name `argv[0]`, which Windows reads by a simpler rule; environment blocks; ConPTY, job
  objects, threads and processes, which are foreign.
- HTTP routing, request parsing and percent decoding in `server.rs`, WebSockets, heartbeats, push, presence,
  configuration, generated protobuf and the mobile app.
- Migrations and SQL itself: tables carry the keys the code relies on.
- The integer width of sequence numbers and counters: 64 bits are not exhausted.
- `calcar_events::now_millis` truncation and clocks that differ between machines.
- `exec::write_tail` and `tail_bytes`, `SeenIDs`, `ApprovalRegistry` and trust sessions, attention and replay
  keys, challenges, the in-memory development store, `SessionManager` and pass-through methods: smaller
  members that would add nothing harder.
- TTL commands inside the pairing steps: losing the Redis hash at any moment covers whatever they do.
- `parse_line` pushes into vectors; the model returns what one line adds, and `Lines.Feed` does the pushing.
- Lines.DrainsEqualOneParse: does not cover a first finished drain that sees a partial sink; `LateDrains.EarlyFlushIff`
  says exactly when that still gives the same lines.
- GenericLines.EveryLineOnce: does not cover it either; `GenericLines.EarlyFinishIff` says what is reported then.
- Tokens.RevokeAlwaysComplete: calls are sequential and the index expiry works; a failing one is covered by
  `Tokens.IssueCoversIff`.
- Storage.Storage.SetWorkflowState: the source runs a SELECT and then an UPDATE that does not look at the state again,
  here one step; calls that move one workflow's state are taken one after another, in `Lifecycle` too, and what two
  writers at once could do to a terminal state is not modelled.
