# Gatekeeper: a verified model of the whitelist-request pipeline

Gatekeeper takes applications for a Minecraft whitelist, mails them to ops, records their decisions in a database,
and carries the decisions out on the game server. Three views of that database are kept up to date from one message
queue: the statistics counters, the cached request list and the game server's whitelist and ban list. Messages can
fail to be published, be redelivered, be dead-lettered, expire, or outlive a crash of the process. This project models
that system and proves what the views guarantee in every state it can reach, and exactly where the guarantees end.

Verify it with `dafny verify dfyconfig.toml`.

## How it is organised

| module | what it holds |
|---|---|
| Requests | requests, statuses, the legal lifecycle |
| Stats | the statistics hash: recount, incremental update, the law that ties them, the average |
| Pipeline | the whole system as a state machine: 14 kinds of step, remote outcomes as parameters |
| Lifecycle, Delivery, GameAgreement, Bans, Whitelist, DriftLaw, Freshness | one invariant of the state machine each, kept by every step |
| IncrementalView | incremental totals against recounts, for any way of weighing requests |
| Theorems | the invariants over whole runs, and what follows from them |
| Races | counterexamples and exact conditions where a guard is missing or a view is stale |
| Overlaps | handlers whose check and write are two steps, any number of them in flight |
| Fields | the statistics hash as a flat map from field names to values, and why the record of Stats stands for it |
| OptimisticStats | `UpdateRealTimeStats` command by command against concurrent writers of the same hash |
| Aggregates, Dispatch, Rcon, Sse | the group-by job, choosing and mailing ops, the RCON codec and client, the event broker |
| Services, Gatekeeper | the system as objects updated in place; `View()` is the state of Pipeline, and every method is proved to take exactly the state machine's steps |

The step functions of Pipeline follow the code they stand for: `CreateRequest` (server/server/handler.external.go:44-96),
`UpdateRow` and `Patched` (server/server/common.go:18-62), `RefreshList` and `CountMessage`
(server/worker/worker.go:216-232), `ActOn` and `SettleMessage` (server/worker/worker.go:235-340), `ExpireHead`
(server/broker/broker.go:109-160), `Requeue` (server/worker/worker.go:145-174) and `RestartProcess`
(server/cache/cache.go:341-450). The components `ledger`, `mailed`, `refreshedAt` and `skew` of the state are history:
the ledger's length numbers the messages, and otherwise what happens never depends on them.

## What is assumed

- A step of the state machine is atomic, while in the code a handler's check and its write are two database calls.
  Module Overlaps splits them: a schedule of overlapping handlers is a legal run of the atomic steps if nobody touches
  a row of a handler's username between its check and its write; it keeps one active request per name if and only if
  no write collides, and the drift law if and only if every write is in order. `Races.RacingCreates` and
  `Races.RacingDecisions` show what goes wrong otherwise.
- Ops and admins send what their pages offer (`Pipeline.Legal`): an op approves or denies, an admin makes a transition
  the dashboard shows a button for (app/src/components/Dashboard/landing/Table.js:244-272), and a patch carries a
  status (app/src/service/RequestsService.js:13-19, 36-54). The server checks this only for ops. The dashboard shows
  its buttons from the cached list, so for an admin this also assumes that the row still has the listed status:
  `Races.OffersAreLegalIff` proves that this is all that is needed, and `Races.StaleListOffersIllegal` that it can fail.
- A start that fails before its sync is complete is a step too (`Abort`). The model lets all parties go on after it,
  which is more than the code does: there the process is down until the next start.
- One goroutine runs the worker loop, so there is one message in hand at a time. Any number may be unacknowledged:
  after a reconnect the prefetch limit is not set again.
- The clock does not run backwards, and a console command reported as issued did take effect. A command may also take
  effect and be reported as failed, and an EXEC may happen and its reply be lost. Other calls fail before they take
  effect; a row stored without its publication covers a database write whose reply is lost.
- An id is a row's position, and rows are never deleted, so an update by id never inserts
  (`Theorems.RowsStaySound` proves that every message names a stored row).

## Where the code differs from what it documents

- `SyncStats` writes the field "Deactivated" (server/cache/cache.go:425), readers scan "deactivated"
  (server/cache/cache.go:43). The hash keeps the two apart; `skew` is the resulting constant.
- The timestamp of a new request is set on a copy (server/db/db.go:43-46), so the published message carries none. The
  counters do not depend on it.
- The comments above `processApproval` and `processDenial` say that a message is rejected if the decision email is not
  sent (server/worker/worker.go:234, 257). The code ignores the outcome of that email, and so does the model.
- `GetRequests` ignores its limit (server/db/db.go:55-57).

## Model

| member | source | states |
|---|---|---|
| Theorems.GameServerAgrees | server/worker/worker.go:235-313 | After any legal run with any failures, for every username of which no ban and not the newest approval or deactivation was lost, whatever became of the older ones: replaying the unsettled messages makes it playable (whitelisted and not banned) exactly if it has an approved request, and with none of its commands under way it is playable now exactly if so |
| Theorems.WhitelistFollowsNewest | server/worker/worker.go:235-313 | The whitelist alone follows the newest approval or deactivation, if that one was not lost |
| Theorems.DriftIsExact | server/cache/cache.go:235-324 | After any legal run: recount == counters + waiting + never counted - counted again, componentwise over all 13 counters, with "deactivated" off by the constant of the last sync; and both demographics sum to the approved count |
| Theorems.QuiescentResync | server/cache/cache.go:341-450 | After a failure-free history from a first sync over no deactivated rows, with the queue drained, the counters are the recount, and a second sync changes no counter and no average that is read |
| Theorems.CountedOnceResync | server/cache/cache.go:341-450 | The same after any run, with connection losses and restarts, that counted every transition exactly once in the end and left "deactivated" right; earlier restarts may have found it wrong |
| Theorems.ResyncIsNoOpIff | server/cache/cache.go:353-447 | In any state that satisfies the drift law, a sync changes no scanned counter if and only if nothing is owed ("deactivated" apart, which a sync never repairs) |
| Theorems.AverageAgreesRun | server/cache/cache.go:286-289 | Over runs with every failure whose last sync was clean, whatever the earlier syncs found: average * (approved + denied + banned + deactivated) == total time, and no division by zero |
| Theorems.RightMeansClean | server/cache/cache.go:410-425 | The last sync was clean whenever the "deactivated" field is right in the end |
| Theorems.BanIsPermanent | server/worker/worker.go:272-291 | Once a username has a banned request, no run ever stores another request for it, it is never playable again after the command took effect, and unless a ban of it was lost it is banned on the game server whenever none is under way, whatever became of its other commands |
| Theorems.BansArrive | server/worker/worker.go:272-291 | The same for the ban list in every reachable state: a banned request is in effect unless its ban waits in the queue or was lost |
| Theorems.LeftoversCountedTwice | server/cache/cache.go:340-450 | The exact cost of a restart over a queue that was not empty: after a failure-free drain the counters are the recount plus the sum of the deltas of the messages that waited at the restart, less the skew |
| Theorems.EachMessageInOnePlace | server/broker/broker.go:109-160 | After any run, a published message is queued or unacknowledged, in one place, exactly as long as it is neither acknowledged nor dead-lettered; unsettled ones are in publish order with their bodies unchanged, however often redelivered |
| Theorems.RowsStaySound | server/server/common.go:18-38 | In every reachable state: one pending, approved or banned request per username; pending rows have no processed time and all others timestamp <= processed <= lastUpdated; every decision is by "admin" or an op mailed for that request; the total time is never negative |
| Theorems.HistoryOnlyGrows | server/server/common.go:25-32 | Over any run: rows are never lost and keep identity and creation time, statuses only move forward, a processed time once set is frozen, settled messages stay settled, bodies are immutable |
| Theorems.DecisionIsOnRecord | server/server/common.go:22-32 | Over any run: a row's processed time is for ever the moment of the step that decided it, and while the decision stands so are the decider and the time of the update |
| Theorems.PatchIsTransition | server/server/common.go:18-60 | A patch gives the one row the status, the decider and the stamps of its step, leaves its identity, demographics, application time and assignees and all other rows alone, and records exactly that row for publication |
| Theorems.CreationIsStored | server/server/handler.external.go:44-96 | A creation stores the applicant's own username, age and gender as a pending row of that moment, and records it without the timestamp for publication |
| Theorems.QuiescentList | server/cache/cache.go:185-201 | With the queue drained, the dashboard's list equals the database except for assignees, after any run in which every message was published, none expired and every refresh succeeded; statistics updates, connections and the process itself may have failed |
| Theorems.AcknowledgedList | server/cache/cache.go:185-201 | The same at any moment of any run with successful refreshes, with losses and a queue not drained, once the newest transition is acknowledged |
| Theorems.FirstStartBoots | server/cache/cache.go:341-450 | A first start establishes the hypotheses of the run theorems; it leaves the counters exact if and only if no row is deactivated, and then the average agrees too |
| Theorems.EmptyInstallationBoots | server/cmd/main.go:67-72 | An empty installation meets those hypotheses |
| Theorems.InvStep | server/worker/worker.go:175-214 | Every legal step of any party, failures included, keeps all six invariants |
| Theorems.InvRun | server/worker/worker.go:175-214 | Hence every legal run does |
| Theorems.BansOkRun | server/worker/worker.go:272-291 | Every legal run keeps that each ban is in effect, waiting or lost |
| Theorems.CommandsOkRun | server/worker/worker.go:235-313 | Every legal run keeps what the whitelist and the ban list rest on |
| Theorems.CleanInvRun | server/worker/worker.go:216-232 | A failure-free run counts each message once after it was queued, so a leftover of a restart twice in all |
| Lifecycle.RowsOkStep | server/server/common.go:18-62 | Each legal step keeps one active request per name, ordered timestamps and attributed decisions |
| Lifecycle.RowsEvolveStep | server/server/common.go:23-38 | A step changes a row only by one legal transition or in its assignees |
| Delivery.DeliveryOkStep | server/worker/worker.go:175-340 | Each step keeps the unsettled messages equal to the ledger's queued entries, each once, in publish order, and the worker's message at the head unless its connection died |
| Delivery.LedgerGrowsStep | server/worker/worker.go:235-340 | No step unsettles a settled message or changes a body |
| Delivery.ConservedRemove | server/broker/broker.go:109-160 | Settling or expiring any one message conserves all the others and their order |
| GameAgreement.GameOkStep | server/worker/worker.go:235-313 | Each legal step keeps the game server in agreement through the unsettled messages |
| GameAgreement.ReplayAbsorbs | server/worker/worker.go:235-313 | Carrying out an unsettled command early, twice, or over a dead connection does not change where the replay ends |
| GameAgreement.TargetUpdate | server/worker/worker.go:235-313 | A legal transition changes the standing the database calls for by exactly the effect of its own command; needs one active request per name |
| Bans.BansOkStep | server/worker/worker.go:272-291 | Each step keeps that each banned request is in effect on the game server, or its ban waits in the queue, was dead-lettered, or never reached it |
| Whitelist.CommandsOkStep | server/worker/worker.go:235-313 | Each legal step keeps that the newest switch of a player says what the database calls for and is in effect once acknowledged, that acknowledged messages are older than unsettled ones and the one in hand, and that every ban on record is a ban of the database |
| Whitelist.NewestSwitchDecides | server/worker/worker.go:235-313 | If the newest approval or deactivation was not lost, the replay gives the player the place on the whitelist the database calls for |
| Whitelist.BansDecide | server/worker/worker.go:272-291 | If no ban of the player was lost, the replay gives the place on the ban list |
| DriftLaw.DriftOkStep | server/cache/cache.go:235-324 | Each legal step keeps the drift law |
| DriftLaw.StatsOkStep | server/cache/cache.go:235-324 | Each legal step keeps both demographics equal to the approved count, the total non-negative, and every message naming a stored row |
| DriftLaw.AverageAgreesStep | server/cache/cache.go:286-289 | Each step keeps the product law of the average; a sync establishes it if it is clean |
| DriftLaw.DriftOkRestart | server/cache/cache.go:353-447 | A restart re-establishes the drift law from any state whatever |
| Freshness.NewestRefreshed | server/cache/cache.go:185-201 | If the newest transition was processed with a successful refresh, the cached list is the database's but for assignees, even if older refreshes failed |
| Freshness.FreshOkStep | server/worker/worker.go:323-329 | Each step keeps that a list as new as the last transition is right but for assignees |
| Freshness.CoveredStep | server/worker/worker.go:216-223 | Each step with a successful refresh keeps that a transition later than the list is one the worker has not come to |
| Freshness.ListIsSnapshot | server/cache/cache.go:185-201 | Whatever fails, the cached list is the initial one or a snapshot of the rows at some moment of the run |
| IncrementalView.BalancedUpdateIff | server/cache/cache.go:235-324 | For any incremental total: overwriting a row keeps it reconcilable if and only if the message's delta is the change of the row's contribution |
| IncrementalView.BalancedByCause | server/cache/cache.go:235-324 | For any incremental total: its distance from the recount, split into waiting, missed and repeated messages |
| IncrementalView.CausesVanish | server/cache/cache.go:235-324 | A cause without messages has no share: nothing uncounted in the queue, nothing lost before it was counted, nothing counted twice |
| IncrementalView.DriftCounted | server/cache/cache.go:235-324 | Counting one message, for the first time or again, lowers the drift by exactly its delta |
| IncrementalView.DriftOfLeftovers | server/cache/cache.go:340-450 | For any incremental total: if every transition was counted once and those of some messages twice, the total is ahead by the sum of exactly those deltas |
| Stats.UpdateAddsDelta | server/cache/cache.go:246-284 | The HMSET of one update adds exactly the status's delta to the scanned counters and leaves the other fields alone |
| Stats.DeltaIsContributionChange | server/cache/cache.go:259-284 | On each legal transition the delta of the post-image is the change of the row's contribution to a recount |
| Stats.IllegalTransitionDrifts | server/cache/cache.go:259-284 | They agree if and only if the transition is legal |
| Stats.SyncScansRecount | server/cache/cache.go:420-434 | After a sync every scanned counter is the recount, except "deactivated", which keeps its earlier value |
| Stats.RecountBounds | server/cache/cache.go:370-409 | A recount over honest timestamps is non-negative, sums its demographics to approved, and has a positive divisor whenever the division runs |
| Stats.PendingCounted | server/cache/cache.go:400-401 | A recount's pending counter is the number of pending rows |
| Stats.ApprovedCounted | server/cache/cache.go:372-373 | The approved counter is the number of approved rows |
| Stats.DeniedCounted | server/cache/cache.go:397-398 | The denied counter is the number of denied rows |
| Stats.BannedCounted | server/cache/cache.go:402-403 | The banned counter is the number of banned rows |
| Stats.DeactivatedAreCounted | server/cache/cache.go:405-406 | The deactivated counter is the number of deactivated rows |
| Stats.MalesCounted | server/cache/cache.go:375-377 | maleCount is the number of approved rows with gender "male" |
| Stats.FemalesCounted | server/cache/cache.go:375-379 | femaleCount is the number of approved rows with gender "female" |
| Stats.OtherGendersCounted | server/cache/cache.go:375-382 | otherGenderCount is the number of approved rows with any other gender |
| Stats.AgeGroup1Counted | server/cache/cache.go:384-388 | ageGroup1Count is the number of approved rows of age 0 to 14 |
| Stats.AgeGroup2Counted | server/cache/cache.go:389-390 | ageGroup2Count is the number of approved rows of age 15 to 29 |
| Stats.AgeGroup3Counted | server/cache/cache.go:391-392 | ageGroup3Count is the number of approved rows of age 30 to 44 |
| Stats.AgeGroup4Counted | server/cache/cache.go:393-395 | ageGroup4Count is the number of approved rows of any other age |
| Stats.RecountTime | server/cache/cache.go:396-407 | The total response time is the sum, over all rows not pending, of processed less application time |
| Stats.DemographicsConserved | server/cache/cache.go:453-486 | Gender counts and age groups keep adding up to approved under every update, whatever statuses arrive |
| Stats.AgeGroup | server/cache/cache.go:473-483 | The four groups are the ages 0 to 14, 15 to 29, 30 to 44, and all others, negative ages included |
| Fields.FlatUpdateRefines | server/cache/cache.go:246-298 | Redis stores one flat map of field names: an HMSET of the update's own pairs is scanned as what the record model says |
| Fields.FlatSyncRefines | server/cache/cache.go:420-434 | The same for the sync, which stores the deactivated ones under the name "Deactivated" that no reader scans |
| Fields.FlatAggregateRefines | server/cache/cache.go:147 | The same for the aggregate field, which no other command names |
| Fields.KeysDiffer | server/cache/cache.go:38-54 | No two fields have the same name, capitals included |
| Fields.HmsetGet | server/cache/cache.go:147 | A command changes the fields it names and no other |
| Stats.AveragePreserved | server/cache/cache.go:285-289 | No update divides by zero, and average * count == total survives every status |
| Stats.AverageAfterSync | server/cache/cache.go:410-425 | A sync establishes average * count == total if and only if no time was recorded or the stale "deactivated" field happens to be right |
| Stats.StaleDeactivatedDividesByZero | server/cache/cache.go:425 | Otherwise it can fail: a first sync over deactivated rows only, then a new request, divides by zero |
| Races.PatchKeepsDriftLawIff | server/server/handler.internal.go:61-62 | The unguarded admin patch, to any status at all, keeps the counters reconcilable if and only if the transition is one the dashboard offers |
| Races.PatchKeepsAgreementIff | server/server/handler.internal.go:61-62 | A published patch to any status keeps its player's standing in agreement if and only if its command suffices: approving a row not banned; banning with the name on the whitelist; deactivating a row not banned with no other row of the name on the whitelist; denying or reopening a row not on the whitelist |
| Races.TargetUpdateIff | server/server/handler.internal.go:61-62 | The same about the standing the database calls for |
| Races.RevivalKeepsOneActiveIff | server/server/handler.internal.go:61-62 | Reviving a closed request keeps one active request per name if and only if none is active |
| Races.InsertKeepsOneActiveIff | server/server/handler.external.go:61-68 | Storing a new request keeps one active request per name if and only if none is active |
| Overlaps.UndisturbedRunIsLegal | server/server/handler.external.go:61-68 | Handlers split into check and write, any number in flight: if nobody touches a row of a handler's username between the two, what they do together is a legal run of the atomic steps |
| Overlaps.UndisturbedRunKeepsAll | server/server/handler.external.go:116-126 | So every invariant holds after such a schedule |
| Overlaps.AlwaysOneActiveIff | server/server/handler.external.go:61-68 | Over every legal schedule of overlapping handlers there is one active request per name all along if and only if no write makes a request active under a name that has an active one at that moment |
| Overlaps.AlwaysReconcilableIff | server/server/handler.external.go:116-126 | Over every legal schedule of overlapping handlers the drift law holds all along if and only if every write is a creation or a legal transition of the row as it stands at the write |
| Overlaps.WriteKeepsDriftLawIff | server/server/handler.internal.go:61-62 | The same for a single write |
| Overlaps.WriteIsOnRecord | server/server/common.go:18-60 | What a write records, however late: the application as made, or who decided what and when |
| Overlaps.WriteKeepsOneActiveIff | server/server/handler.external.go:116-126 | The same for a single write, by a create, an op or an admin |
| Overlaps.CollisionMeansDisturbed | server/server/handler.external.go:61-68 | Such a write had somebody touch a row of its username after its check |
| Races.OffersAreLegalIff | app/src/components/Dashboard/landing/Table.js:244-272 | In every reachable state a button the dashboard shows from its cached list, however old, stands for a legal transition if and only if the row still has the listed status |
| Races.FreshListOffersLegal | app/src/components/Dashboard/landing/Table.js:244-272 | A list as new as the newest transition offers only legal ones |
| Races.StaleListOffersIllegal | app/src/components/Dashboard/landing/Table.js:244-272 | A list one transition behind does not: it offers to deny a request just approved |
| Races.RacingCreates | server/server/handler.external.go:61-68 | Two applications validated before either is stored are both stored |
| Races.RacingDecisions | server/server/handler.external.go:116-126 | An approval and a denial that both saw a pending request are both carried out, and the drift law is lost |
| Races.RacingDecisionsLeavePlayable | server/server/handler.external.go:116-126 | The two also leave the denied player playable, with both messages in the queue |
| Races.ReassignmentDecidesWho | server/worker/worker.go:443-448 | After a new request is mailed again, an op may decide it if and only if it is pending and the op is among those reached this time; all other requests are as before |
| OptimisticStats.RefinesAtomicUpdate | server/cache/cache.go:235-324 | For every interleaving with aggregate writes, connection failures and lost replies: a call that succeeds applied its delta exactly once, one that gave up never, one that failed on the way at most once, and neither writer overwrites the other's fields |
| OptimisticStats.Terminates | server/cache/cache.go:236-323 | The call ends within fifteen commands, five attempts of three, whatever others do, and gives up after no fewer |
| OptimisticStats.EveryUpdateAccounted | server/cache/cache.go:236-323 | For every schedule with any number of second writers: the counters are the initial ones plus all their deltas, plus the call's own if it reports success or, possibly, if it failed on the way, less what they stored between its last read and the WATCH in the fields it writes itself |
| OptimisticStats.AllSurviveIff | server/cache/cache.go:239-244 | So a successful call and all its rivals survive if and only if none touched one of its fields in that window, in particular if none struck in it |
| OptimisticStats.RivalBetweenReadAndWatchIsErased | server/cache/cache.go:239-244 | For instance: of a second writer's update between read and WATCH, exactly the fields the call writes itself are erased, all of them if the statuses are the same, and EXEC does not notice |
| OptimisticStats.RivalAfterWatchIsNoticed | server/cache/cache.go:244-313 | One after the WATCH makes EXEC fail and survives |
| OptimisticStats.AggregateIsApart | server/cache/cache.go:147 | The update of the counters and a write of the aggregate field commute |
| Services.Cache.UpdateRealTimeStats | server/cache/cache.go:235-324 | The retry loop is one of those interleavings; it succeeds exactly if every attempt before the first undisturbed one got an answer to its EXEC, and leaves the counters updated once or not at all; only a lost reply makes the two differ |
| Services.SuccessIsStored | server/cache/cache.go:292-313 | What is reported is stored, and what is stored goes unreported only if a reply was lost |
| Services.UndisturbedIsStored | server/cache/cache.go:236-323 | An attempt nothing disturbs, after attempts that were all raced, is stored, and reported if its reply arrives |
| Services.StoredIsUndisturbed | server/cache/cache.go:236-323 | And nothing is stored otherwise |
| Services.Cache.AttemptUpdate | server/cache/cache.go:239-313 | One round ends stored, raced or in error, by what happened around it, and stores exactly if it got to an undisturbed EXEC |
| Services.Cache.Exec | server/cache/cache.go:292-313 | The queued HMSET happens exactly if the key was not written since the WATCH, and the caller learns which unless the reply is lost |
| Services.Cache.SyncRealTimeStats | server/cache/cache.go:353-449 | The sync's retry loop, with its errors, races and lost replies: it stores the recount of the cached list all at once, or changes no counter; it succeeds under the same conditions as an update |
| Services.Cache.AttemptSync | server/cache/cache.go:353-447 | One round of it |
| Services.Cache.Count | server/cache/cache.go:366-409 | The counting loop computes the recount |
| Services.Cache.UpdateAllRequests | server/cache/cache.go:185-201 | The cached list becomes the database's rows, newest first, or stays as it was |
| Services.AddToTally | server/cache/cache.go:370-408 | One round of the recount's switch adds the request's contribution |
| Services.Database.GetRequests | server/db/db.go:55-73 | The cursor loop returns the selected rows, newest first |
| Services.NewestFirstSelects | server/db/db.go:55-73 | Those are exactly the matching rows, in descending order of creation time |
| Services.CreatedIsFoundFirst | server/db/db.go:41-52 | A stored request is found first by every query it matches, and changes no other answer |
| Services.UpdatedIsFoundInPlace | server/db/db.go:76-92 | An update changes the answer to any query by at most the one row, in its place |
| Services.UpdatedIsReadBack | server/db/db.go:76-92 | Reading by id returns what was written under that id, and what was there before under any other |
| Services.ReadByIdFindsOne | server/server/common.go:65-90 | A query by id returns exactly the one row, or nothing |
| Services.BlockedMeansFound | server/server/handler.external.go:140-143 | The duplicate query is non-empty exactly if a pending, approved or banned request has the name |
| Services.SumNewestFirst | server/cache/cache.go:370 | A recount over the newest-first list is the recount over the rows |
| Services.Broker.Publish | server/broker/broker.go:168-191 | Up to three attempts, none after the first success: the message is queued exactly once, behind all others, if one of the three gets through, and not at all otherwise |
| Services.GameServer.Console | server/worker/worker.go:235-313 | For every username: a command has the effect it should on its own player's standing and none on anybody else's |
| Gatekeeper.World.UpdateAggregateStats | server/cache/cache.go:101-158 | Stores the overtime count and the per-admin group-by of the rows, touching no counter; if a query or the write fails nothing changes |
| Gatekeeper.QueriesSelect | server/cache/cache.go:104-117 | The job's queries select exactly the pending rows, and exactly the denied, approved, banned and deactivated ones |
| Gatekeeper.World.SyncStats | server/cache/cache.go:341-450 | Refresh, aggregate, recount: which outcomes of the calls make it succeed, and what is stored when it does not |
| Gatekeeper.World.Start | server/cmd/main.go:67-72 | A start of the process is exactly the restart step, or exactly an aborted start; the former also if it gives up because its last reply was lost |
| Gatekeeper.World.LoseConnection | server/worker/worker.go:145-174 | Losing the connection puts unacknowledged messages back in front, in order |
| Gatekeeper.World.DeliverNext | server/worker/worker.go:131-143 | A delivery moves the head of the queue behind the unacknowledged messages |
| Gatekeeper.CodeIsDetermined | server/server/handler.external.go:153-165 | Only one request can block a name, so the 409, 422 or 403 does not depend on the order of the result |
| Gatekeeper.Server.ValidateCreateRequest | server/server/handler.external.go:138-168 | 200 exactly if no pending, approved or banned request has the name; otherwise 409, 422 or 403 as one that has it is approved, pending or banned; 500 if the query fails |
| Gatekeeper.Server.HandleCreateRequest | server/server/handler.external.go:44-96 | Takes the creation step or changes nothing, and which HTTP code when, including 500 with the row stored but unpublished; the row and the message hold what was applied for |
| Gatekeeper.Server.UpdateRequestByID | server/server/common.go:18-62 | Only the one row changes: status and decider as given, a decision stamped with both times, a ban or deactivation with the update time alone, all else kept; the message published, if any, is that row behind all others |
| Gatekeeper.Server.VerifyMatchingTokens | server/server/handler.external.go:194-216 | True exactly if both tokens decode, the request is found, and the op is an assignee |
| Gatekeeper.Server.HandlePatchRequestByID | server/server/handler.external.go:99-136 | 400 exactly unless the request is found, pending and assigned to the op; otherwise the op's step, recorded under the op's name |
| Gatekeeper.Server.HandleInternalPatchRequestByID | server/server/handler.internal.go:45-77 | 400 only for an unknown id; otherwise the admin's step, recorded under "admin", with no look at the status |
| Gatekeeper.Server.HandleGetRequests | server/server/handler.internal.go:17-42 | Answers the cached list if it can be read, the rows otherwise, and 500 exactly if neither can |
| Gatekeeper.OldestOfNewest | server/db/db.go:57 | The newest-first list and the rows determine each other |
| Gatekeeper.QueueWorker.ProcessDelivery | server/worker/worker.go:175-340 | One turn of the loop is, whatever fails, exactly one named legal run of the state machine; and from the outcomes alone: a new request is acknowledged if and only if its links could be encoded and a quorum was mailed, a command if and only if it was reported as issued, a denial always, and all else is dead-lettered; the row gets exactly the ops reached; the lists on the game server change by the command if and only if it took effect; the cached list and the counters change if and only if their writes got through |
| Gatekeeper.QueueWorker.TakeTurn | server/worker/worker.go:175-340 | The same turn, by its two halves |
| Gatekeeper.ActionIsRight | server/worker/worker.go:235-340 | The action chosen for a message is accepted, and has the effects, that the outcomes call for |
| Gatekeeper.QueueWorker.Receive | server/worker/worker.go:216-232 | Taking a message, refreshing and counting is such a run, and best effort: failures change only their own view |
| Gatekeeper.QueueWorker.ActAndSettle | server/worker/worker.go:235-340 | Acknowledged if and only if the outcomes accept the message, dead-lettered otherwise, with only the effects its status calls for |
| Gatekeeper.QueueWorker.ActOnMessage | server/worker/worker.go:235-340 | Acts as the status demands: nothing, the mails, or the console command |
| Gatekeeper.QueueWorker.DispatchRequest | server/worker/worker.go:316-340 | Mails the chosen ops, attaches exactly those reached to the row if nothing failed on the way, and reports whether a quorum was mailed |
| Gatekeeper.QueueWorker.MailOps | server/worker/worker.go:401-460 | Who was mailed, whether that is a quorum, and whether it is to be attached to the row |
| Gatekeeper.MailedToBefore | server/worker/worker.go:416-443 | Those mailed are the ops whose mail went out before the first link that could not be encoded |
| Gatekeeper.QueueWorker.RefreshList | server/worker/worker.go:217-223 | The refresh step, or nothing if it fails |
| Gatekeeper.QueueWorker.CountMessage | server/worker/worker.go:225-231 | The counting step, with concurrent aggregate writes as a step of their own |
| Gatekeeper.QueueWorker.CountDelivery | server/worker/worker.go:225-231 | As a legal run that leaves the message in hand and settles nothing |
| Gatekeeper.QueueWorker.IssueCommand | server/worker/worker.go:477-487 | The command step: applied and reported may differ |
| Gatekeeper.QueueWorker.FinishDispatch | server/worker/worker.go:443-456 | Attaches the ops reached to the row, only if there are any |
| Gatekeeper.QueueWorker.SettleDelivery | server/worker/worker.go:248-254 | Acknowledges or dead-letters exactly the message in hand |
| Gatekeeper.SettledAs | server/worker/worker.go:235-340 | Acting and settling gives the message in hand its fate and takes only it off the unacknowledged ones |
| Dispatch.GetTargetOps | server/worker/worker.go:463-474 | The in-place shuffle of the configured ops leaves them as specified and returns its first n, all of them in Broadcast mode, nothing if n is out of range |
| Dispatch.ShuffledPermutes | server/worker/worker.go:472 | Whatever the random numbers, the shuffle is a permutation |
| Dispatch.EveryOrderIsPossible | server/worker/worker.go:472 | Every order of the ops is reached by some random numbers |
| Dispatch.PicksDiffer | server/worker/worker.go:472 | And every order of distinct ops by only one sequence of picks in range, so none is likelier than another |
| Dispatch.TargetsAreOps | server/worker/worker.go:463-474 | Those chosen are ops, n distinct ones if the ops are distinct; the slice panics exactly if n is out of range |
| Dispatch.EmailToOps | server/worker/worker.go:416-460 | The error exactly if fewer than a quorum of mails went out or a link could not be encoded; what is stored on the row |
| Dispatch.SentToIsSubsequence | server/worker/worker.go:416-443 | The stored assignees are a subsequence of the ops mailed, distinct if those are |
| Dispatch.SentToThose | server/worker/worker.go:422-443 | The ops reached are exactly those whose mail went out, one entry for each such mail |
| Aggregates.MeasurePerformance | server/cache/cache.go:121-135 | The loop over mutable records groups by admin: one unshared record each, with count, total and average |
| Aggregates.AddRequest | server/cache/cache.go:122-134 | One round updates the admin's record in place or enters a new one, and leaves every other admin's figures alone |
| Aggregates.SummarizePerformance | server/cache/cache.go:136-141 | What is stored: exactly the admins of the fulfilled requests, each with the count and total time of the group-by, and their mean |
| Aggregates.MeanTimesCount | server/cache/cache.go:124-127 | average * count == total time |
| Aggregates.CountOvertime | server/cache/cache.go:109-114 | Runs the overtime loop over the pending requests |
| Aggregates.OvertimeCounted | server/cache/cache.go:109-114 | The overtime count is the number of pending requests at least 24 hours old |
| Aggregates.HandledCounted | server/cache/cache.go:122-135 | An admin's count is the number of requests with that admin |
| Aggregates.TimeIsOfThose | server/cache/cache.go:122-135 | An admin's total is the time, from application to decision, of exactly that admin's requests |
| Aggregates.CountsAddUp | server/cache/cache.go:121-135 | The admins' counts add up to the number of fulfilled requests |
| Aggregates.OrderIrrelevant | server/cache/cache.go:121-135 | Count and total time depend only on the multiset of requests, not on their order |
| Aggregates.PerformanceIsDetermined | server/cache/cache.go:121-135 | The stored figures, admins and all, are the same whatever the order of the requests |
| Aggregates.AggregateIsDetermined | server/cache/cache.go:101-140 | So is the whole result, overtime count included |
| Aggregates.HandlersAreAdmins | server/cache/cache.go:121-135 | An admin has an entry if and only if one of the fulfilled requests is theirs |
| Rcon.StreamRoundTrip | server/rcon/client.go:150-205 | Any list of payloads with bodies up to 1445 bytes and any signed ids and types is read back exactly, with no byte left over |
| Rcon.DecodeEncode | server/rcon/client.go:150-205 | One packet is read back, and nothing that follows it is consumed |
| Rcon.EncodeDecode | server/rcon/client.go:150-205 | An accepted packet re-encodes to exactly the bytes consumed if and only if it is within the sender's size limit and ends in the two zero bytes, which the reader does not check |
| Rcon.PrefixFree | server/rcon/client.go:150-170 | No packet is a proper prefix of another |
| Rcon.DecodeParts | server/rcon/client.go:181-205 | What a successful read consumed, byte by byte |
| Rcon.EncodableIff | server/rcon/client.go:47-49 | A payload can be sent if and only if its body has at most 1445 bytes |
| Rcon.WireLayout | server/rcon/client.go:150-170 | The packet byte range by byte range: body length plus 10, id and type in little-endian two's complement, the body, two zeros |
| Rcon.EncodesLittleEndian | server/rcon/client.go:160 | The four bytes of an integer, least significant first, sum to its two's complement |
| Rcon.DecodesLittleEndian | server/rcon/client.go:200-201 | And four bytes are read as the integer they sum to |
| Rcon.ReadOutcomes | server/rcon/client.go:181-205 | Which of the five ways a read ends, by the length field and the bytes there are |
| Rcon.ExchangeOutcomes | server/rcon/client.go:126-147 | Which way an exchange ends; an answer with the id -1 is a failed authentication |
| Rcon.Int32RoundTrip | server/rcon/client.go:160 | Little-endian two's complement, value to bytes and back |
| Rcon.BytesRoundTrip | server/rcon/client.go:200-201 | Bytes to value and back |
| Rcon.CreatePacketFromPayload | server/rcon/client.go:150-170 | The writing loop produces the packet, or the size error |
| Rcon.Connection.CreatePayloadFromPacket | server/rcon/client.go:181-205 | The reads take exactly one packet's bytes off the stream, with every error branch |
| Rcon.Connection.SendPayload | server/rcon/client.go:126-147 | What goes on the wire and what comes back, with every error branch |
| Rcon.SuccessMeansSent | server/rcon/client.go:126-147 | A success is reported only after the whole packet went out and an answer came back |
| Rcon.Client.SendCommand | server/rcon/client.go:92-118 | At most one more exchange, on the first of at most three dials that comes up; no other connection is written to |
| Rcon.FirstUp | server/rcon/client.go:99-114 | The dial the retry loop stops at |
| Sse.ClientsReceiveTheirWindow | server/server/sse/sse.go:91-122 | Over any run each client's log is exactly the events broadcast between its registration and removal, in order; after a join whose callback succeeded its first event is the statistics at its join, received already or waiting in the slot |
| Sse.FirstEventIsTheWelcome | server/server/sse/sse.go:95-106 | Over any run: after a join whose callback succeeded, the client's first event is the statistics at its join, and until then they wait in the slot unless it leaves |
| Sse.LogIsWhatWasHeard | server/server/sse/sse.go:113-119 | Over any run a client's log grows by exactly the events taken from the slot while it was in the registry, in order |
| Sse.RegistryStep | server/server/sse/sse.go:95-112 | In the registry is whoever joined and has not left |
| Sse.SlotStep | server/server/sse/sse.go:95-119 | In the slot are the current statistics after a notification or a successful join, nothing after a broadcast, otherwise what was there |
| Sse.StartFaithful | server/server/sse/sse.go:27-38 | A new broker is such a state |
| Sse.FaithfulStep | server/server/sse/sse.go:91-122 | Each case of the select keeps it |
| Sse.Broker.HandleEvent | server/server/sse/sse.go:113-119 | The loop over the registry, in any order, delivers the event once to every registered client and to no other |
| Sse.Broker.HandleJoin | server/server/sse/sse.go:95-106 | The join step: the client is in the registry with an empty log, and the callback's event, if any, in the slot |
| Sse.Broker.HandleLeave | server/server/sse/sse.go:107-112 | The leave step: the client is out of the registry; logs and slot stay |
| Sse.Broker.Notify | server/cache/cache.go:327-338 | The send of BroadcastStats fills the free slot and touches nothing else |

## Left out

- The React application, mail templates, themes, Docker and Helm files: no logic of the pipeline. Table.js and
  RequestsService.js are used only as evidence for which transitions and patches occur.
- The clients of MongoDB, Redis, RabbitMQ and SMTP, dialing, sleeps and logging: each call is an outcome that may be
  success or failure.
- Confirmation and decision emails: their outcome is ignored by the worker.
- JWT, AES-GCM and base64 (server/utils/encrypt.go, server/server/handler.auth.go): a token is what it decodes to, or
  nothing.
- The Mojang, reCAPTCHA and health handlers, and `HandleGetRequestByID`: remote services or plain reads.
- JSON and BSON encoding, HTTP bodies that cannot be read (answered 400), queued messages that cannot be decoded
  (dead-lettered), and messages with an unknown status, which the worker neither acknowledges nor rejects.
- The email, note and info fields of a request, and patch bodies that the pages do not send (such as a timestamp).
- Rows seeded or edited directly in the database, and inserts by an update whose id is unknown.
- Rounding of floating-point numbers and overflow of 64-bit counters: minutes are reals, counters unbounded.
- Case folding of usernames on the game server.
- The order MongoDB gives rows created at the same instant: it is taken to be the order of insertion, reversed.
- The length of the queue's time-to-live: the head may expire at any moment.
- The retries of a reconnect: if all fail the process exits, and the next start is the restart step.
- What the statistics event contains: Sse is proved for events of any type.
- Deadlock of the event loop, whose join callback sends on the channel the loop itself drains: what is proved is about
  steps that complete, as a step that would block is not enabled.
- The authentication exchange inside a dial, and the trimming of an RCON answer.
- A reload of the configuration while the worker runs. A negative random threshold passes the check at start and makes
  the slice panic; `Dispatch.TargetsAreOps` says exactly when.
- Gatekeeper.QueueWorker.ProcessDelivery: the method is one turn over a connection that stays up; a turn over a
  connection that dies on the way is covered by the state machine, where the loss may strike between any two steps.
