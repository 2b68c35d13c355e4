# Outboxer: a verified model of the relay

Outboxer moves rows of a PostgreSQL outbox table to SQS queues and Pub/Sub topics.
One transaction selects and locks a fair batch of rows, publishes them, dead-letters
poison, deletes whatever finished, and commits. This project models that relay in
Dafny and proves what it is for: nothing is lost, dead letters are exact, ordering
groups keep their order, one relay at a time works on a route, healthy routes make
progress beside broken ones, and an unknown ordered outcome stops the relay.

`dafny verify dfyconfig.toml` checks everything.

| file | what it models |
|---|---|
| `Errors.dfy` | Go error trees: `errors.Join`, `errors.Is`, leaf counting, `RunConcurrent` |
| `SqlText.dfy` | quoting of SQL string literals and lists, with a reader for the doubled-quote rule |
| `Routing.dfy` | the generated SQL predicates as an expression tree with three-valued evaluation, and the plain routing table |
| `Selection.dfy` | the collection query, `batchDrained` with and without rows lost to another relay, the backlog probe |
| `RelaySystem.dfy` | any number of relays over one table as a step machine: locks, publishes, crashes, unknown commits |
| `RelayDelivery.dfy` | what the steps of a batch change, and runs in which a relay delivers or refuses a row |
| `RelayOrdering.dfy` | the exact condition under which ordering holds |
| `SenderOrder.dfy` | the senders' runs obey the sequencing rule of the system model |
| `Collector.dfy` | the callback collector of one provider call |
| `Processor.dfy` | triage, and each event's outcome defined independently of the code |
| `BatchLoop.dfy` | the transaction around a batch, the backlog gauge, the main loop |
| `BatchRuns.dfy` | what whole runs of the loop guarantee |
| `FatalStop.dfy` | from a timed-out ordered publish to the end of the main loop |
| `RouteProgress.dfy` | progress of a healthy route beside broken ones |
| `Grouping.dfy`, `Chunking.dfy`, `Expiry.dfy` | grouping by key; greedy chunking under two limits; the max-age test |
| `SqsSender.dfy`, `PubsubSender.dfy` | the two senders against arbitrary scripts of provider answers |
| `SqsOutcomes.dfy` | what the SQS sends report, return and call, exactly as the provider answered |
| `SqsQueue.dfy` | one SQS queue's send composed from its message groups or its chunks |
| `SendSlots.dfy` | the global SQS semaphore under every interleaving |
| `Wakeup.dfy` | LISTEN/NOTIFY wake-ups of the idle loop |
| `FailureLogger.dfy`, `Stats.dfy` | the rate-limited failure log and the counters |

Objects whose methods change state in the repository (`senderCollector`, `appStats`,
`failureLogger`, `app`, the open transaction, a sender's session) are classes; each of
their methods is proved against a function, and the theorems are about that function.
The providers, the database and the clock are scripts or steps that may do anything.

## Assumptions

- Row ids are unique, and a row inserted later has a larger id (`Insert` in
  `RelaySystem.dfy`). `COLLECT_BATCH_TARGET` is positive
  (`internal/outboxer/config_validate.go:89`).
- A provider's permanent rejection is a fixed property of an event
  (`specs/requirements.md:641-642`); the clock does not go backwards in `RelaySystem.dfy`.
- PostgreSQL evaluates a selection on one committed snapshot, locks its rows in id order,
  holds the locks until the transaction ends, and skips rows deleted while it waited.
- An event handed to a provider may be accepted at any later time, any number of times,
  even after the process that sent it has crashed.
- Entry ids in one SQS request are distinct, because they are hashes of distinct row ids;
  the theorems that need answers to settle only what they were asked about say so
  (`AttributedBeforeNext`, `AllAttributed`, and `strays` in the system model's settings).
- Provider targets are distinct, non-empty and at least one is enabled (`ValidConfig`).
- PostgreSQL text columns hold no NUL character, which is what tells a topic and an ordering
  key apart in a Pub/Sub group id (`internal/outboxer/pubsub/sender.go:81`).
- No provider client returns the relay's own sentinel errors, except the senders' use of
  `ErrFatalAfterCommit`.

## Findings

- **Ordering has two exceptions.** `specs/requirements.md:299-302` promises that ordered
  queues keep their order. With MAX_EVENT_AGE_MS, an event whose publish had an unknown
  outcome can expire before the retry, be removed as poison, let its successor go out, and
  then still be accepted by the provider. And `internal/outboxer/sqs/sender.go:369-373`
  counts any listed entry as progress, known or not, so an answer naming a foreign entry
  lets a FIFO group continue past an unsettled event. `RelayOrdering.OrderedIff` shows that
  a route's groups are accepted in order in all reachable states if and only if there is no
  maximum age and the route's provider settles only entries it was asked about;
  `SqsSender.FifoOrderIffAttributed` states the second half for one send of any group, and
  `SqsSender.ForeignEntryBreaksOrder` is a concrete case.
- **batchDrained beside another relay.** `FOR UPDATE` returns fewer rows than were picked
  when another relay deletes some during the lock wait. The recomputed share is then
  compared with too few rows. `Selection.DrainedWrongIff` says, for every set of rows the
  other relay deletes, selected or not, exactly when the answer is wrong: some route keeps
  more rows than are left of its selected ones, and every surviving route falls below the
  recomputed share. `BatchRuns.GaugeIsTruthful` says the same of the backlog gauge;
  `Selection.LossLooksDrained` and `BatchRuns.LossFoolsGauge` are concrete cases, and
  `Selection.FullLossIsHarmless` is one where the selection was cut short, rows were lost,
  and the answer is still right.
- **Sleeping on rows.** For the same reason, and in the gap before LISTEN, the idle loop can
  block while rows wait. `Wakeup.SleepsOnlyWhenEmptyIff` gives the exact conditions;
  `Wakeup.RowIsSelectedSoon` shows that four steps of the relay's own, the poll timeout
  among them, always bound that wait.
- **Negative interval counts.** `intervalSnapshot` reads the counters before it takes the
  mutex (`internal/outboxer/stats.go:163-169`), so when the ticker's call and the final
  flush overlap, a call can store an older reading over a newer baseline. The logged
  intervals still add up (`Stats.OverlappingDeltasAddUp`), and `Stats.NegativeDeltaIff`
  says exactly when one of them is negative.

## Model

| member | source | states |
|---|---|---|
| Errors.JoinIs | internal/outboxer/processor.go:254-258 | a sentinel is found in a joined error if and only if it is in one of its operands, so no join hides a fatal error |
| Errors.CountIsLeafCount | internal/outboxer/processor.go:296-309 | the error count of any tree is its number of non-joined leaves |
| Errors.FirstLeafError | internal/outboxer/processor.go:313-326 | the walk ends at the leftmost leaf, or at an empty join on the tree's left edge, which no tree built by errors.Join has |
| Errors.RunConcurrent | internal/outboxer/provider/concurrent.go:12-32 | every item runs, and for every completion order the joined error contains a sentinel if and only if some item returned it |
| Errors.JoinCompletedCount | internal/outboxer/processor.go:253-257 | the sender error count is the sum of the parts, independent of completion order and nesting |
| SqlText.LiteralRoundTrip | internal/outboxer/db.go:412-414 | reading a generated literal by the doubled-quote rule gives back the original string and stops at its end, quotes included |
| SqlText.ListRoundTrip | internal/outboxer/db.go:416-422 | reading a generated literal list gives back exactly the original strings, even ones containing quotes or the separator |
| SqlText.SqlStringList | internal/outboxer/db.go:416-422 | the quoting loop builds the list text that the round trip is about |
| Routing.RoutableIffResolves | internal/outboxer/db.go:233-283 | for every valid configuration and row, NULL and empty columns included, the generated predicate is TRUE exactly when the routing table resolves the row, and the expressions then compute that route |
| Routing.ResolveMeans | specs/requirements.md:185-226 | a row goes to the enabled provider it names, or to the only one if it names none; to the destination it names, or to that provider's default; and only if there is one and the provider owns it or has no ownership list |
| Routing.OwnershipHolds | internal/outboxer/db.go:337-355 | on a row with known target and destination the conjunction of ownership clauses is TRUE exactly when the target's provider owns the destination |
| Routing.RouteMatchIffSameRoute | internal/outboxer/db.go:285-313 | on a routable row the route-match predicate is TRUE for exactly one route, the row's own |
| Routing.DefaultBranchValue | internal/outboxer/db.go:272-283 | the CASE expression yields the default destination of the provider named by the target, or the empty string |
| Routing.TargetResolves | internal/outboxer/db.go:233-254 | the target predicate is TRUE exactly when an enabled provider is named, or is the only one, and the target expression names it |
| Routing.BuildBranches | internal/outboxer/db.go:272-283 | the branch loop builds one WHEN per enabled provider in order |
| Routing.BuildOwnership | internal/outboxer/db.go:337-355 | the predicate loop builds the conjunction over the providers that own a destination list |
| Selection.SelectSqlIsSelection | internal/outboxer/db.go:156-231 | the three-part query selects exactly each route's oldest rows up to its share, each row once, labelled with the route of the routing table |
| Selection.RoutesCteIsRoutes | internal/outboxer/db.go:172-185 | the routes CTE is exactly the set of routes that have routable rows |
| Selection.PickedIsOldestPending | internal/outboxer/db.go:187-203 | the lateral sub-select returns exactly the oldest pending rows of its route |
| Selection.OldestSize | internal/outboxer/db.go:187-203 | an ORDER BY id LIMIT n selection has min(rows, n) rows |
| Selection.FairShare | specs/requirements.md:173-175 | every route with routable rows contributes its oldest min(pending, share) rows, at least one, however many rows other routes have |
| Selection.SelectionIsRoutePrefix | internal/outboxer/db.go:187-203 | no row is selected over an older row of its route |
| Selection.SelectionBound | specs/requirements.md:205-209 | a selection has at most target + routes - 1 rows |
| Selection.BatchDrained | internal/outboxer/backlog.go:101-117 | the counting loops return true exactly when every route seen has fewer rows than its share |
| Selection.CountPerRoute | internal/outboxer/backlog.go:105-108 | the map holds the number of events of each route seen, and no other route |
| Selection.DrainedIsExact | internal/outboxer/backlog.go:97-117 | from the result alone "drained" holds if and only if every route has fewer pending rows than its share, and then every routable row was selected |
| Selection.DrainedBacklogIsKept | internal/outboxer/backlog.go:16-25 | after a drained batch commits, with no insert in between, the events kept for retry are exactly the routable rows left |
| Selection.TruncatedIffIncomplete | internal/outboxer/db.go:187-203 | the query leaves a routable row out exactly when some route has more pending rows than its share |
| Selection.DrainedWrongIff | internal/outboxer/backlog.go:97-117 | for any rows another relay deletes during the lock wait, selected here or not, the answer is "drained" and some routable row is left besides the surviving selection exactly when some route keeps more rows than are left of its selected ones and every surviving route falls below the recomputed share |
| Selection.LeavesBehindIff | internal/outboxer/db.go:187-212 | a route keeps more rows than are left of its selected ones exactly when the deletions leave routable rows outside the surviving selection |
| Selection.FullLossIsHarmless | internal/outboxer/backlog.go:97-117 | the rows another relay collects and deletes can include one this relay left out; then the selection was cut short, looks drained, and the answer is right |
| Selection.LossLooksDrained | internal/outboxer/backlog.go:97-117 | a table of three rows, one lost row and the one-row result that is called drained while a row is left out |
| Selection.ProbeIsExactUnlessCapped | internal/outboxer/backlog.go:55-95 | a probe counts the routable rows among the oldest ones, as many as its limit; one that did not hit its limit is exact, a capped one is a lower bound, and it is capped exactly when the table has at least limit rows |
| RouteProgress.SettledRouteCommits | internal/outboxer/processor.go:228-256 | a batch that confirms or condemns everything it took from a route removes exactly that route's selected rows, whatever the other routes' outcomes and whichever rows were lost to another relay |
| RouteProgress.TurnServesShare | internal/outboxer/db.go:187-212 | a committed batch that settles a route's events shrinks its pending rows by at least min(pending, share) |
| RouteProgress.HealthyRouteEmpties | internal/outboxer/db.go:187-212 | a route without new inserts is empty once the shares of its committed batches add up to its pending rows, and so after at most that many commits, with rolled-back batches in between and other routes' rows coming and going freely |
| RelaySystem.StepKeeps | internal/outboxer/processor.go:110-149 | every step of every relay, producer or provider, crashes and unknown commits included, keeps the system invariant |
| RelaySystem.NothingLost | specs/requirements.md:287-291 | in every reachable state each inserted row is in the outbox, accepted by a provider, or unsendable; a sendable and well-formed one that is gone within its maximum age was accepted |
| RelaySystem.LeftInTime | internal/outboxer/processor.go:343-352 | a sendable, well-formed row that left the outbox before its maximum age had passed has been accepted |
| RelayDelivery.TriageCondemns | internal/outboxer/processor.go:172-195 | triage condemns exactly the locked rows that are malformed or past the maximum age |
| RelayDelivery.CommitRemoves | internal/outboxer/processor.go:271-291 | a commit that takes effect removes exactly the confirmed, poisoned and condemned rows of its batch, each with its ending, and adds exactly its dead letters |
| RelayDelivery.RelayDelivers | internal/outboxer/processor.go:110-149 | from every reachable state an idle relay that is not blocked takes any sendable row its next select picks, which heads its group, to its provider and out of the outbox by steps of its own |
| RelayDelivery.RelayRefuses | internal/outboxer/processor.go:271-291 | and it removes a row that can never be sent as condemned, with its dead letter |
| RelaySystem.DeadLettersExact | internal/outboxer/dlq.go:171-200 | in every reachable state each row removed as poison has exactly one dead letter and no other row has any; outbox and dead letters are disjoint |
| RelaySystem.HeldIsRoutePrefix | internal/outboxer/db.go:214-231 | the rows a relay has locked are, route by route, the oldest rows of the committed table |
| RelaySystem.RouteExclusive | internal/outboxer/db.go:214-231 | two relays never hold rows of the same route at the same time |
| RelaySystem.NoWaitCycle | internal/outboxer/db.go:214-231 | lock waits never form a cycle |
| RelaySystem.SomeHolderAdvances | internal/outboxer/db.go:214-231 | whenever a relay waits for a lock, some relay that holds locks can take its next step |
| SenderOrder.GroupsAreOrderingGroups | internal/outboxer/pubsub/sender.go:66-85 | grouping a batch's dispatched rows by destination and key yields exactly the ordering groups of the system model, in id order |
| SenderOrder.FifoCallIsReady | internal/outboxer/sqs/sender.go:221-237 | every call of a FIFO group's send satisfies the system model's sequencing rule, for every sequence of answers |
| SenderOrder.FifoCallIsReadyWhenNamed | internal/outboxer/sqs/sender.go:221-237 | when every answer names only requested entries, it does so by recorded outcomes alone |
| SenderOrder.PublishIsReady | internal/outboxer/pubsub/sender.go:136-168 | every publish of an ordering-key group's send satisfies the sequencing rule by recorded outcomes alone |
| RelaySystem.AttemptIsOrdered | internal/outboxer/sqs/sender.go:221-237 | without a maximum age or stray answers, when a row is handed to a provider every older row of its group has been accepted or never will be |
| RelaySystem.AcceptancesAreGapFree | specs/requirements.md:299-302 | on a route whose provider settles only what it is asked about, and without a maximum age, no acceptance in any run of any number of relays overtakes an older sendable row of its group |
| RelayOrdering.LateAcceptance | internal/outboxer/processor.go:342-351 | with a maximum age a reachable run accepts a later row of a group first |
| RelayOrdering.StrayAcceptance | internal/outboxer/sqs/sender.go:369-373 | with stray answers a reachable run accepts a later row of a group first, without any maximum age |
| RelayOrdering.OrderedIff | specs/requirements.md:299-302 | on every route some row can take, first acceptances are in id order in every reachable state if and only if there is no maximum age and the route's provider settles only what it is asked about |
| Collector.SenderCollector.constructor | internal/outboxer/processor.go:369-380 | a new collector has recorded nothing |
| Collector.SenderCollector.Record | internal/outboxer/processor.go:382-407 | one callback extends the recorded history; ids outside the batch and repeated ids leave the output as it was |
| Collector.CollectSenderOutput | internal/outboxer/processor.go:426-435 | the output is the function Collected of the callbacks in lock order |
| Collector.FirstOutcomeWins | internal/outboxer/processor.go:382-407 | for every id the output holds exactly the first outcome reported, and nothing for ids outside the batch |
| Collector.CollectedIsPartition | internal/outboxer/processor.go:382-407 | confirmed and poison are duplicate-free, disjoint, and together exactly the batch ids some callback reported |
| Processor.TriageEvents | internal/outboxer/processor.go:172-195 | triage fails exactly when some event that is not past the maximum age has no sender; otherwise exactly the events with ts + maxAge < now are poisoned as expired, exactly the other malformed ones as malformed, and each target's group holds the rest of its events, all in selection order |
| Processor.OutcomeMeans | internal/outboxer/processor.go:172-256 | an event is dropped when it is past the maximum age, poisoned when its options are malformed, and otherwise ends as the first report its own sender makes about it says |
| Processor.SelectedNeverFailsTriage | internal/outboxer/processor.go:181-186 | triage never fails on rows the query selected under the same configuration |
| Processor.OutputIsOutcomes | internal/outboxer/processor.go:353-357 | one sender's collected output is exactly the outcomes of its own events |
| Processor.GatherExact | internal/outboxer/processor.go:218-256 | for every completion order and whatever the callbacks, confirmed and poison hold exactly the events whose outcome is Sent or Poisoned, each once, and deleteIDs is their union |
| Processor.GatherErrorIs | internal/outboxer/processor.go:253-260 | the joined sender error holds a sentinel exactly when some sender that ran returned it |
| Processor.OutcomesPartition | internal/outboxer/processor.go:266-269 | sent, poisoned and kept events add up to the selected ones, so the clamp at zero never fires |
| BatchLoop.Publish | internal/outboxer/processor.go:224-256 | running the senders of the triaged groups gathers what Gather says, whatever the finishing order |
| BatchLoop.CountOutcomes | internal/outboxer/processor.go:257-269 | the subtraction, clamp and error count equal the numbers of Sent, Poisoned and Kept events and of sender errors |
| BatchLoop.Tx.InsertDeadLetters | internal/outboxer/dlq.go:171-200 | nothing is written without a dead-letter table or without poison; otherwise the statement stages every letter or fails |
| BatchLoop.Tx.DeleteEvents | internal/outboxer/db.go:440-456 | an empty id list sends no statement; otherwise every id is staged for deletion or the statement fails |
| BatchLoop.WriteOutcomes | internal/outboxer/processor.go:271-291 | a failed write is a database error that still carries a fatal sender error; otherwise exactly the finished rows and the dead letters are staged |
| BatchLoop.ProcessEventBatch | internal/outboxer/processor.go:197-294 | the returned error is fatal exactly when a sender that ran was, and a database error exactly when select, triage or a write failed; the counters are the outcome counts |
| BatchLoop.App.ProcessOneBatch | internal/outboxer/processor.go:110-149 | under every fault the table and dead letters change together or not at all, counters move only on an acknowledged commit, and a fatal sender error survives every later failure |
| BatchLoop.App.Commit | internal/outboxer/processor.go:128-135 | the staged writes take effect together or not at all, and a lost acknowledgement reports an error although they did |
| BatchLoop.App.UpdateBacklog | internal/outboxer/backlog.go:21-49 | the gauge follows drained batches, the floor of a disabled probe, or a probe that is due and answers; nothing else changes |
| BatchLoop.App.ProcessEvents | internal/outboxer/processor.go:38-68 | every batch is followed by the action its outcome calls for, the loop runs the script up to the first batch that stops it, and the final state is the fold of the batch effects |
| BatchLoop.ActionsFit | internal/outboxer/processor.go:38-68 | each action of the loop, in terms of the script: Stop exactly after a fatal batch, Cooldown exactly after another one that failed at begin, select, scan, triage, write or commit, Wait exactly after a successful one that selected nothing, Again after one that selected something |
| BatchLoop.SucceedsIffAcknowledged | internal/outboxer/processor.go:110-149 | a batch is acknowledged exactly if no statement that is sent fails, every row has a route and a sender unless it is overdue, and the commit is acknowledged |
| FatalStop.StopIffOrderedTimeout | internal/outboxer/pubsub/sender.go:149-151 | a batch that publishes stops the loop exactly when an ordered publish of its Pub/Sub send ended in DeadlineExceeded, in any finishing order and under every later dead-letter, delete or commit failure |
| FatalStop.TimeoutEndsRun | internal/outboxer/processor.go:51-59 | after such a publish no later batch of any script is run |
| BatchRuns.SelectedAlwaysPublishes | internal/outboxer/db.go:383-390 | a selection made under the same configuration passes scanning and triage and reaches the senders |
| BatchRuns.WaitsIffNothingRoutable | internal/outboxer/processor.go:60-67 | after a successful batch over the whole selection the loop waits exactly if its snapshot held no routable row, and goes on at once otherwise |
| BatchRuns.BatchStatsMean | internal/outboxer/processor.go:257-269 | the counters of a batch are the numbers of its outcomes, poison is counted as dead letters exactly when they are written, and sender errors are the leaves of the joined error |
| BatchRuns.OldestAgeIsGreatest | internal/outboxer/processor.go:328-341 | with timestamps that do not decrease in id order the reported age is that of the oldest selected event, 0 for one from the future |
| BatchRuns.RunCounts | internal/outboxer/stats.go:111-137 | over a run every batch is counted once, as processed or as an error, and the outcome counters grow by the outcomes of the successful batches |
| BatchRuns.BatchStatsBalance | internal/outboxer/processor.go:261-269 | selected = sent + poison + dlq + keptForRetry for every batch |
| BatchRuns.RunTotalsBalance | internal/outboxer/stats.go:111-130 | the cumulative counters keep that equation through failed batches and lost acknowledgements |
| BatchRuns.RowsLeaveWhenSettled | internal/outboxer/processor.go:110-149 | a row is gone after a run exactly when an applied batch confirmed or condemned it |
| BatchRuns.DeadLettersOnce | internal/outboxer/processor.go:272-288 | over a run exactly the rows an applied batch condemned are dead-lettered, once each, and none is still in the outbox |
| BatchRuns.GaugeIsTruthful | internal/outboxer/backlog.go:16-49 | how the gauge moves, the probe taken exactly when it is due, and what it is then worth, for any rows another relay deletes during the lock wait: after a batch that does not look drained it is a true floor with probing off, and true with a probe that was due and answered; after one that does it is marked exact, and wrong exactly when some route keeps more rows than are left of its selected ones and every surviving route fell below the recomputed share |
| BatchRuns.BatchGaugeIsTruthful | internal/outboxer/backlog.go:16-42 | the same of the gauge a committed batch itself leaves behind, with its own outcomes and finished rows |
| BatchRuns.LossFoolsGauge | internal/outboxer/backlog.go:22-25 | a case in which the gauge claims exactly one routable row where two are left |
| Stats.AppStats.constructor | internal/outboxer/stats.go:51-56 | fresh counters are zero and the backlog is an unknown floor |
| Stats.AppStats.AddCommittedBatch | internal/outboxer/stats.go:111-130 | a committed batch adds its counts and replaces the last-batch gauges, ages and durations included; the log baseline and the backlog stay |
| Stats.AppStats.AddBatchError | internal/outboxer/stats.go:132-137 | only the batch error counter moves |
| Stats.AppStats.IntervalSnapshot | internal/outboxer/stats.go:159-170 | the delta since the previous call is returned and the baseline moves to now |
| Stats.LogOverlapping | internal/outboxer/stats.go:159-170 | calls that read the counters at any points, in any order, before they take the mutex log the deltas of Deltas |
| Stats.OverlappingDeltasAddUp | internal/outboxer/stats.go:159-170 | those deltas add up to the counters the last of them read, so nothing is logged twice or left out |
| Stats.NegativeDeltaIff | internal/outboxer/stats.go:163-169 | a delta is negative exactly when its call read the counters earlier than the call logged before it and something was counted in between |
| Stats.IntervalsPartition | internal/outboxer/stats.go:156-170 | over any sequence of calls the logged intervals and the unlogged rest add up to the totals |
| Stats.IntervalsBalanced | internal/outboxer/stats.go:111-170 | if every batch accounts for each selected event once, so do the totals and every logged interval |
| Grouping.GroupByKey | internal/outboxer/sqs/sender.go:210-219 | the loop puts every event into the group of its key, in order, and lists each key once in order of first appearance |
| Grouping.GroupsPartition | internal/outboxer/pubsub/sender.go:66-85 | the groups together are a permutation of the events |
| Grouping.GroupInOrder | internal/outboxer/pubsub/sender.go:66-85 | each group keeps the id order of the batch |
| Chunking.ChunkStandardEvents | internal/outboxer/sqs/sender.go:188-208 | the chunks concatenate to the input, are non-empty, hold at most 10 entries and 1 MiB, and no contiguous split within the limits has fewer chunks |
| SqsSender.SendSqsBatch | internal/outboxer/sqs/sender.go:326-399 | the calls, recorded outcomes, progress flag and error are those of SendBatchRun |
| SqsSender.SendSqsBatchIsolated | internal/outboxer/sqs/sender.go:401-414 | isolation makes one call per event and joins their outcomes in order |
| SqsSender.CallBudget | internal/outboxer/sqs/sender.go:326-414 | a batch of n events costs at most n + 1 calls, and more than one only after a permanent error on the whole batch |
| SqsOutcomes.BatchCalls | internal/outboxer/sqs/sender.go:326-414 | a send calls with all its entries in order first, and once more with each alone, in order, exactly if that call met a permanent error and carried several |
| SqsSender.OutcomesSupported | internal/outboxer/sqs/sender.go:359-398 | an event is confirmed only if a response to a call carrying it lists it, and poisoned only by its own sender fault or a permanent error on a call holding it alone |
| SqsOutcomes.BatchIsExact | internal/outboxer/sqs/sender.go:359-398 | for any number of events with distinct ids and entries, each report about an event rests on an earlier call whose answer says so, and each answer that lists an event, blames its entry, or refuses it alone is followed by that report |
| SqsOutcomes.SettledIffAnswered | internal/outboxer/sqs/sender.go:359-398 | so the confirmed and poisoned events are exactly those the answers settle |
| SqsOutcomes.BatchReturnsAnswers | internal/outboxer/sqs/sender.go:344-398 | progress is reported exactly when some answer was final about something, an error exactly when some answer keeps something for a retry, and it holds exactly the kinds of error those answers carried |
| SqsSender.SingleSend | internal/outboxer/sqs/sender.go:359-398 | progress is reported exactly when the answer settled something, and stands for this event's outcome exactly on attributed answers |
| SqsSender.SendFifoGroup | internal/outboxer/sqs/sender.go:221-237 | the group loop stops at the first undone or failed event, as FifoGroupRun does |
| SqsOutcomes.FifoIsExact | internal/outboxer/sqs/sender.go:221-237 | a prepared event of a FIFO group is confirmed or poisoned exactly as the answers to the calls that carried it say |
| SqsOutcomes.FifoHandlesInTurn | internal/outboxer/sqs/sender.go:221-237 | the turn of an event comes exactly when each older one was invalid or had its call answered cleanly and the context is not done; then it is called, or poisoned if invalid, so a group neither stops early nor goes on from an unclean answer |
| SqsOutcomes.FifoErrorIsExact | internal/outboxer/sqs/sender.go:228-236 | the group's error says exactly what its answers kept back, or that the context was done while an event whose turn had come waited |
| SqsSender.SendWithSemaphore | internal/outboxer/sqs/sender.go:316-324 | a send of any batch makes every call, isolated retries included, while it holds one slot, and gives the slot back; a done context makes no call |
| SqsSender.FifoInTurn | internal/outboxer/sqs/sender.go:210-238 | for every sequence of answers, when an event of a FIFO group goes out each earlier one was recorded or had its own call answered astray |
| SqsSender.FifoOrderIffAttributed | internal/outboxer/sqs/sender.go:210-238 | a group of any length is sent in order exactly when every answer followed by another call settled nothing but the entry it was asked about |
| SqsSender.FifoGroupPrefix | internal/outboxer/sqs/sender.go:210-238 | when every answer is of that kind, one send of a group records exactly a prefix of it |
| SqsSender.NamesOnlyIsAttributed | internal/outboxer/sqs/sender.go:366-393 | an answer that names only requested entries settles nothing else |
| SqsSender.ForeignEntryBreaksOrder | internal/outboxer/sqs/sender.go:369-373 | an answer naming a foreign entry makes the second of two events go out and be confirmed while the first has no outcome |
| SqsQueue.SendFifoQueue | internal/outboxer/sqs/sender.go:210-238 | every group of a FIFO queue runs whatever the others return; the errors are joined in finishing order and hold a sentinel exactly when some group's error does |
| SqsQueue.FifoQueuePrefixes | internal/outboxer/sqs/sender.go:210-238 | with attributed answers one send of a queue records exactly the union of one prefix of each of its groups |
| SqsQueue.FifoQueueInOrder | internal/outboxer/sqs/sender.go:210-238 | with attributed answers no event of a queue is recorded unless every older event of its group is |
| SqsQueue.SendStandardQueue | internal/outboxer/sqs/sender.go:148-208 | each event that cannot be prepared is poisoned, in order and once; the others, in order, go out in the fewest chunks within the limits, each whatever the others return, with at most one call per event and one per chunk |
| SqsQueue.QueueCallBudget | internal/outboxer/sqs/sender.go:179-186 | the calls are one per chunk that got its slot plus one per event of a chunk refused as a whole |
| PubsubSender.SendIsolated | internal/outboxer/pubsub/sender.go:170-192 | an isolated publish performs the operations of IsolatedRun, ordered or not |
| PubsubSender.SendOrderedGroup | internal/outboxer/pubsub/sender.go:136-168 | the ordered loop performs the operations of OrderedGroupRun |
| PubsubSender.OrderedGroupPrefix | internal/outboxer/pubsub/sender.go:136-168 | one send of an ordering-key group records exactly a prefix, all of it if and only if no error is returned, and publishes nothing before every earlier event was recorded |
| PubsubSender.OrderedStories | internal/outboxer/pubsub/sender.go:136-192 | each event of a group is handled exactly if all its elders were recorded; then it is poisoned unpublished if invalid, and otherwise published once, once more alone exactly if the first answer rejects it, and confirmed or poisoned exactly as its last answer says |
| PubsubSender.ConfirmedIffPublished | internal/outboxer/pubsub/sender.go:136-192 | an event is confirmed exactly if a publish of it was answered Published, and poisoned exactly if it is invalid or its isolated publish ended in a permanent error that is not an ordered time-out |
| PubsubSender.OrderedErrorStems | internal/outboxer/pubsub/sender.go:145-165 | a group's error is that of one of its failed publishes, joined with the fatal sentinel if that one timed out |
| PubsubSender.OrderedGroupFatalIff | internal/outboxer/pubsub/sender.go:149-151 | a group returns the fatal sentinel exactly when one of its publishes ended in DeadlineExceeded |
| PubsubSender.KeyInDoubtIffFatal | internal/outboxer/pubsub/sender.go:136-192 | no publish ever uses a paused key or one with a publish still in doubt, and a group leaves its key in doubt exactly when it is fatal, open otherwise |
| PubsubSender.SendUnordered | internal/outboxer/pubsub/sender.go:96-134 | the two loops publish everything first and then await the results in order; the joined error is the fold the loop builds |
| PubsubSender.LaunchInOrder | internal/outboxer/pubsub/sender.go:96-107 | the first loop handles the events in batch order and leaves the publishes of the valid ones pending in that order |
| PubsubSender.UnorderedStories | internal/outboxer/pubsub/sender.go:96-134 | every event of the unordered path is handled, and confirmed or poisoned exactly as its own answers say; there an isolated time-out with a permanent error is poison |
| PubsubSender.UnorderedErrorIs | internal/outboxer/pubsub/sender.go:113-134 | the error holds exactly the kinds of error the publishes of the events kept for a retry ended in |
| PubsubSender.UnorderedNeverFatal | internal/outboxer/pubsub/sender.go:115-132 | the unordered path never returns the fatal sentinel |
| PubsubSender.UnorderedErrorIffUnrecorded | internal/outboxer/pubsub/sender.go:115-132 | it returns no error exactly when every published event was recorded |
| PubsubSender.SplitEvents | internal/outboxer/pubsub/sender.go:66-85 | the dispatch loop splits the events into the unordered ones and the groups by topic and key, each in batch order |
| PubsubSender.GroupIdInjective | internal/outboxer/pubsub/sender.go:81 | group ids of text columns tell topic and key apart |
| PubsubSender.SendEvents | internal/outboxer/pubsub/sender.go:65-94 | the send returns the join of the unordered error and of the groups' errors in finishing order |
| PubsubSender.SendStories | internal/outboxer/pubsub/sender.go:65-94 | in a whole send an event without a key is always handled and one with a key exactly if every earlier event of its topic and key was recorded; each is then confirmed or poisoned exactly as its own answers say |
| PubsubSender.SendFatalIff | internal/outboxer/pubsub/sender.go:65-94 | a send is fatal exactly when some publish of some ordering group of the events sent timed out, in any finishing order and whatever the unordered events did |
| SendSlots.CallsBounded | internal/outboxer/sqs/sender.go:138-141 | in every interleaving at most SendConcurrency calls are in flight across all queues |
| SendSlots.NeverStuck | internal/outboxer/sqs/sender.go:316-324 | every reachable state with unfinished work has a step a goroutine can take, because isolation reuses the held slot |
| SendSlots.RunsAreFinite | internal/outboxer/sqs/sender.go:316-414 | every run of goroutine steps ends |
| SendSlots.SendCompletes | internal/outboxer/sqs/sender.go:316-414 | a goroutine that holds a slot can make every call its send may need and give the slot back, whatever the others do |
| Wakeup.StepKeeps | internal/outboxer/notify.go:68-102 | every step of the loop, its connection, producers and other relays keeps the wake-up invariant |
| Wakeup.NoLostWakeup | internal/outboxer/processor.go:70-94 | if the session was subscribed before the latest select began, a blocked loop with nothing to read has missed no committed row |
| Wakeup.InsertWakes | internal/outboxer/notify.go:68-89 | a committed insert wakes a blocked loop |
| Wakeup.ListenerRecovers | internal/outboxer/processor.go:76-94 | after its connection has failed, and unless it fails again, the loop is subscribed exactly once an idle cycle has listened anew |
| Wakeup.SleepsOnlyWhenEmptyIff | internal/outboxer/processor.go:70-94 | the loop blocks with nothing to read only on an empty outbox exactly when no other relay deletes rows and the session was subscribed since before the latest select |
| Wakeup.RowIsSelectedSoon | internal/outboxer/processor.go:46-94 | whatever happens in between, once the relay has taken four steps of its own some select began whose snapshot holds every row committed before and not removed |
| Wakeup.SelectWithinFour | internal/outboxer/notify.go:68-89 | from every state at most four steps of the relay alone reach a select whose snapshot is the committed table |
| FailureLogger.Logger.constructor | internal/outboxer/failure_logger.go:24-33 | a non-positive window becomes the default one |
| FailureLogger.Logger.ShouldLog | internal/outboxer/failure_logger.go:55-76 | one call answers and updates its signature's entry only |
| FailureLogger.EmissionsSpaced | internal/outboxer/failure_logger.go:55-76 | for any clock readings, two emitted lines of one signature are at least one window apart |
| FailureLogger.EmitsIff | internal/outboxer/failure_logger.go:55-76 | a call emits its line exactly when every earlier line of its signature is at least one window old |
| FailureLogger.CallsAccounted | internal/outboxer/failure_logger.go:55-76 | calls = emitted lines + reported suppressed counts + currently pending suppressed |

## Left out

- AWS, Google, pgx and database/sql clients, TLS and credentials: their results are arbitrary scripts or steps.
- Configuration parsing, HTTP endpoints, metrics text, log output, progress marks, DDL and deployment code: no behaviour beyond plumbing.
- JSON options, payload shape, timestamp parsing and the attribute and id validators: abstract flags of an event (`malformed`, `valid`, `fate`, a byte size).
- The invalid SQS queue URL branch: it poisons every event of its queue and makes no call, which `Reject` covers in the system model.
- Real time: clocks are integers, and timeouts are possible outcomes of calls.
- A stats snapshot read while a batch is being added: fields are separate atomics, so equations are stated between batches.
- The accuracy of the backlog gauge while its probe is throttled: the gauge is stale then by design.
- Relays with different enabled providers or default destinations: a row with empty columns can be routable for both, so route exclusivity is stated for equal routing settings.
- SQL text other than string literals and literal lists: the query is modelled as expressions and relational steps, not as characters.
- Pub/Sub `Flush` calls and the per-topic publisher cache: they only hasten results.
- The failure of a rollback statement: it is only logged, and the server drops the transaction with its connection.
- Inserts between the batches of a `BatchLoop` script: `RelaySystem.dfy` interleaves inserts with every step.
- Designs that exist only in the specifications (pipelining, cursor walk, time budget, advisory locks).
- BatchLoop.Publish: senders run one after the other in the order they finish; their effects meet only in the joined results and in each one's own collector, whose callbacks may interleave in any order.
