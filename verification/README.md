# A verified model of the dtmrs transaction coordinator

dtmrs is a distributed transaction coordinator. It keeps one row per global transaction and one
row per branch operation, in SQL or in Redis; workers lock a row that is due, read the branch rows,
decide, call a branch, write the outcome, and release the row; callers submit, abort and wake
transactions at any moment. This project models those parts and proves what they keep together
over every interleaving, or, where the code does not keep a promise, exactly when it does.

How the model is laid out:

- `Types`, `BranchIds`, `Decisions`: vocabulary, branch numbers, and the advance functions with the
  scans that compute them.
- `Coordinator`, `CoordinatorSafety`, `CoordinatorTheorems`: saga, TCC, XA and two-phase message as
  a step system. Any number of workers, late or repeated replies, crashes, submit and abort calls
  interleave freely. A theorem speaks of every finite sequence of events.
- `CoordinatorHistory`, `CoordinatorRuns`: what rows and status owe to the events of a run, and what
  can always still happen: a worker on its own brings any row to its end.
- `Barrier`: the branch barrier in its SQL and Redis forms, and the query for a prepared message.
- `MessageQuery`: a message composed with its local transaction and the query that asks about it.
- `Effects`, `EffectSafety`, `EffectRuns`: a saga or a message composed with services that put every
  delivery through the barrier, on a store that other transactions use as well.
- `Driver`, `Rounds`, `MessageRound`, `WorkflowRound`: the worker's loops in the form the source gives
  them, over rows, arrays and tables; one round is proved to end and to be a run of `Coordinator`, or
  of `Workflow`.
- `Rows`, `Updates`, `SqlStore`, `RedisStore`, `Leases`: the row operations, the two stores that
  implement them, the SET lists of the SQL statements and their semantics in the dialects, and leases
  on a clock; `LeaseRuns` ties those to the row operations and to the workers' decisions. `Ordering`
  and `RedisScan` are about the order of the schedule index and what its scan misses. `RowLife` is the
  table over whole runs, and `Api` the calls of a client on the Redis store.
- `Workflow`, `WorkflowTheorems`: workflow transactions, whose forward path is a function that is
  replayed after every crash, as a step system with its invariants. The function is known either by
  the branches it may declare at each position, or as a program over the results, errors included,
  that its branches have returned.
- `WorkflowRuns`, `WorkflowCoverage`, `WorkflowRollback`: building runs; what the declared branches
  decide: compensations stored and called, bodies run again; and what makes a workflow roll back.
- `WorkflowCrashFree`, `WorkflowReplay`, `WorkflowPaths`, `WorkflowDeterminism`: deterministic
  programs: the run without crashes, what every replay keeps, runs along given paths, and exactly
  for which programs replay is faithful.
- `WorkflowRows`: the compensation column read back from the branch rows.
- `Topics`: expansion of a message's steps to the subscribers of a topic.

A promise that the code keeps only sometimes is stated as an equivalence: the lemma named
`...Exactly` proves "it holds in all runs if and only if" a condition on the configuration, and
the lemma named `...Run` beside it builds a run that breaks it otherwise.

## Where code and documentation disagree

The model follows the code.

- `submit_prepared` on SQL reads, then updates, and answers "advanced" without looking at the row
  count (crates/dtmrs-store/src/lib.rs:974-1008), so an abort in between leaves two directions in
  flight: `CoordinatorTheorems.OneDirectionExactly`, `CoordinatorTheorems.FailedUntouchedExactly`.
- A saga compensation that answered FAILURE is not called again (crates/dtmrs-core/src/lib.rs:368),
  although the driver schedules a retry for it: `EffectRuns.FailedIsNetZeroExactly`.
- The Redis barrier keeps its keys when the business script refuses
  (crates/dtmrs-barrier/src/redis_barrier.rs:54-56), while a duplicate is answered as success
  (docs/integration.md:89): `EffectRuns.SucceedIsAllOnceExactly`.
- A saga or message without branches is written Succeed even from Aborting
  (crates/dtmrs-server/src/driver.rs:365-369, 648-652): `CoordinatorTheorems.AbortsHoldExactly`. A
  saga without steps is refused at submission (crates/dtmrs-server/src/api.rs:240-252), so in use
  this is a message that was allowed to expand to no subscriber.
- `run_with` does not look at the outcome of registering a branch
  (crates/dtmrs-server/src/workflow.rs:226-231). A function that declares another compensation
  address on replay, or a clash between two runners, runs the body with the address not stored:
  `WorkflowCoverage.CoveredExactly`. On Redis the two commands of a registration can be torn apart
  by a crash, so that even the name check does not stop such a function.
- A refused branch is not memoised (crates/dtmrs-server/src/workflow.rs:211-215), and nothing
  enforces that a function ends after one. A deterministic function that opens another branch
  instead can diverge, or succeed with that branch left behind:
  `WorkflowDeterminism.NeverDivergesExactly`, `WorkflowDeterminism.FaithfulExactly`. On Redis a torn
  registration can also lose a result, and bring about a divergence that way:
  `WorkflowDeterminism.TornDiverges`.
- Branch numbers above 10000 are not read back (crates/dtmrs-server/src/driver.rs:964-969), and a
  workflow registers branches without the guard that TCC and XA have, so such a compensation is
  never called: `WorkflowCoverage.FailedIsUndoneExactly`.
- The keys of the Redis barrier are joined with "-", which also occurs in fan-out branch numbers.
  Within one transaction that does no harm; across transactions it does exactly when some branch
  number ends in a dash and another one: `Barrier.RedisDecidesAlikeExactly`,
  `Barrier.AnyTransactionSeparableExactly`.
- A local transaction that refuses on Redis is reported as committed to later queries, since its
  key stays (crates/dtmrs-barrier/src/redis_barrier.rs:54-56), and so is one whose key another
  transaction has set: `Barrier.QueryTrueExactly`, `Barrier.QueriesTrueExactly`.
- The local transaction of a message is recorded under the number of its first plain branch
  (crates/dtmrs-barrier/src/redis_barrier.rs:246-272), so on the same store that branch is judged a
  duplicate and never happens: `EffectRuns.MessageWithLocalExactly`.

- The SQL `submit_prepared` hands the submitter a transaction patched up from what it read, with the
  backoff it had, while the row itself has none (crates/dtmrs-store/src/lib.rs:1003-1008); the Redis
  script reads it back after writing: `SqlStore.Store.SubmitPrepared`, `RedisStore.Store.SubmitPrepared`.

## Model

| member | source | states |
|---|---|---|
| Types.ContestedMatchesOutsideWriters | crates/dtmrs-core/src/lib.rs:303-313 | the statuses called contested are exactly those an abort or a submit can move |
| BranchIds.IndexOfBranchId | crates/dtmrs-server/src/driver.rs:943-969 | parsing inverts numbering for indices up to 9999 and rejects every other number |
| BranchIds.CanonicalExactly | crates/dtmrs-server/src/driver.rs:970-989 | a string passes the registration guard exactly when it is the number of some accepted index |
| BranchIds.ParsedButNotCanonical | crates/dtmrs-server/src/driver.rs:970-989 | "1", "001" and "+1" parse to the first branch and are refused by the guard |
| Decisions.SagaAdvance | crates/dtmrs-core/src/lib.rs:340-380 | the scan calls the first pending action, turns back at a refused one, and undoes from the last pending compensation, skipping refused ones |
| Decisions.TwoPhaseAdvance | crates/dtmrs-core/src/lib.rs:661-699 | the scan calls the first (last) branch of its direction that is not done, refused or not |
| Decisions.MsgFanoutAdvance | crates/dtmrs-core/src/lib.rs:948-972 | all unfinished branches of the first unfinished step are called, and no other |
| Decisions.SagaDecides | crates/dtmrs-core/src/lib.rs:340-380 | for all rows: which call, which end, or waiting, each exactly when, in terms of the rows alone |
| Decisions.TwoPhaseDecides | crates/dtmrs-core/src/lib.rs:661-699 | the same for TCC and XA |
| Decisions.WorkflowDecides | crates/dtmrs-core/src/lib.rs:1339-1358 | the same for workflows |
| Decisions.MsgDecides | crates/dtmrs-core/src/lib.rs:948-972 | the same for messages |
| Decisions.FanoutOfSingletons | crates/dtmrs-core/src/lib.rs:948-972 | with one branch per step, fan-out is delivery in order |
| CoordinatorTheorems.StatusOrder | crates/dtmrs-server/src/driver.rs:781-802 | from every reachable state every event moves the stored status along an allowed edge or not at all |
| CoordinatorTheorems.FinalAbsorbs | crates/dtmrs-store/src/lib.rs:734-763 | a final status never changes again, whatever events follow |
| CoordinatorTheorems.AbortsHoldExactly | crates/dtmrs-server/src/api.rs:643-706 | after an abort was answered Ok the transaction never becomes Succeed, iff the branch list is non-empty or the mode is TCC or XA |
| CoordinatorTheorems.OneDirectionExactly | crates/dtmrs-server/src/driver.rs:481-587 | no run of a TCC or XA transaction calls both a confirm (commit) and a cancel (rollback), iff submit is atomic or the submitter does not drive the row |
| CoordinatorTheorems.BothDirectionsRun | crates/dtmrs-store/src/lib.rs:974-1008 | with the SQL submit and an inline driver, an abort between read and update sends both confirm and cancel |
| CoordinatorTheorems.FailedUntouchedExactly | crates/dtmrs-server/src/driver.rs:596-736 | a message that ends Failed never had a branch called, under the same condition |
| CoordinatorTheorems.SucceedMeansAllAcked | crates/dtmrs-server/src/driver.rs:363-476 | Succeed implies that every branch was acknowledged: Confirm for TCC, Commit for XA, Action for saga and message |
| CoordinatorTheorems.FailedMeansAllUndone | crates/dtmrs-server/src/driver.rs:363-587 | Failed implies that every branch was undone: Cancel for TCC and Rollback for XA acknowledged, Compensate for a saga at least answered |
| CoordinatorTheorems.CallsMatchRow | crates/dtmrs-server/src/driver.rs:459-476 | only operations of the mode are called; undo calls belong to a row that aborts or failed, forward calls, where the direction is settled, to one that goes on or succeeded |
| CoordinatorTheorems.ForwardInOrder | crates/dtmrs-core/src/lib.rs:340-380 | a forward call is made only after every earlier branch (step) was acknowledged, across workers and crashes |
| CoordinatorTheorems.BackwardInReverse | crates/dtmrs-core/src/lib.rs:340-380 | an undo call is made only after every later one was answered |
| CoordinatorTheorems.UncontestedRow | crates/dtmrs-store/src/redis_store.rs:615-677 | a worker whose status is uncontested finds the row in that status or already in the one it writes |
| CoordinatorTheorems.ShortcutRefinesCompare | crates/dtmrs-store/src/redis_store.rs:615-677 | every run with the Redis shortcut ends in the very state of the same run with full comparison |
| CoordinatorHistory.RowsTellReplies | crates/dtmrs-server/src/driver.rs:405-446 | in every reachable state a branch row is pending iff no reply that counts was heard for its call, and otherwise shows one that was |
| CoordinatorHistory.MessageFollowsAnswers | crates/dtmrs-server/src/driver.rs:596-640 | over all runs: a message its caller did not submit becomes submitted only after a query was answered Success; one that was not aborted becomes failed only after a query was answered Failure |
| CoordinatorHistory.SagaTurnsBackOnlyFor | crates/dtmrs-server/src/driver.rs:405-446 | over all runs a saga turns back only for an abort or for an action that was answered Failure; unknown replies never undo anything |
| CoordinatorHistory.TwoPhaseTurnsBackOnlyFor | crates/dtmrs-server/src/driver.rs:208-242 | over all runs a TCC or XA transaction turns back only for an abort or the prepared time limit, and goes forward only when it was submitted |
| CoordinatorRuns.RunningRowEnds | crates/dtmrs-server/src/driver.rs:244-250 | from every reachable state any worker can lock a running row and bring it on its own to the end that status and refusals call for |
| CoordinatorRuns.PreparedTimesOut | crates/dtmrs-server/src/driver.rs:208-242 | a prepared TCC or XA row can be timed out and undone to Failed |
| CoordinatorRuns.PreparedIsAsked | crates/dtmrs-server/src/driver.rs:596-611 | every prepared message can be asked about |
| CoordinatorRuns.QueryDecides | crates/dtmrs-server/src/driver.rs:611-640 | the answer Success takes an undisturbed prepared message to Succeed, Failure to Failed with nothing called, any other changes nothing |
| CoordinatorRuns.RefusalRollsBack | crates/dtmrs-server/src/driver.rs:418-436 | a refused action: the same worker turns the saga back and undoes it to Failed |
| CoordinatorRuns.OtherRepliesEndTheRound | crates/dtmrs-server/src/driver.rs:437-446 | every other reply but Success ends the round; only a definite refusal is booked, on that very row |
| CoordinatorRuns.MissedStays | crates/dtmrs-server/src/driver.rs:703-735 | a worker of a message that missed one acknowledgement makes no further call in any run until it locks the row again |
| CoordinatorRuns.WriteIsCompareWrite | crates/dtmrs-server/src/driver.rs:781-802 | on either backend a status write in a reachable state moves the row iff it is in the status the worker holds; a worker that lost is gone |
| CoordinatorRuns.SubmitLeadsToSucceed | crates/dtmrs-server/src/api.rs:192-220 | submitting a prepared transaction moves it, and its own or any other worker can bring it to Succeed |
| CoordinatorRuns.SubmitOnlyMovesPrepared | crates/dtmrs-store/src/lib.rs:974-1008 | submitting anything else leaves the row as it is |
| CoordinatorRuns.AbortAnswers | crates/dtmrs-server/src/api.rs:643-706 | an undisturbed abort: refused without effect, Ok on an aborting row, or the row aborts and the answer is Ok, each exactly when |
| CoordinatorRuns.LostAbortChangesNothing | crates/dtmrs-server/src/api.rs:682-694 | an abort whose row has moved since it was read changes nothing |
| Barrier.BranchBarrier.DecideCall | crates/dtmrs-barrier/src/lib.rs:124-205 | the two inserts and the counter decide as the judgement function does and leave its rows |
| Barrier.DecisionExactly | crates/dtmrs-barrier/src/lib.rs:158-205 | for every table and call: null compensation, duplicate or execute, each exactly when, by the records of the call and of what it undoes |
| Barrier.PairsAre | crates/dtmrs-core/src/lib.rs:235-246 | cancel undoes try, compensate and rollback undo action, and nothing else undoes anything |
| Barrier.DecideRefines | crates/dtmrs-barrier/src/lib.rs:158-205 | on each (gid, branch, barrier id) the table is a four-state machine, and other branches are untouched |
| Barrier.PhaseCountsRuns | crates/dtmrs-barrier/src/lib.rs:158-181 | over any history of committed and rolled-back calls, forward ran at most once, undo at most once and only after forward |
| Barrier.UndoBlocksForward | crates/dtmrs-barrier/src/lib.rs:158-181 | once the undo has committed, forward never runs again |
| Barrier.MixedUndoRuns | crates/dtmrs-core/src/lib.rs:235-242 | compensate and rollback share an origin, so a rollback after a null compensation executes although the action never ran |
| Barrier.RedisBarrier.RunScript | crates/dtmrs-barrier/src/redis_barrier.rs:138-207 | the script sets origin and own key, and reports a refusal iff the business part was reached and refused |
| Barrier.OutcomeExactly | crates/dtmrs-barrier/src/redis_barrier.rs:161-203 | for every key space and call: each of the four outcomes exactly when, by the two keys and the refusal, and which keys are there afterwards |
| Barrier.QueryKeyText | crates/dtmrs-barrier/src/redis_barrier.rs:246-251 | the query looks at the key of action "01" under the first barrier id |
| Barrier.RedisKeyExactly | crates/dtmrs-barrier/src/redis_barrier.rs:116-121 | two calls share a key string iff operation and barrier id agree and gid and branch number read the same when joined |
| Barrier.AnyTransactionSeparableExactly | crates/dtmrs-barrier/src/redis_barrier.rs:116-121 | over all transactions no two branches read the same when joined, iff no branch number in use ends in a dash and another one |
| Barrier.OneTransactionIsSeparable | crates/dtmrs-barrier/src/redis_barrier.rs:116-121 | within one transaction branch numbers never collide, fan-out numbers included |
| Barrier.FanOutNumbersCollide | crates/dtmrs-core/src/lib.rs:905-930 | a fan-out number and the plain number it ends in cannot be told apart across transactions |
| Barrier.RedisSameDecision | crates/dtmrs-barrier/src/redis_barrier.rs:138-207 | in a separable scope the script decides as the SQL table does and stays in line with it, call by call |
| Barrier.RedisDecidesAlikeExactly | crates/dtmrs-barrier/src/redis_barrier.rs:138-207 | both forms decide every history of calls alike, iff the transactions and branch numbers in use are separable |
| Barrier.RedisKeyCollision | crates/dtmrs-barrier/src/redis_barrier.rs:116-121 | of any two actions that read the same when joined, the second is judged a duplicate on Redis and executes on SQL |
| Barrier.QueryTrueExactly | crates/dtmrs-barrier/src/redis_barrier.rs:246-272 | after any history of local transactions, queries and other calls on the same Redis, the answer is true iff the key was not first set by a local transaction that refused, nor by another call |
| Barrier.QueriesTrueExactly | crates/dtmrs-barrier/src/redis_barrier.rs:246-272 | all queries about a message are answered truly, iff local transactions do not refuse and no other call sets the key |
| Barrier.OtherTransactionsSetIt | crates/dtmrs-barrier/src/redis_barrier.rs:116-121 | which calls set it: those on an action whose gid and branch number read like the message's first branch |
| Barrier.QueryAnswerIsFinal | crates/dtmrs-barrier/src/redis_barrier.rs:246-272 | the answer to a prepared query never changes, and after "not committed" the local transaction cannot commit any more |
| MessageQuery.FailedIsNotCommitted | crates/dtmrs-server/src/driver.rs:596-640 | over every run of message, local transaction, queries and late answers: a message that failed without being aborted has no committed local transaction |
| MessageQuery.SubmittedIsCommittedExactly | crates/dtmrs-server/src/driver.rs:596-640 | a message that moved on without being submitted by its caller has a committed local transaction, over every run, iff the local transaction never refuses and no other party sets the key the query looks at |
| Effects.JudgedByBranch | crates/dtmrs-barrier/src/redis_barrier.rs:138-207 | the SQL table and the Redis keys judge a call of one transaction alike, by the two records of its branch, and record it there alone |
| Effects.ScriptedDelivery | crates/dtmrs-barrier/src/redis_barrier.rs:161-203 | with the Redis barrier a delivery is declined iff the script reports a refusal, and takes effect iff it reports execution |
| Effects.OthersLeaveAlone | crates/dtmrs-barrier/src/redis_barrier.rs:116-121 | calls of other parties that take no place of a branch leave its records alone |
| EffectRuns.SucceedIsAllOnceExactly | crates/dtmrs-server/src/driver.rs:363-452 | for sagas and messages, over every interleaving, delivery and call of other parties on the store: Succeed means each effect exactly once and none undone, iff no other party takes the place of a branch and the Redis barrier is not combined with refusable actions |
| EffectRuns.FailedIsNetZeroExactly | crates/dtmrs-server/src/driver.rs:363-452 | for sagas: Failed means net effect zero on every branch, iff in addition no compensation is ever refused |
| EffectRuns.ClearOfOthersExactly | crates/dtmrs-barrier/src/redis_barrier.rs:116-121 | other transactions take no place, iff the store is SQL or no gid and branch number of theirs read like ours when joined |
| EffectRuns.SeparableIsClear | crates/dtmrs-barrier/src/redis_barrier.rs:116-121 | separable gids and branch numbers are enough |
| EffectRuns.MessageWithLocalExactly | crates/dtmrs-barrier/src/redis_barrier.rs:246-272 | a message whose local transaction uses the same store has each effect exactly once, iff none of its branches has the number "01" and no refusal is kept |
| EffectRuns.TakenPlaceRun | crates/dtmrs-barrier/src/redis_barrier.rs:116-121 | where another party takes the place of a branch, the transaction succeeds without that effect |
| EffectRuns.TakenPlaceFailsRun | crates/dtmrs-barrier/src/redis_barrier.rs:116-121 | and a saga fails with that branch out of balance |
| EffectRuns.SkippedCompensationRun | crates/dtmrs-core/src/lib.rs:365-373 | a refused compensation is skipped and the saga ends Failed with the effect in place |
| EffectRuns.OvercompensationRun | crates/dtmrs-barrier/src/redis_barrier.rs:138-207 | a refused action leaves its key, and its compensation then undoes what never happened |
| EffectRuns.LostRefusalRun | crates/dtmrs-barrier/src/redis_barrier.rs:138-207 | when the refusal is lost the repeated call counts as success, and the saga succeeds without the effect |
| Driver.BranchStates | crates/dtmrs-server/src/driver.rs:805-830 | the two columns of a saga: action and try rows forward, compensate, cancel and rollback rows back, the last row of each branch deciding |
| Driver.SplitByOps | crates/dtmrs-server/src/driver.rs:992-1014 | the arrays filled row by row hold for each branch the last row that parses to it, and are pending elsewhere |
| Driver.CompensateStates | crates/dtmrs-server/src/driver.rs:1020-1039 | the same for compensations, done where there is none, as long as the highest one |
| Rounds.WrittenIsReadExactly | crates/dtmrs-server/src/driver.rs:970-1014 | a status the driver writes under the regenerated number is the one it reads back, iff the deciding row carries that number |
| Rounds.CanonicalRowsDoNotAlias | crates/dtmrs-server/src/driver.rs:970-989 | the registration guard and the primary key make the lookup faithful |
| Rounds.SagaRows | crates/dtmrs-server/src/lib.rs:63-86 | the nested loops create exactly one action and one compensate row per step, all found again by number |
| Rounds.Transition | crates/dtmrs-server/src/driver.rs:781-802 | the driver's compare-and-write, with an abort landing before it or not, is the machine's write |
| Rounds.ProcessSaga | crates/dtmrs-server/src/driver.rs:363-452 | one round ends after at most 2n calls for any replies and aborts, and is a run of the step machine with exactly those calls; if every reply is success and no abort lands it ends Succeed, or Failed where the saga was aborting or an action stands refused |
| Rounds.DriveTwoPhase | crates/dtmrs-server/src/driver.rs:455-587 | one round ends after at most n calls and is a run of the step machine; a submitted TCC calls only confirm and an aborting one only cancel, XA commit and rollback; undisturbed it ends Succeed or Failed accordingly; unreadable rows never finish the transaction |
| MessageRound.FanOut | crates/dtmrs-server/src/driver.rs:690-735 | the branches of a step answer in any order, each success is booked, and one miss ends the round; a run of the step machine |
| MessageRound.ProcessMsg | crates/dtmrs-server/src/driver.rs:596-736 | one round is a run of the step machine, calls no branch twice and none that is delivered; the query decides as it is answered, an aborted message with branches fails without a call, and an undisturbed one succeeds |
| WorkflowRound.Compensations | crates/dtmrs-server/src/driver.rs:1020-1039 | the column computed from the stored compensations is the machine's |
| WorkflowRound.RunFunction | crates/dtmrs-server/src/workflow.rs:189-260 | running the function on a context, branch by branch, is a run of the step machine |
| WorkflowRound.ProcessWorkflow | crates/dtmrs-server/src/driver.rs:258-359 | one round ends and is a run of the step machine; undisturbed it succeeds if the function returns, ends Failed with every legible compensation done if it asks for rollback or the row aborts, and leaves the row where it is otherwise |
| WorkflowRows.CompensationsReadBack | crates/dtmrs-server/src/driver.rs:1020-1039 | the column read from the rows, in any order, is the one the workflow machine decides on |
| SqlStore.Store.LockOneDue | crates/dtmrs-store/src/lib.rs:830-890 | some due row is locked whenever there is one, and nothing else changes |
| SqlStore.Store.Transition | crates/dtmrs-store/src/lib.rs:734-763 | the row changes exactly if it is in the expected status |
| SqlStore.Store.ReleaseLease | crates/dtmrs-store/src/lib.rs:932-953 | the row is released only under the caller's token, keeping an earlier wake-up |
| SqlStore.Store.SubmitPrepared | crates/dtmrs-store/src/lib.rs:964-1010 | undisturbed, the read and the update move the row as the one atomic step of Redis does, with the same verdict; the row handed back keeps the old backoff; disturbed they are two events of `Coordinator` |
| SqlStore.Store.CreateGlobal | crates/dtmrs-store/src/lib.rs:525-584 | a row that exists is left as it is and the answer is no; otherwise exactly that row is added |
| RedisStore.Store.CreateGlobal | crates/dtmrs-store/src/redis_store.rs:328-405 | the same, and the row is indexed iff schedulable |
| RedisStore.Store.LockOneDue | crates/dtmrs-store/src/redis_store.rs:447-503 | what is locked is due in the SQL sense; nothing is found iff the first 20 due members are all under lease; the index stays exact |
| RedisStore.Store.SetGlobalStatus | crates/dtmrs-store/src/redis_store.rs:526-608 | row and index change together; where there is no row, a status not to be scheduled leaves a fragment and any other nothing |
| RedisStore.Store.Transition | crates/dtmrs-store/src/redis_store.rs:615-677 | compares exactly when the status is contested, and keeps the index exact |
| RedisStore.Store.ReleaseLease | crates/dtmrs-store/src/redis_store.rs:680-718 | the same row change as SQL, with the index kept exact |
| RedisStore.Store.SubmitPrepared | crates/dtmrs-store/src/redis_store.rs:818-875 | one step: the row is moved and the caller told so exactly if it was prepared |
| RedisStore.Store.ScheduleNow | crates/dtmrs-store/src/redis_store.rs:877-905 | the same row change as SQL, with the index kept exact |
| RedisStore.BlindWriteIsCompareWriteExactly | crates/dtmrs-store/src/redis_store.rs:615-677 | the unconditional write leaves what the SQL statement leaves, iff the row is in the expected status or already as it would be written, or is missing and the status is to be scheduled |
| RedisStore.StoresMoveAsMachine | crates/dtmrs-store/src/redis_store.rs:615-875 | the status moves of both stores are those of the step machine: writing with and without comparison, submitting, being lockable, and nothing at all for creating again |
| RedisScan.HeadUnique | crates/dtmrs-store/src/redis_store.rs:447-503 | the head that the scan looks at is determined, ties included |
| RedisScan.ScanMissesExactly | crates/dtmrs-store/src/redis_store.rs:447-503 | while a free row is due, the scan of twenty finds nothing, iff twenty due rows under lease stand ahead of every free one, by score and then by name |
| RedisScan.HiddenRow | crates/dtmrs-store/src/redis_store.rs:447-503 | creating, locking and waking twenty sagas hides a new one that is due |
| RowLife.CreatedOnce | crates/dtmrs-store/src/redis_store.rs:335-341 | however often a transaction is created, only the first time counts |
| RowLife.RowsStay | crates/dtmrs-store/src/lib.rs:525-584 | over all runs of table operations a transaction stays, keeps its mode, and its retry count never falls |
| RowLife.FinalStays | crates/dtmrs-store/src/lib.rs:734-763 | a final status and its reason are kept over all runs, whatever is created, submitted, locked, woken or released again |
| RowLife.SubmittedOnce | crates/dtmrs-store/src/lib.rs:974-1008 | submitting moves a prepared row once, and nothing after that |
| RowLife.EventsApart | crates/dtmrs-store/src/lib.rs:734-1026 | what becomes of one transaction is decided by its own events alone |
| Api.Submit | crates/dtmrs-server/src/api.rs:227-300 | which submissions are refused, what is created, moved and handed to the submitter |
| Api.SubmitTwice | crates/dtmrs-server/src/api.rs:227-300 | repeating an accepted submission, with whatever arguments, changes nothing and is accepted; nothing that exists is replaced |
| Api.Abort | crates/dtmrs-server/src/api.rs:636-706 | for any interference: the first attempt that does not lose its comparison decides, after five lost ones it gives up, and only a successful one changes the row |
| Api.Retry | crates/dtmrs-server/src/api.rs:708-722 | a transaction that is not over is put at the head of the queue, any other is refused untouched |
| Updates.OrderDoesNotMatter | crates/dtmrs-core/src/dialect.rs:14-22 | left-to-right and simultaneous SET lists agree whenever no expression reads a column assigned before it |
| Updates.ReleaseListMeansRelease | crates/dtmrs-store/src/lib.rs:928-942 | the SET list of release_lease means the release operation under both semantics |
| Updates.LockListMeansLock | crates/dtmrs-store/src/lib.rs:874-888 | and that of lock_one_due the lock |
| Updates.SubmitListMeansSubmit | crates/dtmrs-store/src/lib.rs:988-1002 | and that of submit_prepared the submit |
| Updates.StatusListMeansSetStatus | crates/dtmrs-store/src/lib.rs:747-763 | and that of transition the status write, where only a new reason replaces an old one |
| Updates.ScheduleListsMeanSchedules | crates/dtmrs-store/src/lib.rs:901-1024 | and those of schedule_retry and schedule_now |
| Updates.ClearingLeaseFirstDiffers | crates/dtmrs-store/src/lib.rs:928-942 | with the lease cleared first the two semantics differ |
| Leases.WakeUpKept | crates/dtmrs-store/src/lib.rs:932-953 | a wake-up survives the holder's release, with backoff cleared, iff it came before the lease expired |
| Leases.ExclusiveExactly | crates/dtmrs-store/src/lib.rs:830-953 | at most one unreleased session holds an unexpired lease, iff the row is created submitted |
| Leases.PunctualRoundsDoNotOverlap | crates/dtmrs-store/src/lib.rs:830-890 | while every worker still at a row created submitted is within its lease, there is at most one and nobody can lock the row beside it |
| Leases.OutrunLeaseRun | crates/dtmrs-store/src/lib.rs:830-890 | a worker still at it when its lease ends can be joined by another |
| Leases.StaleReleaseChangesNothing | crates/dtmrs-store/src/lib.rs:932-953 | a release by a session whose lease was taken over changes nothing |
| Leases.RecoverableExactly | crates/dtmrs-store/src/lib.rs:874-953 | a running row can be locked by now + max(lease, longest backoff) in every reachable state, iff created submitted, or first due that soon, or a message with an abort in one step |
| Leases.BackoffDoubles | crates/dtmrs-core/src/lib.rs:426-431 | the interval after n + 1 retries is the initial one doubled n times, up to the cap |
| LeaseRuns.RowFollowsOperations | crates/dtmrs-store/src/lib.rs:830-1026 | whatever the event, the leased row moves by the operations of the stores alone |
| LeaseRuns.SessionsKnow | crates/dtmrs-store/src/lib.rs:889-898 | what a worker knows: lease end, status and backoff as it was handed them, and the status it has written since |
| LeaseRuns.WhenPossible | crates/dtmrs-server/src/api.rs:643-706 | when a row can be locked, aborted, submitted, written and released |
| LeaseRuns.MovesAreTargets | crates/dtmrs-server/src/driver.rs:208-242 | from the deadline on, the status writes here are those the workers of `Coordinator` attempt, and for a workflow those of `Workflow` |
| LeaseRuns.BackoffRun | crates/dtmrs-server/src/driver.rs:738-743 | a transaction that is retried n times in a row has the n-th backoff and retry count n |
| Topics.ExpandMsgSteps | crates/dtmrs-core/src/lib.rs:888-938 | the loops yield the expansion, or the error of the first step that cannot be expanded |
| Topics.StepErrorExactly | crates/dtmrs-core/src/lib.rs:905-922 | which of the two errors a step is, exactly when, by its action string and the subscriptions |
| Topics.TopicNames | crates/dtmrs-core/src/lib.rs:822-824 | an action names a topic iff it is the prefix followed by the name |
| Topics.ExpansionInOrder | crates/dtmrs-core/src/lib.rs:888-938 | every branch goes to one subscriber of the topic its step names, or to the plain address, with that step's payload and numbers; steps ascending, subscribers in order |
| Topics.NobodyLeftOut | crates/dtmrs-core/src/lib.rs:888-938 | every subscriber of every step, and every plain address, has its branch |
| Topics.NobodyTwice | crates/dtmrs-core/src/lib.rs:888-938 | and only one |
| Topics.EmptyTopicsReported | crates/dtmrs-core/src/lib.rs:909-918 | every step whose topic nobody subscribes to is reported, at its place |
| Topics.EmptyTopicsOrigin | crates/dtmrs-core/src/lib.rs:909-918 | and nothing else is |
| Topics.ExpansionDistinct | crates/dtmrs-core/src/lib.rs:888-938 | branch numbers of an expansion are pairwise distinct |
| Topics.LookupFaithful | crates/dtmrs-server/src/driver.rs:656-673 | a branch's number is among the finished ones iff that very branch is finished |
| Topics.FillDefaults | crates/dtmrs-core/src/lib.rs:857-867 | missing numbers and steps are filled in place by position, and nothing else changes |
| Topics.DefaultsKeepExpansion | crates/dtmrs-core/src/lib.rs:857-867 | an expanded branch is left alone, whatever its place |
| Topics.DefaultsMatchExpansion | crates/dtmrs-core/src/lib.rs:850-867 | rows written before fan-out existed get the numbers an expansion gives them |
| Workflow.Tables.RegisterBranch | crates/dtmrs-store/src/lib.rs:1045-1101 | undisturbed: compensation first, each insert-if-absent; a clash undoes the registration on SQL and stops it on Redis |
| Workflow.WorkflowCtx.RunWith | crates/dtmrs-server/src/workflow.rs:189-260 | divergence before memo, memo before body, registration before the body, the result stored only on success |
| WorkflowTheorems.StatusOrder | crates/dtmrs-server/src/driver.rs:258-359 | with any number of runners the status only moves along its three edges |
| WorkflowTheorems.AbortHolds | crates/dtmrs-server/src/api.rs:643-706 | once an abort has landed no continuation ends in Succeed |
| WorkflowTheorems.BlindWriteAgrees | crates/dtmrs-store/src/redis_store.rs:615-677 | the unconditional write at the end of a rollback leaves the row as comparing would |
| WorkflowRuns.RollbackCompletes | crates/dtmrs-server/src/driver.rs:258-359 | from every reachable state a worker that rolls back can bring it to Failed on its own, every legible compensation acknowledged |
| WorkflowRuns.GivesUpRollsBack | crates/dtmrs-server/src/driver.rs:295-305 | wherever a function may ask for rollback and the row is submitted, the same worker can bring it to Failed, every legible compensation acknowledged |
| WorkflowRuns.AbortingRowEnds | crates/dtmrs-server/src/driver.rs:258-359 | so can any worker that locks an aborting row |
| WorkflowRollback.WholeRunFails | crates/dtmrs-server/src/driver.rs:258-359 | for every path of results on which a program asks for rollback, the uninterrupted run exists and ends Failed with the rows of that path and exactly its legible compensations acknowledged |
| WorkflowRollback.TurnsOnlyWhenAskedExactly | crates/dtmrs-server/src/workflow.rs:236-259 | over all runs that do not diverge, a rollback was asked for by the caller or by a refused branch, iff the function gives up only after a refused branch; unknown replies and crashes never roll back |
| WorkflowRollback.OnlySuccessCounts | crates/dtmrs-server/src/workflow.rs:234-259 | only a body that answers Success adds a result, and only a compensation that answers Success counts as acknowledged |
| WorkflowCoverage.CoveredExactly | crates/dtmrs-server/src/workflow.rs:217-233 | over all runs, every compensation whose branch's body ever started is stored at the address it was declared with, iff any two declarations for a position are compatible: same address, unless the name tells them apart on SQL without overlap, and no address beside another name without one on SQL with overlap |
| WorkflowCoverage.AddressChangedRun | crates/dtmrs-server/src/workflow.rs:226-231 | with one runner on either backend, a function that declares another address for the same name runs the body with it not stored |
| WorkflowCoverage.HalfRegisteredRun | crates/dtmrs-store/src/redis_store.rs:918-968 | on Redis a crash between the two commands of a registration lets that happen under another name as well |
| WorkflowCoverage.RolledBackRun | crates/dtmrs-store/src/lib.rs:1088-1098 | on SQL with overlap a clash of names rolls the compensation back and the body runs |
| WorkflowCoverage.SomeCompensationStored | crates/dtmrs-server/src/workflow.rs:217-233 | some compensation row exists, at whatever address, if runs do not overlap or the rows are in Redis |
| WorkflowCoverage.FailedIsUndoneExactly | crates/dtmrs-server/src/driver.rs:258-359 | Failed means that exactly the registered compensations were acknowledged, iff every compensation is declared within the first 10000 branches and runs do not overlap |
| WorkflowCoverage.IllegibleRun | crates/dtmrs-server/src/driver.rs:964-969 | a compensation of a later branch is registered and never called |
| WorkflowCoverage.NeverRerunExactly | crates/dtmrs-server/src/workflow.rs:193-215 | no body runs again after its result was stored, iff runs do not overlap |
| WorkflowCoverage.UndoneInReverse | crates/dtmrs-core/src/lib.rs:1339-1358 | only registered compensations are called, each after all later ones were acknowledged |
| WorkflowCrashFree.WholeRunFinishes | crates/dtmrs-server/src/workflow.rs:189-260 | for every path of results, errors included, on which a program returns, the uninterrupted run exists, succeeds, and leaves exactly the rows of that path |
| WorkflowDeterminism.ReplaySafeExactly | crates/dtmrs-server/src/workflow.rs:189-260 | for any deterministic function, either backend, with or without overlap: no run diverges and no result lacks a row, iff related paths of equal length give the next branch the same name and, on Redis, not two addresses |
| WorkflowDeterminism.NeverDivergesExactly | crates/dtmrs-server/src/workflow.rs:193-204 | no run diverges, iff those names agree; without overlap related paths repeat each other's values, with overlap any two are related |
| WorkflowDeterminism.FaithfulExactly | crates/dtmrs-server/src/workflow.rs:189-260 | replay is safe and every succeeded transaction is in the state of one uninterrupted run with the same results, iff paths agree and none opens anything that a related path to the end does not |
| WorkflowDeterminism.SucceededLikeCrashFree | crates/dtmrs-server/src/workflow.rs:189-260 | under that condition, whatever crashes and unknown results it went through, a succeeded transaction is in the state of one uninterrupted run |
| WorkflowDeterminism.StoppingIsFaithful | crates/dtmrs-server/src/workflow.rs:189-260 | a function that opens no branch after a failed one meets the condition with one runner |
| WorkflowDeterminism.ClassFaithfulExactly | crates/dtmrs-server/src/workflow.rs:189-260 | for classes of functions: all of them are faithful, iff runs do not overlap and none goes on after an error |
| WorkflowDeterminism.OtherNameRun | crates/dtmrs-server/src/workflow.rs:193-204 | two related paths with different names give a run that diverges |
| WorkflowDeterminism.OtherAddressRun | crates/dtmrs-store/src/redis_store.rs:918-968 | two related paths with different addresses give a run on Redis whose result is lost |
| WorkflowDeterminism.TornDiverges | crates/dtmrs-store/src/redis_store.rs:918-968 | on Redis with one runner names may agree and a run diverge all the same, after a torn registration |
| WorkflowDeterminism.TwoStoriesRun | crates/dtmrs-server/src/workflow.rs:211-253 | a path that opens what a related path to the end does not gives a succeeded transaction with that branch left behind |
| WorkflowDeterminism.HandlerFails | crates/dtmrs-server/src/workflow.rs:211-253 | for instance a function that answers a refusal with another branch |

## Left out

- Leases and time in `Coordinator` and `Workflow`: workers there overlap at will (in `Workflow`, as
  the configuration says), which covers every timing; `Leases` treats time on its own.
- Registering TCC and XA branches while a worker is driving: the branch set is fixed from the start.
- Prepared deadlines: a prepared TCC or XA row may time out at any moment in `Coordinator`; how the
  deadline is computed is not modelled.
- Several barrier calls in one delivery: `Effects` has one per delivery. Services of one transaction
  share one store there.
- Rounds.ProcessSaga: sagas of more than 10000 steps, which would never end; the column limit of
  the stored payload keeps them out.
- The address and the payload that a branch call goes out with: a call is a branch index and an operation.
- What happens later to the fragment that a status write leaves where there was no transaction: its
  absent fields read as defaults, but scripts that need an absent field skip it.
- Workflow.Tables.RegisterBranch: a crash between its two inserts on Redis; the step system has that
  moment as a state of its own.
- On Redis, the status of a branch whose definition was never stored: the source keeps it aside until
  a definition appears, and the workflow driver treats it like a pending one either way.
- WorkflowDeterminism.NeverDivergesExactly: on Redis with one runner, functions whose addresses
  disagree; agreeing names are necessary there and not sufficient (`TornDiverges`), and the exact
  condition is given for diverging or losing a result together (`ReplaySafeExactly`).
- The clock is read in the same step as the statement that uses it.
- Errors of the store itself, which a workflow function would see as an internal error.
- Integer widths of times and intervals; the values stay far below the limits.
- Column lengths, update and finish times, rollback reasons beyond the row operations, key expiry.
- HTTP, gRPC and local branch calls: a call is a freely chosen reply, with or without an effect.
- list_recent, list_stuck, tokens, subscriptions, alerts, metrics, console: plumbing.
- The barrier ports in other languages, the language bindings and the XA client library.
- JSON and the text forms of the enumerations, except the operation names inside Redis keys.
