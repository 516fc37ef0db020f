# Verification of the chat backend's concurrent protocols

The backend keeps its channels, direct messages, counters and presence consistent with a set of small protocols:
in-memory queues and maps in each Node process, plus steps against Redis and Postgres that may fail, be delayed or be
interleaved with those of other processes.  This project models those protocols in Dafny and proves what every run of
them keeps.  `dafny verify dfyconfig.toml` checks all of it.

How the models are built:

- **Local code that changes fields** is a class with the same fields and methods (`ChannelInsertQueues`,
  `DeferredPointers`, `SideEffects`, `BcryptGate`, `QueryGate`, `GatedClient`, `PressureDetector`, `MirrorQueue`,
  `CountBuffer`); loops of the source are loops.  Each method is proved against a function of the old state.
- **Distributed code** is a state machine whose steps are the awaits of the source: between two of them any other call,
  process or network event may move.  A run is any sequence of enabled steps.  The steps use the functions that the
  class methods are proved against (`Joined` and `Left`, `Scheduled` and `Finished`, `Accept` and `TakeOrRetire`,
  `Acquire` and `Release`, `NextBatch`, `Bump` and `Merge`, the detector's steps), so the whole-run theorems speak about
  those methods.  The insert lock has two models: the cluster keeps one line per worker and channel, and
  `QueuesRefineLines` proves that the queues of every worker hold exactly these lines in every run.
- Safety results speak about every run.  Beside them stand results about what some continuation of every reachable
  state reaches (a waiter its permit, a queued call its lease, a request its answer, a repoint its row), so that a
  protocol that refuses or stops would not meet them either.
- Time, random jitter, SQL and Redis replies, and which command of a lost pipeline took effect are parameters of steps.
  Lost replies, commands executed after their sender gave up, retries, crashes and TTL expiry are steps of the models
  where the source has to live with them.

Where a promise of the code or its comments is false, the code is kept as it is: a lemma gives a run that breaks the
promise, and where it can be stated another lemma gives the exact condition.

| module | source | subject |
|---|---|---|
| InsertLockCluster, InsertQueue, InsertLockSpin | channelInsertConcurrency.ts, channelInsertLockEnv.ts, redisLuaScripts.ts | per-channel insert lock |
| LockPressure | messageInsertLockPressure.ts | sliding-window detector with hysteresis |
| PointerCoalescing, PointerFlush | repointLastMessage.ts | deferred last-message pointers |
| DirectConversations | conversationsRouter.ts, conversationsRouterRepo.ts | get-or-create of a 1:1 conversation |
| SideEffectQueues | sideEffects.ts | multi-queue worker pool |
| Gates | passwords.ts, pool.ts | admission gates as one FIFO semaphore |
| BackfillPagination, BackfillDriver | opensearchBackfillPagination.ts, backfill-opensearch-messages.ts | keyset paging and its resumable driver |
| PresenceMirror | presence/service.ts | write-behind mirror of presence |
| MemberCounts | communityMemberCount.ts | buffered member counts |
| EnvProfile, EnvProfileOutcome | apply-env-profile.py | env-file parser, printer and merge |
| Basics | | options, string order, sorting, insertion-ordered maps |

Where code and comments disagree, the model follows the code:

- The log line of the insert lock calls the Redis-error path "local serialization"; the call is out of its local line
  before its body runs, so two bodies of one worker and channel can run at once exactly when one of them has no lease,
  and two lease-held bodies of one channel exactly on different workers (`BodiesCoexistExactlyWhen`).
- The comment on re-queueing failed member-count deltas says it avoids dropping updates; after a rejected clamp
  pipeline it counts them twice (`RejectedClampCountsTwice`).
- The backfill is described as re-runnable from a checkpoint; it crashes when it is resumed at its row limit with rows
  left (`Backfill`), and a descending run with `--until` skips the rows at that instant
  (`DescendingUntilCompleteExactlyWhen`).
- Rows of a failed bulk request are counted and passed by the checkpoint, so no later run sends them
  (`FailedRowsStayOut`).
- A profile that parses can fail its own validation, and so can one whose defaults file names a key behind two exports
  (`ProfileAppliesExactlyWhen`).
- FANOUT_QUEUE_CONCURRENCY between 0 and 1 is accepted as positive and rounded down to no worker; critical jobs then
  stay queued for ever (`IdleMeansDrainedExactlyWhen`).
- A repoint that finds no message nulls the pointer columns in a second statement; a message posted and flushed in
  between is lost to Postgres without any error (`ClearLosesPointer`).  A repoint that waits behind its snapshot can
  overwrite a newer message in the same way (`LateRepointLosesPointer`).
- The re-schedule at the end of a pointer job can never replace the payload it passes (`RescheduleIsNoOp`), so a
  payload can wait without a job (`StrandedExactlyWhen`).
- The fallback of POLL_MAX is not raised to POLL_MIN, so the two may be out of order (`ConfigBounds`).

## Model

| member | source | states |
|---|---|---|
| InsertLockCluster.LeaseHeldBodiesExclude | backend/src/messages/channelInsertConcurrency.ts:401-552 | In every run of any number of workers, with lost SET and release replies, late commands, retries, crashes and TTL expiry, two lease-held bodies of one channel are never on one worker, and on two workers only if the TTL of the lease granted first had passed when the other was granted |
| InsertLockCluster.HolderIsStored | backend/src/messages/channelInsertConcurrency.ts:401-442 | While a lease-held body runs inside its TTL, the token stored for its channel is its own |
| InsertLockCluster.OnlyOwnReleaseOrExpiryRemoves | backend/src/db/redisLuaScripts.ts:8-13 | In every reachable state a step ends the storing of an unexpired token if and only if it executes that token's own release, sent after its body ended, or lets its TTL run out; nothing is stored then, and every other step leaves it in place |
| InsertLockCluster.LinesAreFifo | backend/src/messages/channelInsertConcurrency.ts:345-379 | In every run the calls that left a line are, in order and without duplicates, the first to have arrived; the rest is the line, within the cap; a call has left exactly when it is done or runs without lease |
| InsertLockCluster.OneAdmittedPerLane | backend/src/messages/channelInsertConcurrency.ts:352-378 | A call past its gate is the head of its line, and every other call of the line still waits |
| InsertLockCluster.PositionFalls | backend/src/messages/channelInsertConcurrency.ts:361-379 | The index of a queued call is a measure: every departure from its line lowers it by exactly one, the departing call is at index 0, and no other step changes it |
| InsertLockCluster.BodyAdmitsAnother | backend/src/messages/channelInsertConcurrency.ts:401-453 | From every reachable state in which a body runs, some continuation has another body beside it, with the lease or without: on every other worker or channel always, and on its own worker and channel if it runs without lease |
| InsertLockCluster.BareBodyCanOverlap | backend/src/messages/channelInsertConcurrency.ts:443-453 | Two bodies of one worker and channel, the first without lease, run at once in some run for every worker and channel, as soon as one call may wait |
| InsertLockCluster.BodiesCoexistExactlyWhen | backend/src/messages/channelInsertConcurrency.ts:401-476 | Two bodies can run at the same time if and only if they differ in worker or channel or one of them has no lease; so two lease-held bodies of one channel can if and only if their workers differ |
| InsertLockCluster.LeaseIsHandedOver | backend/src/messages/channelInsertConcurrency.ts:400-546 | When a body ends while the SET of another worker's call is on its way, some continuation has that call holding the lease without any time passing |
| InsertLockCluster.ReleaseCanFree | backend/src/messages/channelInsertConcurrency.ts:486-528 | A call that is releasing, with an attempt left or a command on its way, can free its lease before the TTL |
| InsertLockCluster.ReleaseAttempts | backend/src/messages/channelInsertConcurrency.ts:494-528 | In every reachable state a call has at most three release commands on their way, one per attempt, and retries exactly after the first and the second |
| InsertLockCluster.ThreeAttempts | backend/src/messages/channelInsertConcurrency.ts:494-528 | From every state with a lease-held body all three can be sent |
| InsertLockCluster.CrashEmptiesWorker | backend/src/messages/channelInsertConcurrency.ts:224-265 | A crash, possible at any time, ends the calls of its worker and empties its lines; other workers and Redis do not change |
| InsertLockCluster.RefusedCallLoops | backend/src/messages/channelInsertConcurrency.ts:412-459 | While another call's lease stands, a SET is answered nil and the call goes on looping, where it was in line |
| InsertLockCluster.EveryCallGetsOn | backend/src/messages/channelInsertConcurrency.ts:345-546 | No reachable state is a dead end: every queued call has a continuation that runs its body with the lease, or without if its SET or reply is lost, and a call that is releasing or runs without lease one that ends it |
| InsertLockCluster.StepKeepsInv | backend/src/messages/channelInsertConcurrency.ts:288-552 | Every step keeps the invariant of lines, history, tokens and lease together |
| InsertLockCluster.EveryRunKeepsInv | backend/src/messages/channelInsertConcurrency.ts:558-692 | That invariant holds after every run |
| InsertQueue.TotalUpdated | backend/src/messages/channelInsertConcurrency.ts:224-232 | How the sum of all queue lengths moves when one queue is replaced |
| InsertQueue.JoinKeepsQueues | backend/src/messages/channelInsertConcurrency.ts:338-356 | A newcomer to a line keeps: every stored queue is non-empty, active, within the cap, and exactly its head is admitted |
| InsertQueue.LeaveKeepsQueues | backend/src/messages/channelInsertConcurrency.ts:369-378 | Cutting an entry and admitting the new head keeps the same |
| InsertQueue.JoinKeepsInv | backend/src/messages/channelInsertConcurrency.ts:323-356 | An accepted call keeps the invariant of all queues, with the waiter count equal to the sum of the queue lengths |
| InsertQueue.LeaveKeepsInv | backend/src/messages/channelInsertConcurrency.ts:361-379 | A leaving call that is in its line keeps it too, and the count drops by exactly one |
| InsertQueue.ChannelInsertQueues.constructor | backend/src/messages/channelInsertConcurrency.ts:224-265 | The queues start empty |
| InsertQueue.Cut | backend/src/messages/channelInsertConcurrency.ts:369-370 | indexOf and splice take the entry out of its line |
| InsertQueue.ChannelInsertQueues.Enter | backend/src/messages/channelInsertConcurrency.ts:288-359 | Exactly when the call is shed, refused by the cap or queued; queued means joining its line as the cluster does, and nothing changes otherwise |
| InsertQueue.ChannelInsertQueues.Leave | backend/src/messages/channelInsertConcurrency.ts:361-379 | Leaves the line as the cluster does, for whatever call and channel |
| InsertQueue.ChannelInsertQueues.MarkTimeout | backend/src/messages/channelInsertConcurrency.ts:91-110 | After a timeout the channel is suppressed exactly for the window; pruning the memory changes no later answer for any channel |
| InsertQueue.QueuesRefineLines | backend/src/messages/channelInsertConcurrency.ts:288-379 | In every run of the cluster, crashes included, the queues that Enter and Leave make of a worker are valid and hold exactly the lines of the cluster |
| InsertQueue.LeaversAreQueued | backend/src/messages/channelInsertConcurrency.ts:361-379 | Whoever leaves finds its entry at the head of its line, so the waiter count drops by exactly one and its clamp at 0 never fires |
| InsertQueue.AdmittedAreHeads | backend/src/messages/channelInsertConcurrency.ts:352-378 | Of all queued calls exactly the heads have had their gate promise resolved |
| InsertLockSpin.ConfigBounds | backend/src/messages/channelInsertLockEnv.ts:5-50 | For any environment all settings are positive and bounded, values in range are kept and the fallbacks are 15, 120 and 2000 ms; POLL_MIN exceeds POLL_MAX if and only if POLL_MAX is left to its fallback and POLL_MIN is set above 120 |
| InsertLockSpin.DelayBounds | backend/src/messages/channelInsertConcurrency.ts:82-89 | Every poll delay is at least POLL_MIN doubled with each attempt and capped at POLL_MAX, at most POLL_MAX, and with its jitter at most one and a half times the doubled delay |
| InsertLockSpin.BaseDelayDoubles | backend/src/messages/channelInsertConcurrency.ts:82-85 | The power of two in the code is that doubling |
| InsertLockSpin.PassAdvances | backend/src/messages/channelInsertConcurrency.ts:456-459 | A full pass moves the clock on by a shortest delay, or to the deadline |
| InsertLockSpin.Spin | backend/src/messages/channelInsertConcurrency.ts:400-484 | The spin loop ends with the first decisive reply or a timeout past the deadline fixed at enqueue; no sleep passes that deadline, and sleep k is between once and one and a half times the doubled delay of attempt k unless it ends exactly there; the number of SETs is bounded by the wait timeout over the shortest delay, plus two |
| InsertLockSpin.AtMost802Sets | backend/src/messages/channelInsertLockEnv.ts:33-50 | With any environment one call sends at most 802 SETs |
| LockPressure.SettingsAreSane | backend/src/messages/messageInsertLockPressure.ts:22-68 | For any environment the clear level is at most the trigger level, all settings are in range, and values in range are kept |
| LockPressure.DefaultSettings | backend/src/messages/messageInsertLockPressure.ts:22-68 | The settings of an empty environment |
| LockPressure.NearestRank | backend/src/messages/messageInsertLockPressure.ts:83-84 | The index taken is the least one whose rank covers 95% of the samples |
| LockPressure.Percentile95IsNearestRank | backend/src/messages/messageInsertLockPressure.ts:80-85 | The result is a sample that at least 95% of the samples do not exceed, and the least such sample |
| LockPressure.PercentileAbove | backend/src/messages/messageInsertLockPressure.ts:80-85 | The percentile exceeds a level if and only if fewer than 95% of the samples stay within it |
| LockPressure.DropOldKeepsRecent | backend/src/messages/messageInsertLockPressure.ts:70-78 | On chronological data, dropping leading old entries is filtering by the window |
| LockPressure.ArraysAreWindows | backend/src/messages/messageInsertLockPressure.ts:70-106 | After any history of calls with a clock that never goes back, the arrays are the last 512 waits and last 128 timeouts recorded, cut to the window of the latest call |
| LockPressure.ShedUntilIsCoolingDown | backend/src/messages/messageInsertLockPressure.ts:130-148 | The stored end of shedding lies ahead exactly when some trigger less than one cooldown ago has had no healthy clear since |
| LockPressure.DecisionMatchesHistory | backend/src/messages/messageInsertLockPressure.ts:112-149 | A call answers true exactly when it triggers (a timeout in the window, or enough waits of which fewer than 95% stay within the trigger level, or four waits with one of 380 ms), or a trigger is cooling down and the window is not healthy (no timeout, enough waits, 95% within the clear level, all below 340 ms), counted on the recorded history of calls |
| LockPressure.TimeoutForcesShedding | backend/src/messages/messageInsertLockPressure.ts:125-133 | Never false with a timeout inside the window |
| LockPressure.PressureDetector.constructor | backend/src/messages/messageInsertLockPressure.ts:15-17 | The detector starts in the initial state of the history model |
| LockPressure.PressureDetector.PruneAt | backend/src/messages/messageInsertLockPressure.ts:70-78 | Both prune loops refine dropping the old prefix |
| LockPressure.PressureDetector.RecordAcquireWait | backend/src/messages/messageInsertLockPressure.ts:87-94 | Refines the history model's step for a wait |
| LockPressure.PressureDetector.RecordTimeout | backend/src/messages/messageInsertLockPressure.ts:96-106 | Refines the history model's step for a timeout |
| LockPressure.PressureDetector.ShouldDefer | backend/src/messages/messageInsertLockPressure.ts:112-149 | Refines the history model's decision and its new state |
| PointerCoalescing.RescheduleIsNoOp | backend/src/messages/repointLastMessage.ts:469-475 | Re-scheduling the pending payload itself changes nothing |
| PointerCoalescing.DeferredPointers.Schedule | backend/src/messages/repointLastMessage.ts:447-464 | Keeps the greater of pending and new payload, and starts a job exactly when the target had none |
| PointerCoalescing.DeferredPointers.Take | backend/src/messages/repointLastMessage.ts:294-296 | Takes the pending payload out, leaving the others |
| PointerCoalescing.DeferredPointers.Finish | backend/src/messages/repointLastMessage.ts:467-476 | The end of a job, including its re-schedule |
| PointerCoalescing.MaximumGrows | backend/src/messages/repointLastMessage.ts:228-237 | Replacing by the strict (time, id) order keeps the pending payload a maximum of all scheduled |
| PointerCoalescing.PendingIsMaximum | backend/src/messages/repointLastMessage.ts:288-312 | In every run the pending payload is the maximum of all payloads scheduled since the target was last taken, and there is one exactly if there were any |
| PointerCoalescing.PendingIsNewest | backend/src/messages/repointLastMessage.ts:223-237 | Newer wins, by times and ids alone: in every run no message scheduled since the last take is later than the pending one; one without a time counts as from 1970 and never displaces one with a positive time |
| PointerCoalescing.ReplacesExactlyWhen | backend/src/messages/repointLastMessage.ts:452-455 | A call replaces the pending payload by a different one exactly if that is later |
| PointerCoalescing.JobDrains | backend/src/messages/repointLastMessage.ts:289-312 | A job still in its loop writes what is pending and leaves its target neither pending nor queued, if its writes work and nothing new is posted |
| PointerCoalescing.OneJobPerTarget | backend/src/messages/repointLastMessage.ts:459-477 | In every run each target has at most one live job, and the queued set is exactly the targets that have one |
| PointerCoalescing.ArrivalOrderIrrelevant | backend/src/messages/repointLastMessage.ts:223-237 | Two arrival orders of the same payloads agree on the (time, id) that wins |
| PointerCoalescing.StrandedExactlyWhen | backend/src/messages/repointLastMessage.ts:289-312 | A payload waits with no job to drain it exactly when a job ended while it was pending, until a greater payload is posted |
| PointerCoalescing.StrandingRun | backend/src/messages/repointLastMessage.ts:305-308 | A run of five steps that strands a payload |
| PointerFlush.SinglesEqualBatch | backend/src/messages/repointLastMessage.ts:99-136 | The batch UPDATE equals the single-row statements run one after another |
| PointerFlush.BatchEqualsSinglesInAnyOrder | backend/src/messages/repointLastMessage.ts:406-425 | For distinct targets and message ids that fix author and time, it equals them in every order |
| PointerFlush.BatchNeverLowers | backend/src/messages/repointLastMessage.ts:107-115 | The batch keeps the rows, lowers no last_message_at, and a row it changes gets its own payload and names an existing message |
| PointerFlush.DecodeAfterEncode | backend/src/messages/repointLastMessage.ts:258-266 | The hash read back is the pointer written if and only if the message id is not empty and the author is not the empty string |
| PointerFlush.CollectBatch | backend/src/messages/repointLastMessage.ts:363-377 | The collecting loop picks exactly the usable replies, one item per target |
| PointerFlush.NoPointerIsLost | backend/src/messages/repointLastMessage.ts:335-395 | In every run of any number of writers, flushers and repoints, a pointer Redis shows is reached by Postgres, or its message is gone, or its target is dirty, or a writer is between HSET and SADD, or a flusher holds the id, or since its last HSET an error dropped the target, a clear nulled its columns or a repoint wrote an older message over them |
| PointerFlush.DroppedNeedsFailure | backend/src/messages/repointLastMessage.ts:344-361 | Nothing is dropped in a run without errors, and nothing is overwritten in a run without clears and late repoints |
| PointerFlush.QuiescentMeansCaughtUp | backend/src/messages/repointLastMessage.ts:255-395 | Without errors, clears and late repoints, once nothing is dirty or in hand, Postgres has caught up with every Redis pointer |
| PointerFlush.OnlyRepointLowers | backend/src/messages/repointLastMessage.ts:138-185 | Of all steps only the end of a repoint of that target, be it in time, late or a clear, can lower last_message_at |
| PointerFlush.FlushWrites | backend/src/messages/repointLastMessage.ts:99-136 | A flush leaves in each row exactly the pointer it read for it, if its message lives and the stored time is not later, and else the row as it was |
| PointerFlush.FlushOneWrites | backend/src/messages/repointLastMessage.ts:80-97 | The same for one statement of the fallback |
| PointerFlush.RowsAlwaysNameLiving | migrations/009_channel_last_message_denorm.sql:6-6 | In every run no last-message column names a deleted message |
| PointerFlush.RepointRestores | backend/src/messages/repointLastMessage.ts:156-186 | From any state a repoint that runs undisturbed leaves its row at the latest living message of the target, or nulls it if there is none, and changes no other row |
| PointerFlush.DeleteThenRepoint | backend/src/messages/repointLastMessage.ts:156-186 | After the hard delete of a message and its repoint the columns name the latest message that remains, or nothing |
| PointerFlush.LateNeedsNewer | backend/src/messages/repointLastMessage.ts:156-186 | In every run a repoint writes an old message only if a later one of its target has been posted since its snapshot |
| PointerFlush.ClearNeedsNone | backend/src/messages/repointLastMessage.ts:497-503 | In every run the columns are nulled without a foreign-key conflict only if all messages that the repoint has seen are gone |
| PointerFlush.SafeExactlyWhenItWillSettle | backend/src/messages/repointLastMessage.ts:335-395 | In every continuation without further errors, clears and late repoints Postgres gets the pointer once its target is idle, if and only if it has it already or the target is dirty or in hand |
| PointerFlush.DropIsHarmlessExactlyWhen | backend/src/messages/repointLastMessage.ts:352-425 | A failed HGETALL batch or reply, a failed statement or a crash costs the pointer of a target if and only if the flusher gave it up, Postgres is behind, it is not dirty again, nobody is writing it and no other flusher holds it |
| PointerFlush.SremFailureIsHarmlessExactlyWhen | backend/src/messages/repointLastMessage.ts:346-350 | An SREM that reports an error costs a pointer if and only if it took the target out of the set, Postgres is behind and nobody has it in hand |
| PointerFlush.WriterFailureIsHarmlessExactlyWhen | backend/src/messages/repointLastMessage.ts:254-286 | A writer that fails between HSET and SADD costs its pointer if and only if Postgres is behind, the target is not dirty and nobody else has it in hand |
| PointerFlush.ClearIsHarmlessExactlyWhen | backend/src/messages/repointLastMessage.ts:138-154 | Nulling the columns costs the pointer of the target if and only if that names a living message of an existing row and is neither dirty nor in hand |
| PointerFlush.LateRepointIsHarmlessExactlyWhen | backend/src/messages/repointLastMessage.ts:156-186 | A repoint that writes the message of an old snapshot costs the pointer of the target if and only if that names a living message newer than the one written and is neither dirty nor in hand |
| PointerFlush.FailureLosesPointer | backend/src/messages/repointLastMessage.ts:346-361 | From any start and for any message newer than its row, a run with one error after SREM that ends quiescent with Postgres behind a living message |
| PointerFlush.ClearLosesPointer | backend/src/messages/repointLastMessage.ts:502-516 | A run without any error, in which a repoint finds no message and clears after the next one was flushed, that ends in the same way |
| PointerFlush.LateRepointLosesPointer | backend/src/messages/repointLastMessage.ts:156-170 | A run without any error or clear, in which a message is posted and flushed between the snapshot of a repoint and its write, that ends in the same way |
| DirectConversations.SortPairIsCanonical | backend/src/messages/conversationsRouterRepo.ts:202-206 | The sorted pair does not depend on who asks, is strictly ordered and determines the two users |
| DirectConversations.NoConflict | backend/src/messages/conversationsRouterRepo.ts:208-224 | While a request holds the lock and saw no row, no other row or lock holder exists for the pair, so the unique index cannot refuse its row |
| DirectConversations.AdoptionAddsRow | backend/src/messages/conversationsRouterRepo.ts:226-266 | Publishing a row never rewrites an existing one, even under ON CONFLICT DO UPDATE |
| DirectConversations.SettledUnique | backend/src/messages/conversationsRouter.ts:226-241 | A pair has at most one settled conversation, committed or between cache write and COMMIT |
| DirectConversations.SettledKept | backend/src/messages/conversationsRouter.ts:226-266 | No step but a COMMIT that fails after caching an adoption unsettles one |
| DirectConversations.AnswersAgree | backend/src/messages/conversationsRouter.ts:201-273 | For every interleaving with READ COMMITTED and the advisory lock, lost COMMIT replies and cache reads answered late included, all successful answers for one unordered pair name the same conversation, whoever asked and whichever path answered |
| DirectConversations.CommitIsAnswered | backend/src/messages/conversationsRouter.ts:226-277 | In every run a COMMIT that takes effect leaves a conversation of exactly its two users with a committed row for the pair; if it is replied to, its request is answered with that one, `created` if and only if it did not exist before, and if not the request fails although the row is there |
| DirectConversations.NewRequestIsAnswered | backend/src/messages/conversationsRouter.ts:201-277 | Whenever the lock of a pair is free, some continuation without failures answers a new request: with the conversation of the pair's row, else with its most active legacy thread, else with a new conversation |
| DirectConversations.HolderIsAnswered | backend/src/messages/conversationsRouter.ts:219-277 | Whoever holds a lock has a continuation without failures that answers it and frees the lock |
| DirectConversations.LockIsHeldExactlyWhen | backend/src/messages/conversationsRouterRepo.ts:208-224 | In every run, failed COMMITs included, an advisory lock is held exactly while the transaction of one request holds it |
| DirectConversations.PairRowsAreStable | migrations/036_direct_dm_pairs.sql:1-85 | At most one row per pair, rows never change, each names a 1:1 thread of exactly its two users, and the conflict recovery is never entered |
| DirectConversations.FailedCommitExactlyWhen | backend/src/messages/conversationsRouter.ts:209-241 | After a COMMIT that fails behind its cache write, the answers for the pair agree in every continuation if and only if no thread was being adopted, or nothing names it (no cache entry, no answer, no request that has read it from the cache and not answered yet), or the pair has no other legacy thread that could be adopted |
| DirectConversations.LostOnlyThreadAgrees | backend/src/messages/conversationsRouter.ts:226-241 | The harmless case: with one thread only, every continuation answers it, further failing COMMITs included |
| DirectConversations.SplitRun | backend/src/messages/conversationsRouter.ts:208-241 | The harmful case: with a second thread, at most two more requests and some activity split the answers, from any state that names the first and has neither row nor lock for the pair |
| DirectConversations.FailedCommitSplitsAnswers | backend/src/messages/conversationsRouter.ts:239-241 | A run from two legacy threads in which one failing COMMIT gives the two users of a pair different conversations |
| DirectConversations.EveryRunKeepsInv | backend/src/messages/conversationsRouter.ts:181-320 | The invariant of pair rows, locks, cache and answers holds after every run |
| SideEffectQueues.NoWorkersExactlyWhen | backend/src/messages/sideEffects.ts:23-41 | As the settings are read, the critical queue is allowed no worker if and only if FANOUT_QUEUE_CONCURRENCY lies strictly between 0 and 1 |
| SideEffectQueues.SettingsAreRead | backend/src/messages/sideEffects.ts:23-41 | The settings of an empty environment, and what values in and out of range become |
| SideEffectQueues.SideEffects.constructor | backend/src/messages/sideEffects.ts:17-36 | Three empty queues without workers |
| SideEffectQueues.SideEffects.MaybeStartWorkers | backend/src/messages/sideEffects.ts:84-93 | The loop starts exactly as many workers as the bound and the queue allow |
| SideEffectQueues.SideEffects.Enqueue | backend/src/messages/sideEffects.ts:95-115 | Exactly when the job is refused; else it is last in the queue its name selects and workers start as in the run model; other queues are untouched |
| SideEffectQueues.SideEffects.TakeOrEnd | backend/src/messages/sideEffects.ts:121-176 | A worker at its loop head takes the first job or retires, as in the run model; other queues are untouched |
| SideEffectQueues.LaneKeepsInv | backend/src/messages/sideEffects.ts:84-177 | Every step of one queue keeps work conservation, the worker bound, FIFO starts and one place per job |
| SideEffectQueues.PoolIsWorkConserving | backend/src/messages/sideEffects.ts:84-177 | In every run a non-empty queue has its full number of workers and never more, jobs start in the order they were accepted, and each accepted job is in exactly one of queued, running, finished, in the queue its name selects |
| SideEffectQueues.OnlyDroppableQueuesDrop | backend/src/messages/sideEffects.ts:51-70 | Critical jobs are never dropped; the other queues never pass their depth |
| SideEffectQueues.PostIsAcceptedExactlyWhen | backend/src/messages/sideEffects.ts:95-115 | In every run a posted job joins the end of the queue its name selects; it is turned away if and only if that is not the critical queue and holds 10000 jobs; the other queues do not change |
| SideEffectQueues.YieldsExactlyWhen | backend/src/messages/sideEffects.ts:121-176 | With jobs waiting, a worker lets the event loop run exactly after every yieldEvery-th job it has finished |
| SideEffectQueues.QueueCanDrain | backend/src/messages/sideEffects.ts:121-176 | With a worker allowed, from every reachable state the workers' own steps finish every accepted job |
| SideEffectQueues.WorkShrinks | backend/src/messages/sideEffects.ts:121-176 | Every step of a worker lowers a measure, so without new jobs all of them end |
| SideEffectQueues.WorkersAreCounted | backend/src/messages/sideEffects.ts:121-171 | In every run a worker step finds its queue with at least one worker counted, so the clamp at 0 never fires |
| SideEffectQueues.IdleMeansDrained | backend/src/messages/sideEffects.ts:117-177 | Where a worker is allowed: when none is scheduled, running or yielding, nothing is queued and every accepted job has finished |
| SideEffectQueues.NoWorkerKeepsEverything | backend/src/messages/sideEffects.ts:23-26 | Where none is allowed: in every run all accepted jobs stay queued |
| SideEffectQueues.IdleMeansDrainedExactlyWhen | backend/src/messages/sideEffects.ts:23-177 | An idle queue is a drained queue in all runs if and only if the queue is allowed a worker |
| Gates.BcryptGate.constructor | backend/src/auth/passwords.ts:39-54 | The gate starts open |
| Gates.BcryptGate.Enter | backend/src/auth/passwords.ts:61-93 | Refines acquire of a bounded FIFO semaphore |
| Gates.BcryptGate.Leave | backend/src/auth/passwords.ts:95-104 | Refines release: the permit passes to the longest waiter, whose timer is disarmed; the clamp at 0 never fires |
| Gates.BcryptGate.WaitTimeout | backend/src/auth/passwords.ts:75-83 | A timer is armed exactly for those who wait, so a caller that times out was waiting and leaves the list |
| Gates.QueryGate.constructor | backend/src/db/pool.ts:331-333 | The gate starts open |
| Gates.QueryGate.AcquireQueryGate | backend/src/db/pool.ts:339-375 | Off at a maximum of 0; else refines acquire, with the separate waiting counter equal to the list length and an absent waiter bound never refusing |
| Gates.QueryGate.Admit | backend/src/db/pool.ts:366-373 | A waiter taken from the list gets the permit exactly if its timer was not first |
| Gates.QueryGate.ReleaseQueryGate | backend/src/db/pool.ts:377-386 | Refines release; the admitted waiter is settled |
| Gates.QueryGate.WaitTimeout | backend/src/db/pool.ts:355-364 | A timer after settlement does nothing; else the waiter leaves list and counter |
| Gates.GatedClient.constructor | backend/src/db/pool.ts:530-531 | A client starts unreleased |
| Gates.GatedClient.ReleaseClient | backend/src/db/pool.ts:530-535 | However often a client is released, the gate is released once |
| Gates.QueryGate.Query | backend/src/db/pool.ts:465-497 | The whole call with any moves of others while it waits and while it runs: on every exit (breaker, saturation, timeout, error, success) its caller keeps neither a permit nor a place in the line; an open breaker leaves the gate alone, and a free permit is never refused |
| Gates.QueryGate.GetClient | backend/src/db/pool.ts:501-536 | The same for the checkout, except that on success its caller keeps exactly the one permit that the fresh client it gets will give back |
| Gates.BcryptGate.WithBcryptConcurrency | backend/src/auth/passwords.ts:106-113 | The whole call with any moves of others at its two awaits: on every exit its caller keeps neither a permit nor a place in the line, and a free permit is never refused |
| Gates.GateIsBounded | backend/src/auth/passwords.ts:61-113 | In every run the active count is the number of holders and at most the maximum, waiters exist only when all permits are held, and stay within their bound |
| Gates.TurnedAwayExactlyWhen | backend/src/db/pool.ts:339-350 | In every run a free permit is taken at once; with all permits held an arriving caller is turned away if and only if the line has a bound and has reached it, and waits otherwise |
| Gates.PermitIsPassedOn | backend/src/db/pool.ts:377-386 | When a holder is done the longest waiter takes its permit, and without waiters it is free again |
| Gates.WaiterIsServed | backend/src/db/pool.ts:377-386 | From every reachable state the ends of holders alone bring each waiter its permit |
| Gates.CheckoutCanComplete | backend/src/db/pool.ts:501-536 | A checkout with its permit can get its client and give the permit back with it |
| Gates.NobodyOvertakes | backend/src/auth/passwords.ts:90-104 | Whoever ever got a permit arrived before everyone who still waits |
| Gates.OneReleasePerAcquire | backend/src/db/pool.ts:465-536 | On every exit of an operation or a checkout, each caller has taken at most one permit and given back exactly that one, when it is done and not before |
| Gates.AdmittedOrTimedOut | backend/src/db/pool.ts:351-373 | A waiter leaves the list as the admitted head or by its own timer, and neither is ever undone |
| Gates.EveryRunKeepsInv | backend/src/db/pool.ts:339-386 | The invariant behind these holds after every run |
| BackfillPagination.SortRowsIsStrict | backend/src/search/opensearchBackfillPagination.ts:13-24 | Sorting a table without duplicates gives a strictly ordered permutation, in both directions |
| BackfillPagination.TestsMean | backend/src/search/opensearchBackfillPagination.ts:13-38 | The comparison and the two row tests mean: time first, then id; both bounds inclusive; strictly past the cursor |
| BackfillPagination.SuffixFacts | backend/src/search/opensearchBackfillPagination.ts:26-50 | What lies past the cursor within bounds: exactly those rows, each once, strictly ordered |
| BackfillPagination.SuffixAfterPrefix | backend/src/search/opensearchBackfillPagination.ts:33-57 | Moving the cursor to the end of any prefix of what remains leaves exactly the rest |
| BackfillPagination.PageIsPrefix | backend/src/search/opensearchBackfillPagination.ts:40-52 | A page is the first rows of what remains, and empty only at the end |
| BackfillPagination.DrainIsStrict | backend/src/search/opensearchBackfillPagination.ts:40-58 | Paging over a table that changes between pages returns rows in strict key order, none twice, all past the start cursor, in bounds and in the table |
| BackfillPagination.StayingRowIsReturned | backend/src/search/opensearchBackfillPagination.ts:40-58 | Whatever is inserted or deleted between pages, a row that stayed, lies in bounds and past the start cursor is returned by paging until an empty page |
| BackfillPagination.FixedTableIsSuffix | backend/src/search/opensearchBackfillPagination.ts:13-58 | On a fixed table the concatenated pages are the sorted, bounded suffix, in both orders |
| BackfillPagination.FixedTableTerminates | backend/src/search/opensearchBackfillPagination.ts:51-58 | A fixed table is drained after n pages if and only if all but the last of them have room for every remaining row |
| BackfillDriver.BatchSize | scripts/search/backfill-opensearch-messages.ts:178-178 | Between 50 and 2000, and the given value whenever that is in range |
| BackfillDriver.BatchVerdict | scripts/search/backfill-opensearch-messages.ts:239-246 | A turn ends the loop exactly when no row is left, and crashes exactly when it is at its limit with rows left |
| BackfillDriver.BatchAdvances | scripts/search/backfill-opensearch-messages.ts:239-273 | A turn takes the front off the remaining rows whatever the batch size, within the limit, and counts it as indexed or failed |
| BackfillDriver.ProcessBatch | scripts/search/backfill-opensearch-messages.ts:239-273 | The imperative body of the loop refines one turn |
| BackfillDriver.Backfill | scripts/search/backfill-opensearch-messages.ts:206-294 | The whole loop processes exactly the remaining rows in order, with scanned, indexed and failures adding up; it crashes if and only if it is started at its limit with rows left |
| BackfillDriver.NoRowIsSkipped | scripts/search/backfill-opensearch-messages.ts:206-294 | Killed and restarted any number of times, with checkpoints that fail to be written or are spoiled: once a process ends, exactly the rows meant to be processed were sent, and scanned is indexed plus failures and within the limit |
| BackfillDriver.ResumeIsExact | scripts/search/backfill-opensearch-messages.ts:275-285 | When every checkpoint is written, restarts change nothing: the same rows in the same order as one run, none twice |
| BackfillDriver.RestartReadsCheckpoint | scripts/search/backfill-opensearch-messages.ts:275-285 | What a restart costs: the next process goes on behind the last batch whose checkpoint was written, and from the beginning after a spoiled one |
| BackfillDriver.TurnEnds | scripts/search/backfill-opensearch-messages.ts:206-294 | Exactly how each turn leaves its process: crashed, finished or running |
| BackfillDriver.ProcessEnds | scripts/search/backfill-opensearch-messages.ts:206-294 | A process that is left alone ends after at most as many turns as rows remain, and one |
| BackfillDriver.IndexHoldsExactly | scripts/search/backfill-opensearch-messages.ts:262-271 | With any restarts, a row is in the index if and only if some request that was sent with it succeeded, or failed after taking it |
| BackfillDriver.DryRunSendsNothing | scripts/search/backfill-opensearch-messages.ts:262-271 | A dry run brings nothing into the index and counts no failure |
| BackfillDriver.FailuresBoundMissing | scripts/search/backfill-opensearch-messages.ts:262-285 | With every checkpoint written, the failure counter bounds the rows sent that are not in the index, and is their exact number if failed requests had nothing taken |
| BackfillDriver.FailedRowsStayOut | scripts/search/backfill-opensearch-messages.ts:262-285 | A sent row that is missing stays missing in every continuation with written checkpoints, since the cursor has moved past it |
| BackfillDriver.IndexCompleteExactlyWhen | scripts/search/backfill-opensearch-messages.ts:262-322 | Once a process ends, under the same conditions all rows it was meant to index are in the index if and only if it reports no failure |
| BackfillDriver.FreshRunReaches | scripts/search/backfill-opensearch-messages.ts:188-246 | Exactly which rows a run without checkpoint reaches: those in bounds and strictly past its start (`--since` or 1970 ascending, `--until` or the end of 9999 descending, at the nil UUID), as many as its limit allows, earliest first |
| BackfillDriver.AscendingDefaultReaches | scripts/search/backfill-opensearch-messages.ts:188-195 | Without `--since` and limit an ascending run reaches exactly the rows in bounds after the start of 1970 |
| BackfillDriver.DescendingDefaultReaches | scripts/search/backfill-opensearch-messages.ts:188-195 | Without `--until` and limit a descending run reaches exactly the rows in bounds before 9999-12-31T23:59:59.999Z |
| BackfillDriver.FreshRunCompleteExactlyWhen | scripts/search/backfill-opensearch-messages.ts:188-246 | It covers every row in bounds if and only if none is on that edge and there are no more than the limit |
| BackfillDriver.DescendingUntilCompleteExactlyWhen | scripts/search/backfill-opensearch-messages.ts:188-246 | With `--until`, a descending run covers every row in bounds if and only if none of them lies exactly at that instant and there are no more than the limit |
| BackfillDriver.AscendingSinceCompleteExactlyWhen | scripts/search/backfill-opensearch-messages.ts:188-246 | With `--since`, an ascending run covers every row in bounds if and only if there is no row at that instant whose id is the nil UUID and there are no more than the limit |
| BackfillDriver.UntilRowIsSkipped | scripts/search/backfill-opensearch-messages.ts:192-233 | A one-row table on which the descending run processes nothing |
| PresenceMirror.BatchSize | backend/src/presence/service.ts:88-92 | Between 1 and 2000, and the given value whenever that is in range |
| PresenceMirror.UpsertLookup | backend/src/presence/service.ts:135-141 | For distinct users, one upsert gives each of them its row and leaves the others |
| PresenceMirror.MirrorQueue.constructor | backend/src/presence/service.ts:94-96 | Nothing pending, nothing in flight |
| PresenceMirror.MirrorQueue.EnqueuePresenceDbMirror | backend/src/presence/service.ts:106-113 | Replaces the user's pending status in place; the message is kept for "away" only; nothing when mirroring is off |
| PresenceMirror.MirrorQueue.TakeBatch | backend/src/presence/service.ts:115-123 | The loop takes the oldest entries up to the batch size and leaves the rest; nothing while a batch is out |
| PresenceMirror.MirrorQueue.Settle | backend/src/presence/service.ts:154-156 | The flag is cleared whether the query worked or not |
| PresenceMirror.BatchesAreWellFormed | backend/src/presence/service.ts:118-141 | In every run a batch holds distinct users, at least one and at most the batch size, so the upsert never fails for touching a row twice |
| PresenceMirror.LatestStatusIsFound | backend/src/presence/service.ts:94-157 | From any snapshot table, on runs whose batches take effect: each user's last status, or else the row found at the start, is the pending one if there is one, else the one in flight, else the one in the table |
| PresenceMirror.RoundsShrink | backend/src/presence/service.ts:115-157 | k flushes take k batches off the pending entries |
| PresenceMirror.DrainingEqualsDirectWrites | backend/src/presence/service.ts:94-157 | Draining leaves exactly the table that writing each status at once would have made of the table found at the start |
| PresenceMirror.LastStatusIsStored | backend/src/presence/service.ts:94-157 | Once drained the table has for each user the last status that was set, with its message if and only if that status is "away" |
| PresenceMirror.FailedBatchKeepsExactlyWhen | backend/src/presence/service.ts:149-156 | After a batch that fails, a user's last status is still found if and only if the user was not in it, or is pending again, or the table holds that status already |
| PresenceMirror.FailedBatchIsDropped | backend/src/presence/service.ts:149-156 | From any table without the status, a run in which one failing batch loses it: no number of further flushes writes it |
| MemberCounts.CountBuffer.constructor | backend/src/communities/communityMemberCount.ts:70-72 | Nothing pending, no timer |
| MemberCounts.CountBuffer.ScheduleDeltaFlush | backend/src/communities/communityMemberCount.ts:161-168 | A timer is armed afterwards |
| MemberCounts.CountBuffer.IncrCommunityMemberCount | backend/src/communities/communityMemberCount.ts:184-185 | Adds one to the pending delta and arms the timer |
| MemberCounts.CountBuffer.DecrCommunityMemberCount | backend/src/communities/communityMemberCount.ts:202-203 | Takes one off the pending delta and arms the timer |
| MemberCounts.CountBuffer.TimerFires | backend/src/communities/communityMemberCount.ts:122-128 | A flush takes everything pending |
| MemberCounts.CountBuffer.Requeue | backend/src/communities/communityMemberCount.ts:150-155 | The re-queue loop adds the whole snapshot back on top of what came in meanwhile |
| MemberCounts.StepBalance | backend/src/communities/communityMemberCount.ts:122-204 | Every step moves Redis plus pending plus in flight, for every community, by exactly its joins, its leaves and its drift |
| MemberCounts.CountsAreConserved | backend/src/communities/communityMemberCount.ts:122-204 | With any number of processes and overlapping flushes whose pipelines apply fully or not at all, and no clamp: the balance is the start plus joins minus leaves |
| MemberCounts.BalanceIsOffByDrift | backend/src/communities/communityMemberCount.ts:135-155 | In any run at all, with partial pipelines, failed commands and clamps, it is off by exactly the sum of the drifts |
| MemberCounts.IdleMeansExact | backend/src/communities/communityMemberCount.ts:122-159 | Once nothing is pending or in flight, Redis holds the true count |
| MemberCounts.PendingMeansArmed | backend/src/communities/communityMemberCount.ts:161-168 | In every run, whatever fails, pending deltas have a flush to come |
| MemberCounts.EverythingCanBeFlushed | backend/src/communities/communityMemberCount.ts:161-168 | From every state whose pending deltas have a timer, timers that fire and pipelines that are answered bring the whole balance into Redis |
| MemberCounts.ClampDueExactlyWhen | backend/src/communities/communityMemberCount.ts:138-146 | A clamp is due for a community exactly when its command worked and made the count negative |
| MemberCounts.ClampKeepsBalanceExactlyWhen | backend/src/communities/communityMemberCount.ts:142-147 | A clamp keeps the balance if and only if the count has meanwhile become 0 by itself |
| MemberCounts.RejectedClampCountsTwice | backend/src/communities/communityMemberCount.ts:147-155 | A rejected clamp pipeline raises the balance by every delta it re-queues, less the counts that its executed clamps overwrite; it is kept if and only if the two are equal |
| MemberCounts.LeaveBeforeJoinMiscounts | backend/src/communities/communityMemberCount.ts:137-147 | A run without any error in which one join and one leave end at a count of 1 instead of 0 |
| EnvProfile.SplitJoin | deploy/apply-env-profile.py:58-58 | Lines written with "\n" split into the same lines again |
| EnvProfile.LineEndingsAreEqual | deploy/apply-env-profile.py:14-14 | A carriage return, alone or before a line feed, ends a line as a line feed does |
| EnvProfile.BlanksByCodePoint | deploy/apply-env-profile.py:14-15 | Which characters end lines and which are stripped |
| EnvProfile.WrittenReadsBack | deploy/apply-env-profile.py:58-59 | What a written file reads back as, after the trailing whitespace is cut |
| EnvProfile.ParseEnvFile | deploy/apply-env-profile.py:10-24 | The parse loop refines the function that gives each key its last value, in order of first appearance |
| EnvProfile.ParsedFileIsPlain | deploy/apply-env-profile.py:14-24 | Every file parses to distinct trimmed one-line keys without "=" and trimmed one-line values |
| EnvProfile.PrintedIsParsedExactlyWhen | deploy/apply-env-profile.py:44-44 | A printed setting parses back to itself if and only if its key starts neither a comment nor an export |
| EnvProfile.FindPositions | deploy/apply-env-profile.py:32-41 | The index loop gives for each key the last line that sets it |
| EnvProfile.LastLineDecides | deploy/apply-env-profile.py:14-41 | The index and the parser agree: the indexed line is the last that sets the key, and its value is the parsed one |
| EnvProfile.UpsertLine | deploy/apply-env-profile.py:43-50 | Refines the upsert of the merge |
| EnvProfile.UpsertFacts | deploy/apply-env-profile.py:43-50 | After an upsert the lines parse as before except for that key, and the index is still right |
| EnvProfile.DefaultsFacts | deploy/apply-env-profile.py:52-54 | Defaults are added for absent keys only |
| EnvProfile.RequiredFacts | deploy/apply-env-profile.py:55-56 | Required settings override, all others stay |
| EnvProfile.MergeIntoTarget | deploy/apply-env-profile.py:27-59 | The imperative merge refines the merge function |
| EnvProfile.MergeThenParse | deploy/apply-env-profile.py:27-59 | For every target file: parsing the merged text gives each required value, a default only for an absent key, and every other key its last-wins value |
| EnvProfile.OtherLinesStay | deploy/apply-env-profile.py:43-58 | Of the lines of the target the last one that sets a required key becomes that setting as printed; every other line, comments included, stays as it is in its place |
| EnvProfile.NewKeySurvivesExactlyWhen | deploy/apply-env-profile.py:43-59 | A new setting survives the merge if and only if its key starts neither a comment nor an export |
| EnvProfile.MergeIsIdempotent | deploy/apply-env-profile.py:27-59 | Merging again gives the identical text |
| EnvProfile.EnsureRequired | deploy/apply-env-profile.py:62-70 | The check lists exactly the missing and exactly the wrong keys |
| EnvProfile.ApplyProfile | deploy/apply-env-profile.py:87-97 | The whole script refines its specification |
| EnvProfile.ProfileAlwaysApplies | deploy/apply-env-profile.py:80-98 | For any three files whose profile keys start no comment and no export, a non-empty profile applies, and applying it again changes nothing |
| EnvProfile.UnsafeKeyIsRejected | deploy/apply-env-profile.py:18-23 | Every such key can be written in a profile, behind an export, and on an absent target the script then rejects its own output |
| EnvProfileOutcome.ProfileAppliesExactlyWhen | deploy/apply-env-profile.py:73-98 | For every non-empty profile and every defaults file, or none: the script succeeds on all target files if and only if no profile key starts a comment or an export, and no default, printed without its export, is read back as a required setting with another value |
| EnvProfileOutcome.SafeProfileApplies | deploy/apply-env-profile.py:73-98 | The first half, for each target, harmless unsafe defaults included |
| EnvProfileOutcome.UnsafeProfileFails | deploy/apply-env-profile.py:43-70 | For every profile with an unsafe key and whatever defaults, a target on which validation fails: the longest unsafe key is never read back |
| EnvProfileOutcome.ShadowingDefaultFails | deploy/apply-env-profile.py:52-70 | For every safe profile and every default that shadows one of its settings, a target on which validation fails |
| EnvProfileOutcome.ExportedKeyShadows | deploy/apply-env-profile.py:18-20 | A setting written behind two exports in the defaults shadows every other value of its key |
| EnvProfileOutcome.UnsafeKeyShrinks | deploy/apply-env-profile.py:14-24 | The key that a printed unsafe setting is read back with, if any, is shorter than the one printed |
| Basics.StrLessTotal | backend/src/messages/conversationsRouterRepo.ts:202-206 | String order by code unit is total and strict |
| Basics.StrLessDecides | backend/src/messages/conversationsRouterRepo.ts:202-206 | The first difference decides, and a proper prefix is less |
| Basics.SortIsSortedPermutation | backend/src/messages/messageInsertLockPressure.ts:82-82 | A comparison sort gives a sorted permutation |
| Basics.DictSetKeepsOrder | deploy/apply-env-profile.py:11-24 | Setting a key moves no other key, and a new key goes to the end |
| Basics.SpliceIsWithout | backend/src/messages/channelInsertConcurrency.ts:369-370 | indexOf and splice remove the first occurrence, and nothing if there is none |
| Basics.WithoutMembers | backend/src/messages/channelInsertConcurrency.ts:369-370 | On a line without duplicates the removal takes out exactly that entry |

## Left out

- The `optimistic_bypass` path and the null channel of the insert lock: their bodies take no lock, so no exclusion is claimed for them.
- The `onInsertLock` callback, metrics, logging, tracing spans and sampling: they change no state that is proved about and are taken not to throw.
- Generation of lock tokens: the call's number stands for its token, so tokens are unique by construction.
- The 50 ms pause between release attempts and the op timeouts: a client may give up on a reply at any moment.
- InsertLockSpin.Spin: the clock is a parameter that never goes back, and sleeping is assumed to take at least the time asked for.
- LockPressure.Percentile95IsNearestRank: `0.95 * n` is computed exactly; a double gives the same ceiling for the at most 512 samples kept.
- PointerFlush: a batch of ids is given up one step at a time rather than all at once; the TTL of the Redis hashes, and the reconcile and pressure flags: with a flag off the flusher steps do not occur, so nothing reaches Postgres.
- PointerFlush: timestamps are integers that parse and print without loss; the 50-row batches of one flush may settle in any order.
- The count of attempts in the retry loop for foreign-key errors: a repoint may fail on the key and clear at any time, any number of times.
- DirectConversations: the triggers of migrations/036_direct_dm_pairs.sql:11-84, which recompute a pair row when participants, name or kind of a conversation change. For a new thread they write the row that the request writes anyway, in the same transaction; they rewrite and delete nothing else, because renaming, inviting into and leaving a 1:1 thread are refused (backend/src/messages/conversationsRouter.ts:372, 459-460, 556-558).
- DirectConversations: resolving user names to ids, groups of more than two, and people leaving a thread; the recovery lookup of legacy threads, since recovery is proved unreachable.
- DirectConversations.AnswersAgree: assumes that no COMMIT fails after the cache write of an adoption; DirectConversations.FailedCommitExactlyWhen says what happens otherwise.
- SideEffectQueues: the restart in the `finally` of a worker, which only follows an empty queue; numbers read from the environment are exact reals; what jobs do.
- Gates: parsing of the gate settings; a maximum below 1 would admit nobody and is excluded from the whole-run results.
- Gates.QueryGate.Query, Gates.QueryGate.GetClient and Gates.BcryptGate.WithBcryptConcurrency: what other callers do at an await is a sequence of entering, leaving and timing out, of which a move that cannot take place is skipped; when the pool's own circuit breaker opens is a parameter.
- Gates.OneReleasePerAcquire: a checked-out client that its user never releases keeps its permit; `getClientTimed` and read replicas.
- BackfillPagination.StayingRowIsReturned: for limits of at least 1; with limit 0 the first page is empty and paging ends at once.
- BackfillPagination: `localeCompare` is modelled as code-unit order, with which it agrees on lower-case UUIDs; times are integers.
- BackfillDriver: fractional or infinite limits and counters in a hand-edited checkpoint; the pause between batches; document contents; OpenSearch switched off, when a bulk request does nothing and counts as indexed.
- PresenceMirror: writes of other processes to the same rows, `updated_at`, inline mode, the Redis compare-and-set in front of the queue, and the timer that triggers flushes.
- MemberCounts: reconciliation against COUNT(*) and direct Postgres mode, since interleaved joins break the clean statement; the dirty set, and the clamp of negative counts on reading.
- EnvProfile: decoding and encoding of UTF-8 and I/O errors; the wording of the validation message.
- SQL ranking and paging in the search client, versioned access caches, singleflight, the token bucket, Redis cluster mode, HTTP, validation, auth, WebSocket delivery and the frontend: plumbing, or code whose meaning lives elsewhere.
- Finite tables and one-line clamps elsewhere in the repository: their code says all there is to say about them.
