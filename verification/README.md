# RepricerX: verified model

RepricerX reprices the products of marketplace sellers. A calculator turns a strategy, a cost and
competitor prices into a price plan; a durable job queue in PostgreSQL runs the plan; a dispatcher
pushes it to the marketplace in chunks; several replicas of API, worker and scheduler coordinate
only through conditional SQL updates. Around that core stand rate limiters, a small Redis client,
catalogue import, notification digests, an audit search and a login lockout.

The model follows the code statement by statement. An SQL statement, a transaction or a Redis script
is one atomic step; between two steps any other process can act, and any process can die. A
handler that works step by step is a method of a class whose fields are the rows it changes, proved
against functions on those rows; what holds over all interleavings is proved about state machines
whose steps are the statements (`Apply` is total: a step that is not enabled changes nothing, so
`Exec` ranges over all finite sequences of steps).

| file | what it models |
|---|---|
| `JobQueue.dfy`, `JobProtocol.dfy` | the table `background_jobs`, its statements, the workers' decisions, and any number of workers and clients over it |
| `PlanProtocol.dfy` | one price plan under any number of callers of enqueue, cancel, clean-up, and its dispatch workers |
| `Marketplace.dfy`, `DispatchItems.dfy`, `Dispatch.dfy` | the mock marketplace, the items of a plan and the account kept of them, and one dispatch job over all of its attempts |
| `Digest.dfy` | digest flushers and digest workers |
| `Scheduler.dfy` | the scheduled recalculation tick on any number of replicas |
| `RateLimit.dfy`, `FixedWindow.dfy` | the token bucket and the Redis fixed window |
| `Resp.dfy` | printing commands and parsing replies of the Redis serialization protocol |
| `Money.dfy`, `PriceStats.dfy`, `Calculator.dfy`, `PricingProps.dfy` | rounding, median and minimum, the price calculator, and what it promises |
| `ProductImport.dfy` | normalising imported rows and the upsert |
| `Lockout.dfy` | the failure counter and lockout of an account |
| `AuditSearch.dfy` | LIKE escaping |

`dafny verify dfyconfig.toml` checks the project.

A dispatch job runs against an environment that may fail any statement, kill the process, cancel the
plan and answer each call as it likes. A `Rehearsal` narrows this to one course of events (the answers
of the marketplace, the items whose status cannot be written, whether the credentials decrypt), in which an attempt equals a
function, `AttemptCourse`; with it a bad end is shown to be reached. In every run each failed statement
is recorded where it fails (`Faults`), and whatever is lost for an item is traced to such a record or to
a death that cut its writes off.

A property that the code does not keep is stated with its exact condition: a lemma named `...Exactly`
says that it holds if and only if something holds that a caller could look up before, and the
other direction is a run that breaks it.

The functions that the methods are proved against are pinned in turn: lemmas named `...SpelledOut` say
what they compute in terms of their inputs, down to the literal statuses, columns, bytes and amounts.

## What the proofs found

- A claim that raises `attempts` above `max_attempts` violates the table's own CHECK constraint and
  fails, changing nothing. A due row at the head of its queue that waits with its attempts used up
  therefore starves the queue: polls that come one after the other get nothing
  (`PoisonedHeadStarvesQueue`). A poll gets past it exactly when another statement, such as a poll
  that is failing at the same moment, holds the row (`LockedHeadIsSkipped`). Such a row arises exactly
  when a completion sends back for a retry a row that runs at its last attempt (`SpentExactly`,
  `NeverSpentExactly`); a worker that outlives its lease does so (`OverrunPoisonsQueue`), and, with no
  overrun at all, an import that cannot store its log at its last attempt (`UnsavedImportPoisonsQueue`).
- The column `result` of the job table is NOT NULL, and the worker gives no result for any job but an
  import. The database refuses those completions, so over every run no other job is ever succeeded,
  failed or cancelled (`OnlyImportsEnd`, `EndsExactly`). The row stays `running`, is claimed again after
  its lease until its attempts are used up, and then stays `running` for ever (`OrphanExactly`: a job
  without a worker can change again exactly if it has attempts left). For a dispatch job the further
  attempts find a terminal plan and send nothing (`ProcessDispatchJob`).
- Another dispatch job can follow exactly if the plan is `calculated`, a client is about to insert, or
  one is about to roll back a plan that is `dispatching` (`AnotherJobExactly`); a
  lost reply to the insert leads there (`LostReplyEnqueuesTwice`). A caller that dies between
  compare-and-set and insert leaves the plan in `dispatching` without a job (`AbandonedPlanIsStuck`).
- Plan statuses called terminal are not absorbing: a late cancellation overwrites `applied`, a late
  finalization overwrites `cancelled` (`CancelAndFinalizeRace`), and so does an exhausted job, which
  finalizes without reading the plan. `TerminalStatusIsKeptExactly` says when a status is kept.
- A refused dispatch leaves the plan `failed` even when earlier attempts dispatched some of its items
  (`RefusedAfterPartialSend`, `PartlySentThenRefused`); that status is the classification of the items
  exactly if none is dispatched (`RunJob`).
- An item whose status write is lost after an accepted call stays pending although the attempt succeeds
  (`LostMarksStayPending`), and so do the items of an exhausted job that cannot list them
  (`ExhaustedUnlisted`).
- `ExecuteDispatchJob` ignores the error of its second read of the plan
  (internal/service/dispatcher/worker.go:65) and then uses the missing plan; the model treats that as
  the death of the process.
- The token bucket credits slept time twice, so its rate is twice the nominal one and no more
  (`TwiceTheRate`, `FactorTwoIsReached`). The Redis window can pass `2 * limit - 1` calls in one window
  length and no more, for every limit and window (`TwiceTheLimitPerWindow`, `BoundIsReached`).
- Raising the cost can lower the price in one case only: a first cost for a margin strategy, which so
  far used its fallback. `FirstCostLowersThePrice` says exactly for which products some such cost exists.
- Repeated recalculation can stop short of its goal, exactly when the permitted change rounds to nothing
  (`StallsExactly`).
- Whatever the schedule, a scheduler replica whose clock is ahead by however little can claim one cron
  slot twice (`AgreementIsExact`).
- One imported row can make the store refuse the whole import: a stock that is negative once narrowed to
  32 bits (2^31, say), or a vendor code that holds a NUL or that the cut at 100 bytes splits inside a
  character. `RefusedExactly` says which listings are refused; a stock of 2^32 + k is stored as k
  (`StockIsKeptExactly`, `LargeStockIsRefused`). A listed SKU that holds a NUL makes the import log fail
  after the products are stored (`ExecuteImport`), which is the retry that poisons the queue.
- A lost reply to the enqueue of a digest lets a delivery into two payloads, and nothing else does
  (`LostReplyOverlapsExactly`); two overlapping runs of a digest job mail twice
  (`OverlappingRunsMailTwice`).

## Model

| member | source | states |
|---|---|---|
| JobQueue.Jobs.Enqueue | internal/repository/background_jobs_pg.go:20-49 | Inserts one pending row with the defaults of the source (queue, maximum 3 when not positive, due now), which satisfies the table's constraint. |
| JobQueue.Jobs.ClaimNext | internal/repository/background_jobs_pg.go:51-83 | Claims a first row in scan order among the claimable ones that are not locked, with attempt number one higher and a lease; answers that there is nothing only if no such row exists; a row at its maximum makes the statement fail and change nothing. |
| JobQueue.Jobs.Complete | internal/repository/background_jobs_pg.go:85-135 | Succeed, Retry and Fail change a running row only and all others stay: it becomes `succeeded` or `failed` with the result given, or `retry` with the new time, and loses its lease. ErrNotFound is reported exactly when the row is missing or not running; a running row is changed exactly by a retry or with a result, for without one the NOT NULL column refuses the statement. |
| JobQueue.FirstExists | internal/repository/background_jobs_pg.go:55-65 | The scan order by priority, due time and creation has a first row in every non-empty set of rows. |
| JobQueue.PickedIsFirst | internal/repository/background_jobs_pg.go:55-65 | The row claimed is due, or running with an expired lease and attempts left; no other such row that is not locked has a higher priority, an earlier due time at the same priority, or an earlier creation at the same both. |
| JobProtocol.ClaimsAreNumbered | internal/repository/background_jobs_pg.go:51-83 | Over every run of any number of workers and clients, with no assumption on leases: the claims of a job got the numbers 1, 2, 3, ..., at most max_attempts of them; max_attempts minus attempts is a termination measure. |
| JobProtocol.TerminalIsAbsorbing | internal/repository/background_jobs_pg.go:85-135 | Over every run, a succeeded, failed or cancelled job keeps its row unchanged. |
| JobProtocol.EndsExactly | migrations/000006_background_jobs.up.sql:22-22 | A step ends a job if and only if it cancels a waiting import or completes a running job, other than for a retry, with a result. |
| JobProtocol.OutcomeIsStored | cmd/worker/main.go:216-431 | A step makes a job succeeded if and only if it completes its run as done with a result, and failed if and only if it completes it with a result after a fatal error or after any error at the last attempt; the result stored is the one of the outcome, and nothing else changes but the lease. |
| JobProtocol.RetryIsStored | internal/repository/background_jobs_pg.go:102-117 | A running job is put back to wait if and only if its import was not saved or it had an error before its last attempt, with the time the worker gave and no lease. |
| JobProtocol.OnlyImportsEnd | cmd/worker/main.go:269-431 | Over every run, no job but an import is ever succeeded, failed or cancelled. |
| JobProtocol.RunKeepsInv | migrations/000006_background_jobs.up.sql:35-37 | Over every run the attempts constraint holds, two attempts of one job in progress have different numbers, and the log of claims matches the rows. |
| JobProtocol.SpentExactly | cmd/worker/main.go:216-431 | A step makes a row wait with no attempts left if and only if it sends back for a retry a row that runs at its last attempt. |
| JobProtocol.NeverSpentExactly | cmd/worker/main.go:216-431 | Over every run: no row ever waits with no attempts left if and only if no step does that. |
| JobProtocol.LeasesAreExclusive | cmd/worker/main.go:216-431 | When every worker finishes or dies within its lease and imports ask for an unconditional retry only with attempts left: no two workers hold one job, and every claimable row has attempts left. |
| JobProtocol.OrphanNeverEnds | internal/repository/background_jobs_pg.go:55-65 | A running job at its last attempt without a worker is never changed again. |
| JobProtocol.OrphanExactly | internal/repository/background_jobs_pg.go:55-65 | A running job without a worker can change again if and only if it has attempts left. |
| JobProtocol.PoisonedHeadStarvesQueue | internal/repository/background_jobs_pg.go:51-83 | While the first due row of a queue has used up its attempts, workers that poll while no other statement holds it claim nothing from that queue. |
| JobProtocol.LockedHeadIsSkipped | internal/repository/background_jobs_pg.go:55-65 | A poll gets a job in spite of such a head if and only if another statement holds the head and some other row can be claimed. |
| JobProtocol.OverrunPoisonsQueue | cmd/worker/main.go:302-349 | One worker that outlives its lease leads to such a row. |
| JobProtocol.UnsavedImportPoisonsQueue | internal/service/product/service.go:322-331 | An import whose log cannot be stored at its last attempt leads to such a row, within its lease. |
| PlanProtocol.AtMostOneDispatchJob | internal/service/dispatcher/service.go:103-147 | Under every interleaving of enqueuers, failed inserts with rollback, cancellations, clean-ups and workers: at most one dispatch job is inserted, and once it exists the plan is never `calculated` again. |
| PlanProtocol.RunKeepsOneToken | internal/repository/price_plans_pg.go:218-228 | The right to enqueue is always with the plan, one client or the job, never with two. |
| PlanProtocol.AnotherJobExactly | internal/service/dispatcher/service.go:118-145 | From every state, another dispatch job is reachable if and only if the plan is calculated, a client is about to insert, or the plan is dispatching and a client is about to roll back. |
| PlanProtocol.LostReplyEnqueuesTwice | internal/service/dispatcher/service.go:134-145 | A lost reply to the insert leads there: two jobs can exist. |
| PlanProtocol.AbandonedPlanIsStuck | internal/service/dispatcher/service.go:118-145 | A plan whose caller died after the compare-and-set gets no job in any run; only cancellation or clean-up ends it. |
| PlanProtocol.TerminalStatusIsKeptExactly | internal/service/dispatcher/service.go:151-235 | A terminal status is kept over all runs if and only if no client that read the plan is about to cancel it (unless it is cancelled), no attempt that passed its check is sending or will send, and an exhausted job, if one can still come, would write the same. |
| PlanProtocol.CancelAndFinalizeRace | internal/repository/price_plans_pg.go:119-131 | `applied` can be overwritten by `cancelled` and the other way round. |
| PlanProtocol.StatusChangesSpelledOut | internal/service/dispatcher/service.go:103-235 | Which statement can change the status of the plan from what to what; a finalization writes applied, partial or failed as the items say. |
| PlanProtocol.WritesTakeEffect | internal/service/dispatcher/service.go:149-166 | The unconditional writes always take effect; a cancellation is refused for a terminal plan only and an enqueue for every plan that is not calculated. |
| Marketplace.ApplyAllPrices | internal/integration/mock/store.go:59-74 | A list of updates prices exactly the known SKUs it names, each with the last price given, and adds none. |
| Marketplace.ChangedPriceIsGiven | internal/integration/mock/store.go:59-74 | After a list of updates a known SKU has its old price or one of the prices given for it. |
| Marketplace.Store.EnsureSeeded | internal/integration/mock/store.go:27-39 | Seeds a bucket at first use without changing what any caller sees. |
| Marketplace.Store.Apply | internal/integration/mock/store.go:59-74 | Applies all updates to this bucket and leaves all others alone. |
| DispatchItems.ChunkItems | internal/service/dispatcher/worker.go:274-284 | The chunks concatenated are the list; none is empty or over the size, all but the last have it; a size that is not positive means 100. |
| DispatchItems.CallKeepsFaithful | internal/service/dispatcher/worker.go:123-152 | Whatever part of a call takes effect in whatever order, dispatched items keep their final price at the marketplace; an accepted call sets the final prices it carries. |
| DispatchItems.CallMoves | internal/integration/mock/store.go:59-74 | Whatever part of a call takes effect: the marketplace keeps its SKUs, and a price that changes becomes the final price of the item of the call with that SKU. |
| DispatchItems.RowSpelledOut | internal/service/dispatcher/worker.go:154-173 | A dispatched item and one that failed in this job have a price-change row, with the final price and the old price respectively, and no others do. |
| DispatchItems.RefusedAfterPartialSend | internal/service/dispatcher/worker.go:138-152 | For every plan and chunk size: an attempt with one chunk accepted and the next rate limited, then a refused one, leave the plan failed although `partial` is the classification of its items. |
| DispatchItems.LostMarksStayPending | internal/service/dispatcher/worker.go:154-160 | For every plan and every set of items whose status cannot be written: an attempt whose calls are accepted succeeds, leaves exactly those pending, and the plan is unfinished exactly if there are any. |
| Dispatch.DispatchJob.constructor | internal/service/dispatcher/service.go:103-147 | A plan at the time its job is inserted meets the job's invariant. |
| Dispatch.DispatchJob.TransitionStatus | internal/repository/price_plans_pg.go:218-228 | The compare-and-set wins exactly from the expected status, and otherwise leaves the plan to the other clients. |
| Dispatch.DispatchJob.UpdateStatus | internal/repository/price_plans_pg.go:119-131 | The unconditional status write. |
| Dispatch.DispatchJob.UpdateItemAfterDispatch | internal/repository/price_plans_pg.go:164-178 | Changes the status of one item only. |
| Dispatch.DispatchJob.FailItem | internal/service/dispatcher/service.go:188-202 | Fails one item and appends its price-change row with the old price; what is lost is lost to a recorded failed statement or to a death, and every other item keeps its account. |
| Dispatch.DispatchJob.FailAllItems | internal/service/dispatcher/service.go:186-203 | Fails all listed items and no others, each with its price-change row, except those whose writes failed or were cut off. |
| Dispatch.DispatchJob.MarkChunk | internal/service/dispatcher/worker.go:154-173 | Marks the items of an accepted call, each with its price-change row; an item stays pending only if its write failed, and the loop then goes on, or if the process died. |
| Dispatch.DispatchJob.CallMarketplace | internal/service/dispatcher/worker.go:123-152 | One call over pending items, accepted in full or answered with an error after any part of it; the marketplace keeps its SKUs, and the price of a SKU of no item of the call; counts calls sent after a cancellation. |
| Dispatch.DispatchJob.CheckCancelled | internal/service/dispatcher/worker.go:209-219 | The chunk loop goes on only if the plan is not cancelled at this moment. |
| Dispatch.DispatchJob.SendChunk | internal/service/dispatcher/worker.go:112-177 | Sends the next slice of the list, keeps the invariant, and sends nothing when the plan is already cancelled. |
| Dispatch.DispatchJob.SendChunks | internal/service/dispatcher/worker.go:109-184 | All chunks in order: on success without cancellation only items whose mark was lost are pending, and with none the plan is finished; in a rehearsal it follows the course function. |
| Dispatch.DispatchJob.GiveUp | internal/service/dispatcher/worker.go:93-107 | The unauthorized path fails every listed item, also those dispatched in this run, unless its status write was lost, and then the plan, unless that write was lost. |
| Dispatch.DispatchJob.BeginAttempt | internal/service/dispatcher/worker.go:42-70 | An attempt goes on only with a plan that is not finished; a terminal plan is success without action. |
| Dispatch.DispatchJob.ExecuteDispatchJob | internal/service/dispatcher/worker.go:26-184 | One attempt from any reachable state keeps the account of every item; success without cancellation leaves only unmarked items pending and, with none, a finished plan; a refusal leaves the plan failed; with a healthy database the attempt equals its course function. |
| Dispatch.DispatchJob.FinalizePlanStatus | internal/service/dispatcher/service.go:206-235 | With no pending item the plan gets the applied, partial or failed classification of its items; with one it stays. |
| Dispatch.DispatchJob.MarkExhausted | internal/service/dispatcher/service.go:170-184 | Success leaves only items pending whose write failed and, with none, a finished plan; an error means that the list of items, or the finalization, failed in this call; a terminal plan stays terminal. |
| Dispatch.DispatchJob.ProcessDispatchJob | cmd/worker/main.go:302-349 | Only a retry changes the row, which it puts back to wait with no lease, for the other completions carry no result; an attempt that was meant to end the job leaves it settled; with a terminal plan nothing is sent any more, and with no pending item none changes. |
| Dispatch.DispatchJob.RunJob | cmd/worker/main.go:302-349 | Over all attempts of a job with errors, rate limits, partly applied calls, failed writes, deaths and cancellations at any point: the marketplace keeps its SKUs, a SKU whose price changed has the final price of an item that was pending when the job was inserted, and a dispatched item has its final price there; an item none of whose writes failed or was cut off was in exactly one accepted call if it was sent and in none otherwise, and, if no insert of its row failed, its last price-change row is the one of its status. After the last attempt, unless its process died or a client cancelled the plan, a pending item is one whose write failed or was cut off, or one that the exhausted job could not list; with no failed statement none is pending and the plan is finished. A finished plan is classified by its items unless it was refused; a refused one is failed, its classification exactly if no item is dispatched. At most one call is sent after a cancellation. The row takes all attempts and stays running. |
| Dispatch.PartlySentThenRefused | cmd/worker/main.go:302-349 | Three attempts of a new job: one chunk sent, then refused, then a terminal plan; the plan is failed with items dispatched, the row running with no attempt left. |
| Dispatch.ExhaustedUnlisted | cmd/worker/main.go:320-335 | A job whose last attempt is rate limited and which cannot list its items leaves them all pending, its row running with no attempt left. |
| Digest.FilterByMinSeverity | internal/service/notifier/digest.go:123-146 | Splits a batch without loss or repetition into those that meet the minimum severity and the others. |
| Digest.SeverityOrder | internal/service/notifier/digest.go:123-146 | The filter compares severities in the order information, warning, error. |
| Digest.DigestPendingItems | internal/service/notifier/worker.go:133-149 | Keeps exactly the deliveries that no earlier run has finalized. |
| Digest.TodoSpelledOut | internal/service/notifier/worker.go:133-149 | What a run mails is exactly what of its payload is still queued or pending. |
| Digest.PayloadsAreDisjoint | internal/service/notifier/digest.go:65-117 | Over every interleaving of flushers and workers, with failures and deaths, in which an insert that reports an error inserted nothing: payloads of different jobs and batches in the hands of flushers are pairwise disjoint. |
| Digest.LostReplyOverlapsExactly | internal/service/notifier/digest.go:102-111 | After an enqueue, an otherwise honest run can put a delivery into two payloads if and only if the reply to that enqueue was lost. |
| Digest.BatchIsQueuedOrSkipped | internal/service/notifier/digest.go:73-111 | Every enqueued batch is of one recipient and splits into the payload, exactly those that meet the minimum, and the rest, skipped for good unless that write was lost. |
| Digest.MailedAtMostOnce | internal/service/notifier/worker.go:95-130 | When runs of one job do not overlap, a delivery is mailed at most once plus once per run that ended between the mail and its last mark, a mail that was answered with an error included. |
| Digest.OverlappingRunsMailTwice | internal/service/notifier/worker.go:95-130 | That runs do not overlap is needed: from every state with an open delivery two overlapping runs mail it twice. |
| Digest.FinalIsNeverMailedAgain | internal/service/notifier/worker.go:95-130 | A finalized delivery stays final and is never mailed again. |
| Digest.MarkFollowsMail | internal/service/notifier/worker.go:108-128 | A run marks `sent` after a mail that was delivered and `skipped` after one the channel declined; an error ends it without a mark. |
| Digest.SentWasMailed | internal/service/notifier/worker.go:95-130 | Over every run, a delivery that becomes sent has been mailed. |
| Digest.RunKeepsOwned | internal/repository/notification_deliveries_pg.go:104-148 | Every delivery has at most one owner: nobody, one flusher or one job. |
| Scheduler.ClaimsAreASlotApart | internal/scheduler/scheduler.go:222-273 | Over every interleaving of any number of replicas, consecutive claims t1, t2 of a shop satisfy next(t1) <= t2 plus the clock difference. |
| Scheduler.OneClaimPerSlot | internal/repository/shops_pg.go:148-161 | With agreeing clocks no slot of any monotone schedule is claimed twice. |
| Scheduler.SkewedClockClaimsTwice | internal/scheduler/scheduler.go:232-255 | For every schedule and every positive lead of a replica's clock there is a run with two claims less than a slot apart. |
| Scheduler.AgreementIsExact | internal/scheduler/scheduler.go:222-273 | For every schedule: no run claims a slot twice if and only if no clock is ahead of the database clock. |
| Scheduler.TouchSpelledOut | internal/repository/shops_pg.go:148-161 | The update wins if and only if nobody has updated since the value it expects, and then stores the database time; it changes nothing else. |
| Scheduler.TouchWinsExactly | internal/repository/shops_pg.go:148-161 | A claim is won if and only if the shop, as listed, was due on the replica's clock and nobody has updated it since. |
| Scheduler.FirstClaimWaits | internal/scheduler/scheduler.go:232-255 | Over every run, the first claim of a shop waits, up to the clock difference, for the first moment of its schedule after its last recalculation, or after its creation if it never had one. |
| RateLimit.Bucket.constructor | internal/pkg/ratelimit/registry.go:18-25 | A fresh bucket is full, with burst max(1, 2 * rps). |
| RateLimit.Bucket.Wait | internal/pkg/ratelimit/registry.go:27-53 | In seconds, equals the closed form on the clock that counts tokens, for every mix of immediate, slept and cancelled calls. |
| RateLimit.WaitedSpelledOut | internal/pkg/ratelimit/registry.go:27-53 | The closed form case by case: a permission at once for a token, else at the time the missing part is gained, unless the caller gives up before; the tokens left in each case. |
| RateLimit.OneCall | internal/pkg/ratelimit/registry.go:27-53 | A permission and the tokens left cost at most the tokens before and twice the time the call took. |
| RateLimit.TwiceTheRate | internal/pkg/ratelimit/registry.go:27-53 | From any moment the lock is free, every sequence of calls gets at most the available tokens plus twice the nominal rate. |
| RateLimit.BurstAndTwiceTheRate | internal/pkg/ratelimit/registry.go:64-72 | In seconds: at most max(1, 2 * rps) + 2 * rps * T permissions in time T. |
| RateLimit.FactorTwoIsReached | internal/pkg/ratelimit/registry.go:27-53 | Back-to-back callers get 2n permissions in the time of n tokens. |
| FixedWindow.Limiter.Allow | internal/pkg/redislimit/limiter.go:55-116 | Without a positive limit and window everything passes; otherwise a call passes exactly if the counter of the key's life is within the limit. |
| FixedWindow.AtMostLimitPerLife | internal/pkg/redislimit/limiter.go:17-24 | Over every call sequence, min(count, limit) calls of a key's life are allowed. |
| FixedWindow.IntervalBound | internal/pkg/redislimit/limiter.go:17-24 | What an interval of one window can hold, split by the life it begins in and the life that begins in it. |
| FixedWindow.TwiceTheLimitPerWindow | internal/pkg/redislimit/limiter.go:17-24 | Fewer than 2 * limit calls pass in any interval of one window length. |
| FixedWindow.BoundIsReached | internal/pkg/redislimit/limiter.go:17-24 | 2 * limit - 1 calls can pass, for every limit and window. |
| Resp.EncodeCommand | internal/pkg/redislimit/limiter.go:118-131 | Equals the printed array of bulk strings. |
| Resp.Reader.ReadLine | internal/pkg/redislimit/limiter.go:196-202 | Takes the bytes up to the first line feed that closes a line, trims its end, and fails without one. |
| Resp.Reader.ReadRESP | internal/pkg/redislimit/limiter.go:133-194 | Equals the parsing function on the unread bytes, error cases included, and leaves the rest unread. |
| Resp.AtoiItoa | internal/pkg/redislimit/limiter.go:118-131 | Reading a printed decimal gives the number back, for every 64-bit integer. |
| Resp.ParsePrint | internal/pkg/redislimit/limiter.go:133-194 | Parsing a printed value followed by any bytes gives the value and leaves those bytes: nested arrays, integers, nulls and strings with any bytes, line ends included. |
| Resp.CommandRoundTrip | internal/pkg/redislimit/limiter.go:118-194 | A sent command is read back part by part, for every list of byte strings. |
| Resp.PrintSpelledOut | internal/pkg/redislimit/limiter.go:118-131 | The bytes of each kind of value: its literal type byte, the length or number, and CR LF. |
| Resp.ItoaSpelledOut | internal/pkg/redislimit/limiter.go:118-131 | Numbers are printed in decimal digits with a minus sign. |
| Resp.PingOnTheWire | internal/pkg/redislimit/limiter.go:118-131 | The command PING as it goes over the wire, byte for byte. |
| Resp.OtherReplies | internal/pkg/redislimit/limiter.go:133-194 | A line after a plus sign is read as a string, and an unknown first byte is an error. |
| PriceStats.SortInPlace | internal/service/pricing/calculator.go:322-324 | Leaves the array sorted, with the same values. |
| PriceStats.SortSorts | internal/service/pricing/calculator.go:322-324 | What the sort leaves is sorted and has the same values. |
| PriceStats.ComputeMedian | internal/service/pricing/calculator.go:318-330 | The middle of any sorted arrangement of the values; the copy is sorted in place and the input array stays unchanged. |
| PriceStats.MedianIsInTheMiddle | internal/service/pricing/calculator.go:318-330 | The middle value of any sorted arrangement, or the mean of the two middle ones for an even count. |
| PriceStats.MinPrice | internal/service/pricing/calculator.go:332-343 | One of the values, and none is smaller; the first of the sorted values. |
| PriceStats.SortedIsUnique | internal/service/pricing/calculator.go:322-324 | A sorted list is determined by its elements, so the sorting algorithm does not matter. |
| PriceStats.MedianIsCentral | internal/service/pricing/calculator.go:318-330 | At least half of the values on each side, between the minimum and every upper bound. |
| PriceStats.StatsMonotone | internal/service/pricing/calculator.go:318-343 | Raising values pointwise lowers neither median nor minimum. |
| PriceStats.StatsIgnoreOrder | internal/service/pricing/calculator.go:318-343 | Both depend on the multiset of values only. |
| PriceStats.CollectPriceStats | internal/repository/product_competitors_pg.go:266-292 | On rows ordered by the query: count, minimum and median equal the calculator's own on the same prices in any order. |
| Calculator.Calculate | internal/service/pricing/calculator.go:72-184 | The step-by-step calculation equals the composition of formula, profit floor, price range, change limit, cost and rounding, with the skip and fallback cases; `PriceSpelledOut` and `FallbackSpelledOut` give the composition in terms of the product. |
| Calculator.ApplyProfit | internal/service/pricing/calculator.go:112-142 | Steps 2 and 3 raise the target to the profit floor and name the rule that asked for most. |
| Calculator.ApplyBounds | internal/service/pricing/calculator.go:144-172 | Steps 4 to 6 and the last bound that moved the price. |
| Calculator.ApplyFallback | internal/service/pricing/calculator.go:237-285 | The fallback price with its two degradations, floored by the cost. |
| Calculator.PercentagesSpelledOut | internal/service/pricing/calculator.go:108-234 | What raising and lowering by a percentage mean. |
| Money.RoundedIsNear | internal/service/pricing/service.go:301-306 | Rounding gives whole kopecks, at most half a kopeck away, half of one away from zero, and keeps whole kopecks. |
| PricingProps.PricedExactly | internal/service/pricing/calculator.go:72-104 | A product gets a price if and only if it is in roubles, not archived, has a price, and its strategy is given, enabled and has what its formula needs. |
| PricingProps.PriceSpelledOut | internal/service/pricing/calculator.go:102-234 | For any sorted arrangement t of the competitors: the target is the middle of t lowered by the percentage, t[0] plus the step, the cost raised by the margin, or the fixed price; target and final price are rounded, the latter after raising it to cost, margin and profit, and applying price range, change limit and cost in this order. |
| PricingProps.UnroundedIsBounded | internal/service/pricing/calculator.go:108-172 | The bounds, applied one by one in terms of the product, give the unrounded price. |
| PricingProps.FallbackSpelledOut | internal/service/pricing/calculator.go:237-285 | A skipped product has no target and the fallback price of its strategy, degraded and floored by the cost; nothing when the strategy is not enabled or the product cannot be priced. |
| PricingProps.BoundsGiveWayInOrder | internal/service/pricing/calculator.go:108-172 | The cost is never broken, the change limit only by the cost, the price range only by these two, the profit rules only by one of the others, each time with the value the price then has: it sits on the bound that broke the other. |
| PricingProps.HitNamesTheBound | internal/service/pricing/calculator.go:108-183 | The reported bound is empty if and only if the target meets every bound, and then the target stands; a named bound equals the unrounded price. |
| PricingProps.NeverBelowCost | internal/service/pricing/calculator.go:168-174 | The rounded price, fallback included, is at least a cost in whole kopecks and otherwise at most half a kopeck below it. |
| PricingProps.FinalPriceMonotone | internal/service/pricing/calculator.go:102-184 | Dearer competitors or a higher cost never lower the final price, for every product and valid strategy except a first cost for a margin strategy. |
| PricingProps.FirstCostLowersThePrice | internal/service/pricing/calculator.go:222-231 | For a margin strategy without cost, some first cost lowers the price if and only if the least price the bounds allow rounds below the fallback price. |
| PricingProps.OrderDoesNotMatter | internal/service/pricing/calculator.go:193-234 | Permuting the competitors changes no figure of the result. |
| PricingProps.StepTowardGoal | internal/service/pricing/calculator.go:108-174 | One recalculation from whole kopecks moves toward the rounded goal, never past it, and ends in whole kopecks. |
| PricingProps.MonotoneTowardGoal | internal/service/pricing/calculator.go:108-174 | Over any number of recalculations the prices are monotone toward the goal, never overshoot it and stay once there. |
| PricingProps.StallsExactly | internal/service/pricing/calculator.go:154-166 | Short of the goal the price stays if and only if the change limit rounds back to it. |
| PricingProps.Settles | internal/service/pricing/calculator.go:108-174 | After at most as many recalculations as there are kopecks to the goal the price rests: at the goal, stalled, or no longer above zero. |
| ProductImport.NormalizeImportRows | internal/service/product/service.go:608-656 | Keeps exactly the first valid occurrence of each trimmed SKU within the row limit, in order, and reports every other row with its reason. |
| ProductImport.CapImportErrors | internal/service/product/service.go:763-769 | At most 50 errors, the first ones, and one that says there were more. |
| ProductImport.ValidSkuSpelledOut | internal/service/product/service.go:614-638 | Which listed SKUs are valid. |
| ProductImport.RowSpelledOut | internal/service/product/service.go:627-654 | The row kept of a listed SKU, column by column: trimmed texts, the SKU for a missing name, RUB for a missing currency, no negative stock, at most 100 bytes of vendor code. |
| ProductImport.TrimSpaceSpelledOut | internal/service/product/service.go:614-643 | Trimming cuts white space at both ends and nothing else. |
| ProductImport.ErrorSpelledOut | internal/service/product/service.go:608-656 | The error reported for each row that is skipped. |
| ProductImport.KeptRowsAreDistinct | internal/service/product/service.go:608-656 | Kept SKUs are pairwise distinct; kept and skipped rows add up to the input; a row is kept if and only if it is the first valid one with its SKU within the limit. |
| ProductImport.Products.UpsertImported | internal/repository/products_pg.go:135-195 | One statement: accepted exactly when no two rows share a SKU and every row fits the columns, the stock, once narrowed, not negative and the vendor code UTF-8 without NUL; otherwise nothing changes. |
| ProductImport.UpsertResult | internal/repository/products_pg.go:135-195 | Of an accepted statement, each imported SKU holds its merged row, the price in kopecks, and every other SKU is untouched; `ColumnsSpelledOut` lists the columns. |
| ProductImport.ColumnsSpelledOut | internal/repository/products_pg.go:158-190 | Of an accepted statement, column by column: name, currency, price and time are the imported ones, the product is active, a vendor code that is not listed stays, and the columns an import does not set (cost, price limits, rating) stay for every known SKU and are empty for a new one. |
| ProductImport.StockIsKeptExactly | internal/repository/products_pg.go:155-155 | Of an accepted statement, the stored stock is the listed one modulo 2^32, the same if and only if that is less than 2^31; the stored price is the listed one in kopecks. |
| ProductImport.UpsertCounts | internal/repository/products_pg.go:135-195 | added + updated = rows, and updated counts the SKUs the catalogue had. |
| ProductImport.UpsertIgnoresOrder | internal/repository/products_pg.go:135-195 | The order of the rows changes neither catalogue nor counts. |
| ProductImport.ReimportChangesNothing | internal/repository/products_pg.go:135-195 | The same rows again add nothing and change nothing but timestamps. |
| ProductImport.CutIsValidExactly | internal/service/product/service.go:640-643 | The first n bytes of a text are valid UTF-8 if and only if the cut falls between two characters. |
| ProductImport.RefusedExactly | migrations/000005_product_catalog_support.up.sql:36-48 | The store takes an import if and only if every kept row was listed with a stock that does not wrap below zero and a vendor code without NUL that is not cut inside a character. |
| ProductImport.LargeStockIsRefused | internal/repository/products_pg.go:155-155 | A valid SKU with 2^31 in stock makes the import refused; one with 2^32 + 7 is stored with 7. |
| ProductImport.ExecuteImport | internal/service/product/service.go:309-333 | Says exactly when the store refuses and then nothing changes, exactly when the log refuses and then the products are stored, and otherwise total = added + updated + skipped; the columns an import does not set stay for every product. |
| Lockout.Users.Login | internal/service/auth/service.go:295-360 | A session if and only if the password is correct, the account active and no lockout is running; a correct password without a session changes nothing; the counter follows the common step. |
| Lockout.Users.ConfirmOAuthLink | internal/service/auth/oauth.go:251-312 | The same counter and lockout, with its own guards: linked if and only if the password is correct, no lockout is running and the guards hold. |
| Lockout.StepSpelledOut | internal/service/auth/service.go:308-333 | The step of the counter in terms of the account: what a wrong password, a correct one and a running lockout do to it. |
| Lockout.InactiveGetsNoSession | internal/service/auth/service.go:325-333 | An account that is not active gets no session and no reset from any sequence of logins. |
| Lockout.FailuresWaitOutLockouts | internal/service/auth/service.go:308-323 | Between resets, over every mix of both calls in order of time, the n-th checked wrong password comes no earlier than the first plus all lockouts in between. |
| Lockout.Schedule | internal/service/auth/throttle.go:8-31 | The lockouts add up to 5 minutes each after failures 5 to 9, 15 after 10 to 19, 60 from 20 on. |
| Lockout.GuessingRate | internal/service/auth/oauth.go:273-292 | The n-th wrong password, n >= 20, comes at least 175 + 60 * (n - 20) minutes after the first. |
| Lockout.PatientMeetsBound | internal/service/auth/throttle.go:8-31 | The bound is exact: a patient caller meets it at every n. |
| AuditSearch.EscapeLikeFindsSubstrings | internal/repository/price_changes_pg.go:242-248 | The escaped pattern matches a text if and only if the text contains the search text, for all strings. |
| AuditSearch.EscapeLikeFindsFoldedSubstrings | internal/repository/price_changes_pg.go:213-219 | The same up to case for ILIKE, for every character folding that keeps the special characters apart. |

## Left out

- PostgreSQL and Redis engines: each statement, transaction or script is atomic and a statement that reports an error had no effect, except where `PlanProtocol` models the lost reply of the insert.
- HTTP handlers, user interface, Telegram bot, OAuth providers, SMTP and templates, cryptography and tokens: decryption and adapter construction are a choice of success or failure.
- Wildberries and Ozon clients: a marketplace call is a choice of answer over the mock store, and a refused call may have applied any list of its own updates.
- JSON decoding of params, constraints and payloads, and the error results of malformed ones: the model starts from parsed records, so an unknown strategy type does not occur.
- Changing only a strategy's type without validating its params: `FinalPriceMonotone` assumes that the params are valid for the current type.
- IEEE rounding, NaN and infinities of prices, nanosecond truncation of durations: prices and times are exact reals or integers, prices rounded half away from zero.
- PricingProps.MonotoneTowardGoal: assumes whole kopecks for cost and start price, as the columns store them; each pending result is taken as applied.
- RateLimit.TwiceTheRate: counts on a clock of rps * seconds; `BurstAndTwiceTheRate` restates it in seconds. The map of buckets by key is not modelled.
- FixedWindow.Limiter.Allow: one key; a window below one millisecond is the caller's one millisecond, and dial, deadline and malformed-reply errors are left out.
- Digest.PayloadsAreDisjoint: one flusher iteration is a sequence of steps; digest windows, quiet hours, `MarkDigestSent`, the order inside a batch, the deletion of deliveries and the unknown-channel path that marks a whole payload skipped are not modelled.
- Digest.MailedAtMostOnce: needs that runs of one job do not overlap, which `JobProtocol.LeasesAreExclusive` gives.
- Scheduler.ClaimsAreASlotApart: the cron expression is an abstract function `next` with `next(t) > t`; a shop keeps its expression. Enqueueing after a claim, and the other ticks apart from the stale plan clean-up, are not modelled.
- Dispatch.DispatchJob.RunJob: one job with attempts one after the other, as leases give; pricing re-runs of the plan are excluded, SKUs of a plan are distinct, and notifications and the integration log are left out.
- Dispatch.DispatchJob.RunJob: nothing is promised about pending items and the plan when a client cancelled it; after a write of the final status was ignored (`unfinalized`) a plan without pending items can stay unfinished.
- PlanProtocol.TerminalStatusIsKeptExactly: an attempt that is sending may do anything to the tally of items; which chunk it has reached is not modelled.
- Emit planning, delivery of single notifications, backoff tables, quiet-hours table, page clamps, status maps, CSV quoting: finite or one-branch facts.
- Lockout.FailuresWaitOutLockouts: attempts run one after the other and the counter writes succeed; concurrent read-modify-write of the counter is not modelled.
- PlanProtocol.AtMostOneDispatchJob: excludes a second run of the plan's recalculation, although a recalculation job, whose completion is refused like the others, is claimed again after its lease.
- Texts that go into job rows and price-change rows are taken to fit their columns; float8 values are cast to NUMERIC as exact reals.
- ProductImport.NormalizeImportRows: upper-casing is modelled as far as a currency code can tell, and names and SKUs are sequences of characters, not malformed UTF-8.
- Resp.ParsePrint: lengths and integers fit 64 bits; the memory that a huge array length would take is not modelled. Error replies are read but never printed.
- `mock.Store.List` and its sorting, CompetitorRefresh and BulkPatch: reads and single-row updates with no protocol between them.
