# Verified protocols of the marketplace

The marketplace runs a set of small concurrent protocols over Postgres rows, Redis keys, a broker and an object
store. This project models them in Dafny, with the stores replaced by explicit state (maps, sequences, lock tables
and a clock), and proves what they promise about every run, every interleaving and every crash point.

Each component comes in up to three layers:

* **a step specification**: functions that say what one statement, script or transaction does to the state;
* **methods**: the code's own loops and updates, in classes over the same state, proved to do exactly what the
  step specification says;
* **runs**: a machine whose actions are the atomic steps of all processes (crashes, lost answers, duplicates,
  purges and expiries included) and theorems about every state of every run.

| Modules | What they cover |
|---|---|
| `OutboxTable`, `Relay`, `Retention`, `Consumer`, `Pipeline`, `Links` | transactional outbox, relay passes with SKIP LOCKED, idempotent consumer, batched purges, and the whole path of an event |
| `Auth`, `AuthRuns`, `AuthIdentity` | refresh-token families: rotation, reuse detection, logout, the timed denylist and the sweep; whose tokens a family holds |
| `SingleFlight`, `GetOrLoad` | the single-flight cache and its lease lock |
| `Shop`, `ShopRuns`, `LockOrder` | stock, money, idempotency keys, and the row-lock order of orders and checkouts |
| `Workers` | the SKIP LOCKED worker pool |
| `SlidingWindow` | the rate limiter's trimmed log |
| `Edge` | the byte-bounded LRU edge cache with coalesced fetches |
| `Parts`, `Files` | multipart planning, resume and commit |
| `CanonicalJson`, `PostOrders` | the canonical request fingerprint and the idempotent POST /orders |
| `HttpFraming` | incremental HTTP framing and the parser behind it |

`Common` holds sums over finite maps and facts about finite sets. `dafny verify dfyconfig.toml` checks everything.

## Where the code and its documentation part ways

* **A racing retry is not always a replay.** `placeOrder` takes stock before it claims the key, so an identical
  request that raced past the first lookup is answered with the stored order only if the order could be filled a
  second time; otherwise it fails with the stock error. `ShopRuns.RacingRetry` gives the exact condition
  (`Shop.CanFill`, checkable before the call) and `ShopRuns.RacingRetryCanFail` a reachable instance.
* **Reuse detection lasts as long as the row.** A used refresh token whose row has expired and been swept is still
  refused, but its replay no longer revokes the family (`AuthRuns.SweptReplayGoesUnnoticed`); until it expires, the row
  stays (`AuthRuns.UnexpiredRowsStay`).
* **The size test alone does not keep foreign part numbers out.** `partLength` gives every number beyond the plan the
  last part's length. An accepted listing is the whole plan exactly when no number lies beyond it
  (`Files.AcceptedIsWholePlanIff`, `Files.OutOfPlanPartPasses`); presigned URLs never name one, so for parts sent
  through them an accepted listing is the whole plan.
* **The multipart threshold.** The comment in `src/files/policy.ts` speaks of two minimum parts; the code's floor is one
  minimum part plus 1 MiB. Above it there are still at least two parts (`Parts.AboveThresholdIsMultipart`).
* **Infinite numbers.** The printer takes a JSON literal that overflows a double for `null`
  (`CanonicalJson.OverflowReadsAsNull`). This is about the printer only: no body that POST /orders admits holds such a
  literal (`PostOrders.OrderableIsFinite`), and for finite numbers the fingerprint decides equality exactly.
* **The `skipped` counter.** When the answer to a COMMIT is lost, the local retry finds the mark and counts the event as
  skipped although this delivery applied it; `Consumer.SkippedThoughApplied` says exactly when.
* **Two Content-Length lines.** The framing takes the first, the parsed headers keep the last. They agree if and only
  if both give the same number (`HttpFraming.ReportedLengthIsFramedIff`, `HttpFraming.TwoLengthsDisagree`).

## Model

| member | source | states |
|---|---|---|
| OutboxTable.ClaimIsUnique | src/outbox/relay.ts:47-55 | The claim is determined by the table, the locks and the limit: no two batches are both the earliest claimable rows in order. |
| OutboxTable.MarkLowersBudget | src/outbox/relay.ts:80-93 | Marking k settled rows uses up at least k of the attempts that pending rows have left. |
| OutboxTable.BudgetBounds | src/outbox/relay.ts:6-9 | A backlog of n pending rows has between n and 5 n attempts left. |
| OutboxTable.BudgetOfPurge | src/outbox/retention.ts:35-40 | Purging rows that are not pending costs no attempts. |
| Relay.Relay.ClaimRows | src/outbox/relay.ts:47-55 | The batch is the earliest rows unpublished, tried fewer than five times and locked by nobody, in created_at, id order, and falls short of the limit only when no further such row is left. |
| Relay.Relay.PublishAll | src/outbox/relay.ts:61-64 | What goes to the channel is the event of each claimed row itself, one per row, in claim order, after everything sent before. |
| Relay.Relay.Settle | src/outbox/relay.ts:65-76 | Confirmed and refused rows are told apart exactly; one closed channel gives the pass up. |
| Relay.Relay.Updated | src/outbox/relay.ts:80-93 | The UPDATE statements mark exactly the confirmed rows published and count one attempt on every row of the batch. |
| Relay.Relay.RelayBatch | src/outbox/relay.ts:39-102 | One pass claims, sends the event of each claimed row in order, and on return has set publishing time, attempts and error of exactly the batch; every failure before COMMIT leaves rows and attempts as they were, a lost COMMIT answer leaves them marked. |
| Relay.Relay.Pass | src/outbox/relay.ts:39-102 | Whichever rows others hold, a pass that returns lowers the attempts left by at least what it claimed, never unpublishes, and reports what it published; with no rows held it claims something whenever something is pending. |
| Relay.Relay.DrainOutbox | src/outbox/relay.ts:167-182 | The drain ends whatever brokers, faults and other relays do; on return nothing is pending. At most 5 passes per pending row are productive unless new rows come in, and a relay that runs alone makes at most one more pass and returns the number of newly published rows. |
| Relay.PassEffect | src/outbox/relay.ts:80-95 | A committed pass lowers the attempts left by its size and publishes exactly its confirmed rows. |
| Retention.Relation.DeleteInBatches | src/outbox/retention.ts:58-71 | For any batch size from 1 and any choice of victims, the loop ends with exactly the non-stale rows and returns how many it deleted. |
| Retention.PurgeOutbox | src/outbox/retention.ts:28-56 | One sweep deletes exactly the rows published more than 7 days and the marks made more than 30 days ago; pending and parked rows survive untouched. |
| Consumer.ApplyIsIdempotent | src/outbox/consumer.ts:36-53 | Applying a message again changes nothing, and earlier confirmations keep their content. |
| Consumer.ApplyWrites | src/outbox/consumer.ts:36-53 | The first effective transaction of an event writes its mark and, unless the order has a confirmation, the event's own order, user and total. |
| Consumer.AppliesCommute | src/outbox/consumer.ts:36-53 | Deliveries for different orders commute. |
| Consumer.RetryAppliesAtMostOnce | src/outbox/consumer.ts:133-142 | The local retries leave the tables alone or apply the event once, even when COMMIT answers are lost. |
| Consumer.ThreeAttempts | src/outbox/consumer.ts:133-142 | A delivery fails transiently exactly after three transient attempts, and permanently exactly when a permanent failure comes after none but transient ones. |
| Consumer.Consumer.ApplyOrderPlaced | src/outbox/consumer.ts:32-60 | Mark and confirmation commit together or not at all, and the answer tells applied from skipped. |
| Consumer.Consumer.WithLocalRetry | src/outbox/consumer.ts:133-142 | The loop ends as the first attempt that is not transient, or the third, decides. |
| Consumer.Consumer.Handle | src/outbox/consumer.ts:96-131 | Ack if and only if effect and hook are done; otherwise requeue if and only if the failure is transient and the delivery header is missing or below five; malformed messages touch nothing; exactly one counter moves per delivery, applied or skipped as the transaction said. |
| Consumer.SkippedThoughApplied | src/outbox/consumer.ts:111-118 | A delivery of an unmarked event counts as skipped if and only if it went through after a COMMIT of its own whose answer was lost. |
| Pipeline.StepKeeps | src/outbox/relay.ts:46-98 | Every step of relays, broker, consumers, orders and purges keeps the six invariants (events match orders, rows are issued events, nothing lost, batches locked, honest broker, sound inbox). |
| Pipeline.RunKeeps | src/outbox/relay.ts:46-98 | The invariants and the attempt budget hold in every state of every run. |
| Pipeline.NoEventLost | src/orders/place-order.ts:66-99 | From its commit on, each order has its one event, saying what the order says, and that event is an unpublished row or was confirmed and is in the broker. |
| Pipeline.RowsLeaveOnlyPublished | src/outbox/retention.ts:33-43 | An outbox row disappears only after its message was confirmed. |
| Pipeline.ConfirmedOnce | src/outbox/consumer.ts:46-51 | A confirmation is that of its order's own event and never changes again, whatever is redelivered or purged. |
| Pipeline.AckedIsEffective | src/outbox/consumer.ts:110-119 | Every acked well-formed delivery has its confirmation and a completed after-effect, for good. |
| Pipeline.MarksAreBacked | src/outbox/consumer.ts:36-51 | An inbox mark implies the confirmation of that event's order. |
| Pipeline.RestMeansConfirmed | src/outbox/consumer.ts:32-60 | When nothing is pending or in flight, orders and confirmations correspond one to one, with equal user and total. |
| Pipeline.RelaysNeverCollide | src/outbox/relay.ts:52 | Two open batches never share a row, and no row is tried more than five times. |
| Pipeline.AttemptsMoveOnlyOnCommit | src/outbox/relay.ts:80-98 | Attempts change only when a pass holding the row commits, and then by one. |
| Pipeline.MarkPaces | src/outbox/relay.ts:80-94 | A committed pass over k rows lowers the remaining attempts by at least k, also with other relays running. |
| Pipeline.PublishesAreBounded | src/outbox/relay.ts:8-9 | A whole run settles at most five publishes per order. |
| Links.RelayBatchIsAPath | src/outbox/relay.ts:39-102 | A relay pass is a path of the pipeline's machine: claim, one publish per row in claim order, each arrival a copy carrying the very event the method sent for that row, then mark or abandon, with the outbox the pass leaves. |
| Links.HandleIsAPath | src/outbox/consumer.ts:96-131 | Handling a delivery, its header being how often the copy was returned, is a path of the machine: one to three transactions, then hook and ack, a return, which only a copy returned fewer than five times gets, or a dead letter, with the tables, effects and place of the copy that the handler leaves. |
| Links.ReturnedAtMostFiveTimes | src/outbox/consumer.ts:122-129 | Whatever happens around it, a copy the consumer handles goes back to the queue at most five times; the handling after the fifth return acks or dead-letters it. |
| Links.RejectIsAPath | src/outbox/consumer.ts:104-109 | Rejecting a malformed delivery moves its copy to the dead letters and nothing else. |
| Links.PathKeeps | src/outbox/relay.ts:46-98 | Every such path keeps the pipeline's invariants. |
| Auth.AcceptsMeansRotates | src/auth/auth.service.ts:68-91 | A refresh rotates exactly when the token is stored, unused, unrevoked, unexpired and its user has a valid role. |
| Auth.DenylistLifeIsExact | src/auth/auth.service.ts:150-165 | A denylist row covers every token minted before the revocation if and only if it lives at least ACCESS_TTL, seconds rounding included. |
| Auth.SweepKeepsAnswers | src/auth/auth.service.ts:169-183 | Sweeping expired rows changes no accept or reject answer, then or later. |
| Auth.ReuseIsDetectedIffStored | src/auth/auth.service.ts:72-78 | A replay kills its family if and only if the used row is still stored and unrevoked, and then no token of the family is accepted. |
| Auth.FamiliesAreIndependent | src/auth/auth.service.ts:154-213 | Login, rotation, reuse and logout in one family leave all another family can see as it was, the denial of its access tokens included. |
| Auth.SameViewSameAnswers | src/auth/auth.service.ts:138-147 | What a family can see determines every answer about its refresh and access tokens. |
| Auth.PickExpired | src/auth/auth.service.ts:176-181 | A sweep statement deletes only expired unlocked rows, oldest first, and all of them unless it hits its limit of 500. |
| Auth.AuthService.InsertPairTx | src/auth/auth.service.ts:192-213 | A refresh row unused, unrevoked and living 30 days, and an access token living 10 minutes, both of the given user and family. |
| Auth.AuthService.RevokeFamilyTx | src/auth/auth.service.ts:154-166 | Every row of the family is revoked and the family is denylisted for 10 minutes; no other row changes. |
| Auth.AuthService.SweepExpired | src/auth/auth.service.ts:174-183 | The loop removes from each of the three tables the oldest expired unlocked rows, all of them unless the limit of 500 is hit. |
| Auth.AuthService.Login | src/auth/auth.service.ts:39-53 | Tokens are issued if and only if password and role are good, after a sweep; they name the user who logged in and the new family; otherwise nothing changes. |
| Auth.AuthService.RefreshTx | src/auth/auth.service.ts:55-100 | In all six outcomes the transaction does what the rotation specification says; a rotation marks the row used and issues a pair for that row's own user and family. |
| Auth.AuthService.Logout | src/auth/auth.service.ts:109-119 | Family revoked, presented jti denylisted until its exp, then a sweep. |
| Auth.AuthService.Authenticate | src/auth/auth.service.ts:126-147 | True exactly for an unexpired token that neither its family nor its jti denies. |
| AuthRuns.RunKeeps | src/auth/auth.service.ts:55-213 | The family invariants hold in every reachable state. |
| AuthRuns.RevocationIsFinal | src/auth/auth.service.ts:138-183 | After a committed logout or detected reuse no access token of the family authenticates and no refresh token of it is accepted, ever, although the denylist row is swept. |
| AuthRuns.NothingIsMintedAfterKill | src/auth/auth.service.ts:149-153 | No token joins a family after it was killed. |
| AuthRuns.RotationIsAChain | src/auth/auth.service.ts:55-100 | Each family has at most one live refresh row and each refresh token is accepted at most once per run. |
| AuthRuns.ReplayKillsDescendants | src/auth/auth.service.ts:72-78 | Presenting a used stored token of a living family makes every refresh and access token of it unusable for the rest of the run. |
| AuthRuns.FamiliesDoNotInterfere | src/auth/auth.service.ts:55-213 | In every reachable state a login, refresh or logout, sweep included, changes no answer about any token of another family, then or at any later time. |
| AuthRuns.SweptReplayGoesUnnoticed | src/auth/auth.service.ts:174-183 | Two runs from any start that differ only in what a login sweeps: with the used row swept its replay is refused and the successor stays usable, without the sweep the same replay kills it. |
| AuthRuns.UnexpiredRowsStay | src/auth/auth.service.ts:174-183 | A sweep never removes an unexpired row, so reuse stays detectable until the stolen token would have expired. |
| AuthIdentity.FamilyNamesItsUser | src/auth/auth.service.ts:192-213 | In every run, every access token and every refresh row a family ever has names the user whose login opened it. |
| AuthIdentity.UnkilledTokensWork | src/auth/auth.service.ts:126-147 | In every run, while nobody kills a family its access tokens authenticate exactly until they expire and a stored refresh token of it is accepted exactly while unused, unexpired and its user has a role: no sweep, logout or reuse elsewhere locks anyone out. |
| SingleFlight.ReleaseIsSafe | src/redis/lock.ts:19-25 | Releasing leaves every lease of another token where it was and ends one's own. |
| SingleFlight.LeaseLastsLockTtl | src/redis/lock.ts:12-17 | A lease won on a free lock is live, with that token, exactly until the lock lifetime has passed, and until then nobody else can win. |
| SingleFlight.EntryLastsTtl | src/redis/single-flight-cache.ts:99-105 | A stored value is served exactly until its TTL has passed, and storing it changes no lock and no other entry. |
| SingleFlight.RunIsSourced | src/redis/single-flight-cache.ts:37-105 | In every run, with failures, evictions and crashes, everything cached or carried came from a load of that key, and lock tokens are unique. |
| SingleFlight.ReturnedValuesAreLoaded | src/redis/single-flight-cache.ts:37-70 | Every returned value was produced by a load of that very key. |
| SingleFlight.ReleaseSparesOthers | src/redis/lock.ts:4-25 | However late a caller releases, another caller's lease survives. |
| SingleFlight.OneHolder | src/redis/single-flight-cache.ts:51-62 | While leases are held, one caller of a key is between winning the lock and the end of its cache write. |
| SingleFlight.LoadRunsOnce | src/redis/single-flight-cache.ts:37-70 | If Redis does not fail or evict, load succeeds, and recheck, load and write end within the lock lifetime counted from the win, load starts at most once per key, has run exactly once when any caller has returned, and all callers return its value; a lease may lapse before its release, and any caller may crash except during its load and write. |
| SingleFlight.CallersNeverStick | src/redis/single-flight-cache.ts:43-69 | In any state, whatever failed before, an unfinished caller can take a step that no failure is part of. |
| GetOrLoad.PathShape | src/redis/single-flight-cache.ts:37-70 | On every path a won lock is released once and before the end, at most one load runs, and a returned value was read or loaded on that path. |
| GetOrLoad.Call.Acquire | src/redis/lock.ts:12-17 | SET NX PX: takes the lease, for the lock lifetime from now, only when none is live, also when the answer is lost. |
| GetOrLoad.Call.Release | src/redis/lock.ts:19-25 | Compare-and-delete whose failure is swallowed. |
| GetOrLoad.Call.Set | src/redis/single-flight-cache.ts:99-105 | A best-effort write that, when it arrives, is served until its TTL has passed. |
| GetOrLoad.Call.GetOrLoad | src/redis/single-flight-cache.ts:37-70 | The operations a call performs, whatever Redis, load and other callers do, form a path of the control flow that ends where it returned. |
| GetOrLoad.Call.LoadDirectly | src/redis/single-flight-cache.ts:40 | With Redis down the call loads without lock or cache. |
| GetOrLoad.Call.LoadUnderLock | src/redis/single-flight-cache.ts:51-62 | Re-check, load, write, and release on every way out. |
| Shop.SortSorts | src/orders/place-order.ts:152-153 | The lock order is ascending by product and holds exactly the requested items. |
| Shop.FilledIff | src/orders/place-order.ts:150-203 | The transaction succeeds exactly on requests a caller can recognise beforehand (known user, distinct active products, quantities in range and in stock, total within int4), whatever the item order, and prices each line from the catalogue. |
| Shop.PlacedSays | src/orders/place-order.ts:150-213 | A filled order has one line per item at the catalogue price, in its row and in its answer the price of the items as sent as total, and takes exactly each item's quantity from its product's stock. |
| Shop.RefusalIsRight | src/orders/place-order.ts:166-175 | A stock refusal names an item of the request: as not found exactly when its product is unknown or inactive. |
| Shop.RacingRetryReplaysIff | src/orders/place-order.ts:65-106 | A retry that raced past the lookup comes to the stored answer if and only if the order could be filled again, and never commits anything. |
| Shop.ShopService.TakeStock | src/orders/place-order.ts:155-183 | The UPDATE loop takes every item in order or stops at the first refusal, with the right diagnosis. |
| Shop.ShopService.InsertLines | src/orders/place-order.ts:196-203 | The INSERT loop succeeds exactly for distinct products and quantities the schema allows. |
| Shop.ShopService.InsertOrder | src/orders/place-order.ts:150-213 | Stock taken, order and lines written, total the sum of the lines, or a failure and no change. |
| Shop.ShopService.PlaceOrder | src/orders/place-order.ts:52-107 | Replay or refusal for a known key with no table changed; otherwise the whole transaction or none of it, with the conflict path answered from the stored record. A created order charges, in answer, row and stored record, the catalogue price of the items as sent. |
| Shop.ShopService.CheckoutTx | src/checkout/checkout.ts:22-104 | It succeeds exactly with stock, money and admissible figures, and then takes the quantity from stock and price times quantity from the balance, writes the one-line order and its receipt job; each refusal is told apart and changes nothing. |
| ShopRuns.TakeAllConserves | src/orders/place-order.ts:155-183 | Stock taken equals quantity ordered, product by product. |
| ShopRuns.NothingIsCreatedOrLost | src/checkout/checkout.ts:31-82 | In every run stock plus ordered quantities and balance plus checkout totals stay what they were, and stock is never negative. |
| ShopRuns.KeysOwnOrders | src/orders/place-order.ts:70-95 | Each key owns at most one order, two keys never share one, each placed order has exactly one outbox row and each checkout order one receipt job. |
| ShopRuns.SameKeySameAnswer | src/orders/place-order.ts:52-148 | All callers of a key that got an order got the same body and had sent the same request. |
| ShopRuns.RecordsStay | src/orders/place-order.ts:70-82 | A committed key record never changes. |
| ShopRuns.SequentialRetryReplays | src/orders/place-order.ts:60-63 | A later lookup returns the stored body for the same request, refuses another one, and changes no table. |
| ShopRuns.RacingRetry | src/orders/place-order.ts:65-106 | In any run a racing retry changes no table and reaches the second lookup exactly when the order could be filled again; that lookup returns the stored body, or refuses another request. |
| ShopRuns.RacingRetryCanFail | src/orders/place-order.ts:155-174 | Two identical racing calls for the last unit: the second is told there is no stock. |
| LockOrder.PlansAreOrdered | src/orders/place-order.ts:150-165 | Every placeOrder and checkout takes product rows ascending and then at most one other row. |
| LockOrder.PlanCoversWrites | src/orders/place-order.ts:150-203 | The plan names the row of every item, and every product row and key record that a committed order changes. |
| LockOrder.CheckoutCoversWrites | src/checkout/checkout.ts:31-59 | Every product row and balance that a checkout changes is in its plan. |
| LockOrder.RunKeeps | src/checkout/checkout.ts:31-59 | Row locks are exclusive and plans ordered in every reachable state. |
| LockOrder.NoCycles | src/orders/place-order.ts:152-165 | The wait-for graph of concurrent transactions never has a cycle. |
| LockOrder.SomeoneCanStep | src/orders/place-order.ts:152-165 | While a transaction is open, some open transaction can take its next lock or finish. |
| LockOrder.UnsortedPlansDeadlock | src/orders/place-order.ts:152-153 | Without the sort, two orders for the same two products can block each other. |
| Workers.WorkerPool.ClaimNextJob | src/workers.ts:24-38 | The least pending job nobody holds, or none if there is none. |
| Workers.WorkerPool.Advance | src/workers.ts:85-104 | One worker's step between two awaits is one step of the pool. |
| Workers.WorkerPool.RunWorkerPool | src/workers.ts:65-109 | For any scheduling the pool stops; then every job pending at the start is done with processed one higher and signed by a worker of the pool, others are untouched, and each worker counts exactly the jobs it signed. |
| Workers.RunKeeps | src/workers.ts:82-108 | Job accounting, and that each counter is the number of jobs its worker signed, hold in every reachable state. |
| Workers.ExitStrandsNothing | src/workers.ts:83-104 | No job is held twice, and once a worker has left its loop no unlocked pending job exists. |
| Workers.UnlockedShrinks | src/workers.ts:24-38 | The set of unlocked pending jobs only shrinks. |
| Workers.StepProgresses | src/workers.ts:83-104 | Every step of an active worker claims an unlocked job, finishes a held one or uses up an idle poll, and brings none of the earlier of these back. |
| Workers.AllExitedMeansAllDone | src/workers.ts:82-108 | When all workers have exited every job is done exactly once. |
| Workers.AllExitedMeansAllSigned | src/workers.ts:45-52 | Then every job that was pending carries the name of one worker, whose counter is the number of jobs that carry it. |
| Workers.ZeroPollsStrandJobs | src/workers.ts:70-85 | With zero idle polls no worker ever takes a step and every pending job stays pending: the bound of one is needed. |
| SlidingWindow.SinceIsSuffix | src/rate-limit/sliding-window.ts:17 | Trimming leaves exactly the entries after the cut. |
| SlidingWindow.SinceCounts | src/rate-limit/sliding-window.ts:17-18 | The count after trimming is the number of entries after the cut. |
| SlidingWindow.HitRefinesAdmit | src/rate-limit/sliding-window.ts:10-25 | On agreeing states the trimmed, expiring log and the full history decide alike and agree again. |
| SlidingWindow.DecidesLikeHistory | src/rate-limit/sliding-window.ts:10-25 | Every hit of every run is answered as counting the whole admission history would. |
| SlidingWindow.AdmissionsAreHistory | src/rate-limit/sliding-window.ts:10-25 | The hits the script lets through over a run are exactly those that counting the whole history admits. |
| SlidingWindow.AllowedIffRoom | src/rate-limit/sliding-window.ts:17-23 | In every run a hit is let through exactly when fewer than the limit of those let through before are less than a window old, and the remaining count is what is left of the limit after it. |
| SlidingWindow.NeverOverLimit | src/rate-limit/sliding-window.ts:19-23 | No half-open interval of one window sees the script admit more than the limit. |
| SlidingWindow.RetryAfterIsExact | src/rate-limit/sliding-window.ts:24-25 | The retry hint is within 1..windowMs and exact: after any number of further hits inside it the script still blocks until that time, and allows a hit at that time. |
| SlidingWindow.BlockedHitsLeaveHistory | src/rate-limit/sliding-window.ts:24-25 | Any sequence of hits before the retry time leaves the admission history as it was. |
| SlidingWindow.SlidingWindowLimiter.HitKey | src/rate-limit/sliding-window.ts:10-54 | The script's trim, count, add and expire do what the hit specification says. |
| Edge.EvictionIsMinimal | src/cdn/edge.ts:50-54 | The loop removes the shortest prefix that brings the rest within budget, and never a last item that fits alone. |
| Edge.StoreFacts | src/cdn/edge.ts:46-55 | Storing keeps keys unique, bytes exact and within budget and map order equal to recency; it evicts a shortest least-recent prefix and keeps the new item. |
| Edge.HitFacts | src/cdn/edge.ts:75-81 | A hit evicts nothing, extends no expiry, and only moves its item to the end. |
| Edge.RunKeeps | src/cdn/edge.ts:75-101 | After every step of every run order is recency, the byte counter is exact and within budget, and no key has two origin fetches in flight. |
| Edge.AnswersComeFromTheirKey | src/cdn/edge.ts:75-101 | In every run a hit serves what the origin gave for that very key, less than its TTL after a miss stored it; a miss is answered from a fetch of its key, which is under way until then. |
| Edge.EdgeCache.DropKey | src/cdn/edge.ts:39-44 | Removes one entry and its bytes. |
| Edge.EdgeCache.EvictOverBudget | src/cdn/edge.ts:50-54 | The loop ends, within budget, and counts each eviction. |
| Edge.EdgeCache.StoreItem | src/cdn/edge.ts:46-55 | Drop, append and evict together are the store specification. |
| Edge.EdgeCache.JoinFetch | src/cdn/edge.ts:83-90 | A miss joins the fetch of its key or, exactly when there is none, starts it. |
| Edge.EdgeCache.OnGet | src/cdn/edge.ts:75-92 | A GET is a hit exactly when a stored item of its key has not expired, and then serves that item, counts one hit and loses nothing; otherwise the stale item goes and the request waits for the one fetch of its key, a new one exactly when none was in flight. |
| Edge.EdgeCache.OnFetchSettled | src/cdn/edge.ts:90-93 | The fetch leaves the in-flight map; those who waited for it, and nobody else, get its answer for their key. |
| Edge.EdgeCache.OnContinue | src/cdn/edge.ts:93-101 | A miss serves what its fetch gave; exactly an object with a positive TTL and within the per-object limit is stored, last, until its TTL after the current clock. |
| Parts.PlanIsLeast | src/files/policy.ts:59-65 | For every size up to 5 TiB planning succeeds with the least whole-MiB part size of at least 5 MiB that needs at most 10 000 parts. |
| Parts.FeasibleIffFewParts | src/files/policy.ts:28-31 | A part size is feasible exactly when it needs at most 10 000 parts. |
| Parts.PlansFit | src/files/policy.ts:59-65 | All parts but the last are full and the last has 1 to partSize bytes. |
| Parts.AboveThresholdIsMultipart | src/files/policy.ts:41-48 | Above the threshold, for any link, there are at least two parts. |
| Parts.DefaultThreshold | src/files/policy.ts:50-51 | 64 s at 128 KiB/s is 8 MiB. |
| Parts.OffsetInFile | src/demos/keyless-parts.ts:22-25 | The client's offset and length are the planned ones, inside the file, and each part starts where the one before ended. |
| Parts.PlannedLengthsAddUp | src/files/policy.ts:67-69 | Parts of the planned lengths total the declared size. |
| Parts.SlicesTile | src/demos/keyless-parts.ts:22-28 | The client's slices in part order reproduce the file. |
| Files.PlannedRowsAreSound | src/files/policy.ts:59-65 | Every plan made for a size up to 5 TiB tiles the object with at most 10 000 parts, which is all the commit relies on. |
| Files.MissingIsExact | src/files/files.service.ts:274-285 | A resume issues exactly the part numbers not in storage, ascending, once each, with their planned lengths. |
| Files.AcceptedIff | src/files/files.service.ts:235-240 | Whoever uploaded, the check accepts exactly as many parts as planned, each with the length of its number. |
| Files.RefusalIsExact | src/files/files.service.ts:235-240 | A refusal tells how many parts are stored, when that is not the planned number, or names the least stored part of the wrong length. |
| Files.AcceptedIsWholePlanIff | src/files/files.service.ts:235-240 | An accepted listing is {1..partCount} exactly when no part number lies beyond the plan. |
| Files.PresignedAcceptedIff | src/files/files.service.ts:235-240 | For parts sent through presigned URLs, commit accepts if and only if the stored set is {1..partCount}. |
| Files.OutOfPlanPartPasses | src/files/policy.ts:67-69 | Without presigning, parts 1 and 3 of a two-part plan pass the check. |
| Files.RunKeeps | src/files/files.service.ts:226-297 | Through crashes, expiries, resumes and racing commits every accepted listing is the whole plan and a completed object has the declared size. |
| Files.CompletedObjectIsTheFile | src/demos/keyless-parts.ts:22-28 | If every body was cut from one file of the declared size, the completed object is that file. |
| Files.FinishedResumeIsAccepted | src/files/files.service.ts:149-154 | After a resume whose every part arrives the commit's check accepts what is stored. |
| Files.FileUpload.SignFor | src/files/files.service.ts:274-285 | The loop hands out the missing parts in order. |
| Files.FileUpload.PutPart | src/storage/storage.ts:151-169 | Storage takes a part only under a live upload and with the signed length. |
| Files.FileUpload.CompleteFromStorage | src/files/files.service.ts:226-246 | Whatever others do between listing and completing, an incomplete plan is rejected with nothing changed, and a whole one is completed as listed unless a part was replaced or the upload is gone. |
| Files.UndisturbedCompletion | src/files/files.service.ts:241-242 | With nobody in between, completing an accepted listing assembles it. |
| Files.FileUpload.Commit | src/files/files.service.ts:156-189 | Commits if and only if all parts are there, survive until completed and match the type; committing again repairs a crash before the row update; only a single PUT can reach the size mismatch. |
| Files.SendPart | src/demos/keyless-parts.ts:23-28 | What the client cuts out is what the URL was signed for, so only the link can fail it. |
| Files.UploadParts | src/demos/keyless-parts.ts:21-39 | The loop sends a prefix of the parts, stopping at the first failure or crash. |
| CanonicalJson.QuoteIsReadable | hw-09/src/app.js:83 | A quoted string is the beginning of a text in one way only, escapes and lone surrogates included. |
| CanonicalJson.ListsAreReadable | hw-09/src/app.js:77-84 | A bracketed, comma-joined list of values splits into its parts in one way. |
| CanonicalJson.SortSorts | hw-09/src/app.js:81-82 | Members are printed in strictly ascending key order, each once. |
| CanonicalJson.SortedIsUnique | hw-09/src/app.js:81-82 | The sorted member list depends on the members only. |
| CanonicalJson.ValuesAreReadable | hw-09/src/app.js:75-88 | Unique readability: a printed value followed by a delimiter can be read in one way. |
| CanonicalJson.FingerprintIff | hw-09/src/app.js:75-88 | For all parsed bodies the fingerprints are equal if and only if the bodies are equal up to member order. |
| CanonicalJson.OverflowReadsAsNull | hw-09/src/app.js:87 | An overflowing number literal is fingerprinted like null. |
| PostOrders.PricingIsExact | hw-09/src/app.js:175-197 | One line per requested item with its product, quantity, catalogue price and their product, refused exactly for an unknown product. |
| PostOrders.CreatedSays | hw-09/src/app.js:175-210 | A created order has the next id, the time of its request, one line at the catalogue price per item the body asks for, and the price of exactly these items as its total; order list and key record get it, nothing else changes. |
| PostOrders.OneOrderPerKey | hw-09/src/app.js:156-210 | In every run each key owns at most one order, each order placed belongs to exactly one key, and ids count up. |
| PostOrders.RecordsStay | hw-09/src/app.js:209-210 | Orders are only appended and records never change. |
| PostOrders.SameBodiesSameItems | hw-09/openapi/openapi.yaml:221-261 | Bodies equal up to member order are admitted together and ask for the same items. |
| PostOrders.OrderableIff | hw-09/openapi/openapi.yaml:221-261 | The admitted bodies are those with nothing but a list of 1 to 100 objects of exactly a product id from 1 and a quantity from 1 to 100, and these are the items they ask for, in order. |
| PostOrders.OrderableIsFinite | hw-09/openapi/openapi.yaml:221-261 | An admitted body holds no overflowing number, so its fingerprint never takes an infinity for null. |
| PostOrders.ReplaysIffSame | hw-09/src/app.js:152-173 | After any requests in between, a request under a used key changes nothing and replays the order if and only if its body is the same up to member order. |
| PostOrders.ReplayAnswersTheRetry | hw-09/src/app.js:168-197 | A replayed order has one line for each item the retry itself asks for, in its order. |
| PostOrders.NotFoundKeepsKeyFree | hw-09/src/app.js:177-189 | An unknown product is refused with no state changed, so the key can be used again. |
| PostOrders.OrdersApi.PostOrder | hw-09/src/app.js:151-213 | Validation, replay, conflict, pricing and recording do what the request specification says, reading the items out of the body; a created order totals the catalogue price of these items, and any other answer changes nothing. |
| HttpFraming.PrefixFinds | hw-03/src/server.js:76-77 | A prefix finds the end of the headers at the same place exactly when it contains it. |
| HttpFraming.CompleteStays | hw-03/src/server.js:76-84 | A complete request stays complete at the same byte whatever arrives later. |
| HttpFraming.FramedIff | hw-03/src/server.js:76-84 | A request is complete exactly when its first blank line is there and as many bytes behind it as the header block says. |
| HttpFraming.StreamDecides | hw-03/src/server.js:66-104 | What is handled after any events is determined by the bytes received: nothing before the first request is complete, then exactly that prefix. |
| HttpFraming.ChunkingIndependent | hw-03/src/server.js:66-104 | Any two ways of cutting the same stream handle the same single request, or none. |
| HttpFraming.JoinUndoesSplit | hw-03/src/parser.js:22-23 | Joining what split produced gives the text back. |
| HttpFraming.PiecesAreFree | hw-03/src/parser.js:22-25 | No piece of a split holds the separator. |
| HttpFraming.ParserAgreesWithFraming | hw-03/src/parser.js:20-25 | The parser's header block is the one used for framing and its body has exactly the framed length, even if it contains a blank line. |
| HttpFraming.ParsedIff | hw-03/src/parser.js:20-54 | A text parses exactly when its first line says method, path and version, with one space between; then these are the fields, the body is everything after the first blank line and the headers are those of the lines in between. |
| HttpFraming.EmptyIff | hw-03/src/parser.js:25-30 | The request line is reported missing exactly for a text that is empty or starts with a line end. |
| HttpFraming.IsLengthIff | hw-03/src/server.js:48-52 | A line counts as Content-Length exactly when what stands before its first colon, trimmed, spells that name in whatever mixture of cases. |
| HttpFraming.TrimSays | hw-03/src/parser.js:47-48 | Trimming takes off whitespace at both ends, all of it and nothing else. |
| HttpFraming.LastLineWins | hw-03/src/parser.js:40-51 | A header is present exactly when a line has its key, with the value of the last such line. |
| HttpFraming.FirstLengthCounts | hw-03/src/server.js:45-58 | The body is framed by the first Content-Length line, and without one there is no body. |
| HttpFraming.ReportedLengthIsFramedIff | hw-03/src/parser.js:40-51 | The parser reports the framed length if and only if there is no Content-Length line or the first and the last give the same number. |
| HttpFraming.TwoLengthsDisagree | hw-03/src/parser.js:45-49 | Two lines with 5 and 7: the body is framed with 5 and the headers say 7. |
| HttpFraming.GetContentLength | hw-03/src/server.js:45-58 | The scan returns the first Content-Length's number, or 0. |
| HttpFraming.ParseHttpRequest | hw-03/src/parser.js:20-54 | Empty and incomplete request lines are refused; otherwise method, path, version, headers and body come back as the parse specification says, whose meaning the lemmas above state. |
| HttpFraming.RequestHandler.OnData | hw-03/src/server.js:70-104 | One data event answers at most once, and the answer is the parse of the framed prefix. |

## Left out

- SQL, ORM, driver, Redis, broker and S3 client code: each statement, script or call is its stated effect on explicit state; single statements and scripts are atomic, and Postgres transactions are atomic wherever a row lock is not the point.
- Cryptography: signatures, HMAC, scrypt and SHA-256 are treated as exact and injective, and generated ids as fresh; password and key checks are inputs.
- Clocks: one non-decreasing clock; skew and clocks that go backwards are not modelled.
- Numbers: JavaScript numbers are integers here, exact at the sizes used; the int4 limit appears on order totals only, and fractional TTLs and Content-Length values are not modelled.
- Pipeline: a confirmed message stays in the broker until it is acked or dead-lettered; quorum-queue delivery limits, priorities and queue topology are not modelled, and the after-effect hook is always configured.
- Pipeline: event payloads carry order, user and total, not items, country or time.
- Relay.Relay.DrainOutbox: pauses are not timed; from some pass on the deadline has gone by, because each pass ends with a pause.
- Relay.Relay.RelayBatch: a payload that cannot be serialised counts as a refusal, and backpressure is not modelled.
- Retention.Relation.DeleteInBatches: no concurrent writers; a batch size of zero would make the loop run forever and is excluded.
- Consumer.Consumer.Handle: the channel is open, so `ack` does not throw; the backoff between local attempts is not modelled.
- Auth: each of login, refresh and logout is one atomic step, because the FOR UPDATE lock covers only the presented row; the user lookup of login is part of that step.
- GetOrLoad.Call.GetOrLoad: the code polls without a deadline; the method stops after `patience` polls, which stands for a caller that is still waiting.
- SingleFlight.LoadRunsOnce: for runs in which Redis neither fails nor evicts, load succeeds, cached entries do not expire, recheck, load and write end within the lock lifetime, and no loader dies between the start of its load and the end of its write; keys starting with `lock:` are excluded.
- Shop: foreign-key share locks on the user row, the country pattern check and sequence gaps are not modelled; a lookup that finds no record after a conflict cannot occur because records are never deleted here.
- LockOrder: statements that wait inside Postgres on index pages or foreign keys are not modelled.
- Workers: the simulated work time and poll delay only separate steps; jobs inserted while the pool runs are not modelled.
- Edge: HTTP status lines, validators and the parsing of Cache-Control are not modelled; an object carries its shared-cache TTL in milliseconds.
- Files: ownership checks, idempotent intents, single PUT signing, URL lifetimes and the owner's other endpoints are not modelled; whether a completed file keeps its bytes later is not decided by this code.
- Files.FileUpload.Commit: others act between listing and completing; between the completion and the row update they do not.
- PostOrders.OrdersApi.PostOrder: the status and shape of error bodies are not modelled, and neither is the validation of responses.
- CanonicalJson.FingerprintIff: a number is given by the text JavaScript prints for it, so 0 and -0 are one number.
- HttpFraming: building and routing responses is not modelled, and neither is a header named `__proto__`.
- Pagination cursors, session touch, serialization retries, WebSocket and SSE transport, guards, migrations, infrastructure and the hw-13 to hw-26 copies are not modelled.
