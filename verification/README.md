# Remote jobs: a verified model

This project models the dispatcher of Nautobot remote jobs and the agents around it, and proves what they keep.

- The server keeps run records, workers and scoped tokens. `Runs` and `RunFacts` hold the run row and its moves,
  `Dispatch` the operations as transactions on one database, `Dispatcher` the same operations in imperative form.
  `Invariant`, `History`, `RowMoves`, `Guarantees`, `Paths`, `Mirror`, `Cancellation`, `FanOut`, `ClaimBatch`, `Sweeps`
  and `ReapPass` prove what holds over all histories, in which any worker and user may act between any two transactions.
  `Offers`, `Leases`, `Replies`, `Workers` and `Stamps` say in the columns of the tables (`Views`) which runs are offered
  and taken back, what is answered, when a worker is offline, and what every timestamp is.
  `Witnesses` has concrete histories that reach the states these guarantees leave open.
- `Zones`, `Submission` and `Placements` place new runs in zones and divide fan-outs.
- `AgentProtocol` runs one worker agent against that server: a volatile task table, a durable journal, containers,
  crashes and lost messages. `Agent` and `Journal` are the agent's and the journal's own code, and `JournalMap` shows
  that the journal's files are the map of entries which the protocol speaks of. `Bookkeeping` says on which runs
  the two sides may differ; `Outcomes` follows a container's end through its report to the server's record.
- `LogSink`, `Sinks`, `LogFlush`, `LogLimits` and `LogDelivery` follow log entries from the emitter to the tables.
- `TokenBucket`, `Bridge` and `Connection` are the gateway's rate limiter and the two ends of request matching.
- `Redaction` is the SDK's secret redactor; `ImageRef` the three readers of image references.

## How the system is modelled

Each `transaction.atomic` block is one step. `reconcile_in_flight` is one step as well, although it takes no lock; so are
the ownership check before the row lock in `report_status` and `complete_run`, and the refresh of a parent, which does not
lock the parent row. The steps of the reaper's loops and of a parent's cancel are separate steps of a history.
A run's number is its position in creation order, which `Submission.CreationIsQueueOrder` shows to be queue order.
Definitions and zones do not change during a history, so a foreign key is modelled by the value it points to.
`history` on a run lists the writes of its state column; the application does not store it.
Rows are never deleted. Clock readings are parameters of the steps; unless a lemma says otherwise they may go back.
The text of log entries is abstract but for its length; frames, payloads and offers are records.

## What the proofs found

Each item is a lemma below; the code is modelled as it is.

- A fan-out of a singleton definition can never succeed: its RUNNING parent counts as the one run it may have.
- A cancel of a run whose worker is offline, which its documentation calls reaped, queues the run again while attempts
  remain, also under a cancelled parent.
- A run that succeeds after a retry still shows a revocation on its JobResult, and the start of its first attempt.
- A retry that comes back to a worker with the old journal entry inherits the first attempt's deadline; with the old
  container it cannot start, and the container is orphaned, as it is by a failed lookup after a restart.
- A retried run starts its batch numbers again, and batches whose numbers were used before are dropped as replays. The
  ingestion module's documentation promises effectively exactly-once delivery; the code gives it per numbering lifetime.
- Redaction is not complete for values that can overlap the mask; the redactor's documentation makes no exception.
- A worker whose earlier task of a run is answered and not yet forgotten takes a new offer of the run for a duplicate:
  the server has the run with a worker that knows nothing of it.
- The agent takes any error answer to job.complete for the server's decision, also the gateway's rate limit, its timeout
  and an internal error. It then forgets a run that the server still has with it, and a run that has succeeded is
  executed again while attempts remain.
- A repeated request id in flight lets one request's timeout lose another's response.
- A bare image name never finds its docker.io credentials once it is pinned; a digest that ends in a newline passes
  validation.

## Model

| member | source | states |
|---|---|---|
| `RunFacts.MoveKeepsRow` | nautobot_remote_jobs/models/runs.py:147-217 | Every way a row can move (claim, renewal, completion, abandonment, failure, withdrawal, cancel flag, closing of a parent) keeps its columns consistent and its past lawful |
| `RunFacts.MoveFollows` | nautobot_remote_jobs/models/runs.py:147-244 | No guarded transition raises on such a move; identity columns never change; only a claim gives a run to a worker, and a settled run does not move |
| `RunFacts.Write` | nautobot_remote_jobs/models/runs.py:27-48 | One write allowed by LEGAL_TRANSITIONS keeps the attempt counter, the write count and the revocation mirror in step with the history of the state column |
| `Invariant.ApplyKeepsCore` | nautobot_remote_jobs/dispatch/claims.py:87-98 | A row's move keeps tokens in bijection with held runs, singletons exclusive, links and worker zones sound |
| `Invariant.SettleKeeps` | nautobot_remote_jobs/models/runs.py:219-244 | A run that may settle, followed by the refresh of its parent, keeps the whole invariant, the parent's aggregate included |
| `Invariant.CloseAggregates` | nautobot_remote_jobs/models/runs.py:228-244 | Closing a parent with the verdict of its children, or by cancel, leaves every parent's state what its children say |
| `Sweeps.SweepIs` | nautobot_remote_jobs/dispatch/reaper.py:31-41 | A sweep over listed rows in any order: each listed row makes its move, each parent shows its children's final states, the tokens of the swept rows are gone, nothing else changes |
| `Sweeps.ParentTwice` | nautobot_remote_jobs/models/runs.py:219-244 | Refreshing a parent on the way makes no difference to how it ends |
| `ReapPass.ReapIsExact` | nautobot_remote_jobs/dispatch/reaper.py:17-43 | After one pass every dispatched run is the function Reaped of itself, every parent shows its children, exactly the expired runs' tokens are gone, workers are untouched |
| `ReapPass.ReapOutcome` | nautobot_remote_jobs/dispatch/reaper.py:46-106 | The function Reaped, by which ReapIsExact describes a pass: expired runs end ABANDONED when attempts are used up, otherwise one attempt higher and PENDING, or FAILED_DISPATCH when they have waited out their zone; nothing is left expired or overdue. Leases.ReapColumns says which runs those are in columns |
| `Leases.ReapColumns` | nautobot_remote_jobs/dispatch/reaper.py:17-106 | In columns: a CLAIMED or RUNNING run with lease_expires_at before now is taken back by the pass, for good when attempt is retry_max + 1, otherwise to the queue with the next attempt, without worker, lease and token; a PENDING run past its zone's max_wait_seconds fails when the zone waits or fails over; every other dispatched row is unchanged |
| `Leases.NothingLapsed` | nautobot_remote_jobs/dispatch/reaper.py:25-39 | After a pass no CLAIMED or RUNNING run has a lease that ended before now, and no PENDING run is past its zone's wait |
| `Leases.ReapTokens` | nautobot_remote_jobs/dispatch/tokens.py:37-47 | A token survives the pass iff the lease of its run has not ended |
| `Leases.LeaseIs` | nautobot_remote_jobs/dispatch/claims.py:90-96 | In every reachable state the lease of a run that is out ends one lease period after the server last heard of the run: by its claim, an accepted report of its worker, or a hello of its worker that names it |
| `Leases.QuietRunIsReaped` | nautobot_remote_jobs/dispatch/reaper.py:25-39 | Over whole histories: a run that is out is taken back by a pass iff nothing was heard of it for longer than a lease period, whichever worker has it |
| `History.StepKeeps` | nautobot_remote_jobs/rpc/handlers.py:37-92 | Every server operation, in any state that satisfies the invariant, keeps it |
| `History.AlwaysInv` | nautobot_remote_jobs/dispatch/claims.py:37-232 | The invariant holds after any operations by any workers and users in any order |
| `History.ReconcileKeeps` | nautobot_remote_jobs/dispatch/claims.py:213-232 | Hello reconciliation keeps the invariant, whatever runs the worker names |
| `History.CancelKeeps` | nautobot_remote_jobs/cancel.py:42-91 | Each branch of a cancel keeps the invariant, a parent's included |
| `History.SubmitFanOutKeeps` | nautobot_remote_jobs/dispatch/submission.py:181-253 | Opening a parent with its children keeps the invariant |
| `RowMoves.RowMove` | nautobot_remote_jobs/dispatch/claims.py:87-232 | Each step moves each existing row by one lawful move that this step is entitled to make: who may claim, renew, finish, abandon, fail, withdraw, flag or close |
| `RowMoves.HelloMove` | nautobot_remote_jobs/dispatch/claims.py:213-232 | Hello renews exactly the worker's runs that it names and abandons exactly the others |
| `Leases.HelloColumns` | nautobot_remote_jobs/dispatch/claims.py:213-232 | In columns: a run of the worker that its hello names keeps everything and gets a lease from now; one that it does not name is taken back, to the queue for its next attempt or ABANDONED when it has none; no other dispatched run changes |
| `RowMoves.SettleMove` | nautobot_remote_jobs/dispatch/reaper.py:46-71 | Settling one run moves at most one other row, its parent, and only by the verdict of all its children |
| `Guarantees.EveryRow` | nautobot_remote_jobs/models/runs.py:12-24 | In every reachable state: live token iff worker-held, one token per run, PENDING has no worker and no lease, finished_at iff settled, JobResult status is the image of the state |
| `Guarantees.EveryToken` | nautobot_remote_jobs/dispatch/tokens.py:15-47 | In every reachable state each token belongs to a run that a worker holds |
| `Guarantees.SettledForever` | nautobot_remote_jobs/models/runs.py:138-141 | A settled run, ABANDONED at rest included, never changes again in any column |
| `Guarantees.BoundedLife` | nautobot_remote_jobs/dispatch/reaper.py:56-63 | Attempts stay in 1..retry_max+1, at most retry_max+1 claims, every write of the state column but a parent's opening follows LEGAL_TRANSITIONS |
| `Guarantees.MoveSpends` | nautobot_remote_jobs/dispatch/reaper.py:56-63 | 3 (retry_max + 1 - attempt) + 3 - rank(state) drops with every change of state and never rises |
| `Guarantees.ChangesAreBounded` | nautobot_remote_jobs/dispatch/reaper.py:46-71 | A run changes state at most 3 (retry_max + 1) times over all histories |
| `Guarantees.ChangeIsRecorded` | nautobot_remote_jobs/models/runs.py:157-176 | The history of the state column misses no change and is never rewritten |
| `Paths.LegalIsAllowed` | nautobot_remote_jobs/models/runs.py:27-48 | The check before a transition is the table of sixteen pairs, and the states that allow no transition are the terminal ones |
| `Paths.EveryWalk` | nautobot_remote_jobs/models/runs.py:147-176 | In every reachable state a run's history uses eleven of them only: no run is ever OFFERED and none returns to the queue but through ABANDONED; a fan-out parent opens with PENDING to RUNNING |
| `Guarantees.LossFences` | nautobot_remote_jobs/dispatch/reaper.py:46-71 | Whatever takes a run from its worker, other than the worker's own completion, leaves the worker unable to speak for it |
| `Guarantees.StaleHolderIsFenced` | nautobot_remote_jobs/dispatch/claims.py:141-193 | After a loss and until the worker claims the run again, its status reports are refused with the codes on which the agent kills its container, and its completions change nothing |
| `Guarantees.CompletionIsIdempotent` | nautobot_remote_jobs/dispatch/claims.py:190-191 | An accepted completion can be replayed at any later time: accepted, and no change |
| `Guarantees.ReportingKeepsTheRun` | nautobot_remote_jobs/dispatch/claims.py:165-166 | A pass of the reaper within a lease period after an accepted report leaves the run exactly as it is |
| `Mirror.EveryMirror` | nautobot_remote_jobs/models/runs.py:178-217 | In every reachable state the JobResult names the run's worker, was done when a settled run finished, and has a start while the run is RUNNING |
| `Mirror.FirstStartStays` | nautobot_remote_jobs/models/runs.py:165-167 | started_at is stamped once: a retried run shows the start of the attempt that first ran |
| `Stamps.StampsAreTimes` | nautobot_remote_jobs/models/runs.py:157-217 | In every reachable state each timestamp is the clock reading of the operation it stands for: queued_at of the creation, claimed_at of the last claim, started_at and date_started of the first RUNNING write, finished_at of the last change of state when the run is over, no other run having one, date_done of the end of the last attempt; the JobResult names the worker of the last claim |
| `Mirror.ClaimLastsALease` | nautobot_remote_jobs/dispatch/claims.py:90-96 | A pass of the reaper within a lease period after the claim leaves the run exactly as it is |
| `Mirror.TouchKeepsAlive` | nautobot_remote_jobs/models/workers.py:60-82 | A worker that was heard from is not offline until its time to live, less the throttle interval, has passed; WorkerRecords.SilentIsOffline has the other direction |
| `WorkerRecords.RecordStep` | nautobot_remote_jobs/rpc/handlers.py:37-48 | Every operation, every worker: a hello writes the announced capacity and capabilities, switching writes enabled and draining, nothing else writes those or the zone; last_seen becomes the time of the operation iff the server hears from that very worker and the last write is at least the throttle interval old |
| `WorkerRecords.EnrollStep` | nautobot_remote_jobs/api/worker_views.py:60-66 | Only enrolment brings a worker, and it has just been seen |
| `WorkerRecords.SilentIsOffline` | nautobot_remote_jobs/models/workers.py:60-69 | While the clock does not go back, in every reachable state: a worker that is disabled, was never heard from, or was last heard from longer ago than its time to live is offline; an enabled one heard from within it, less the throttle interval, is draining or online as it is switched |
| `WorkerRecords.SilentIsNotAsked` | nautobot_remote_jobs/cancel.py:75-80 | A cancel of a run whose worker was silent for so long is not sent: the run is abandoned |
| `Mirror.RecentWorkerIsTold` | nautobot_remote_jobs/cancel.py:75-91 | A cancel flags, and does not reap, the run of a worker that was heard from so recently |
| `Cancellation.CancelOfflineEnds` | nautobot_remote_jobs/cancel.py:75-80 | A cancel of a run whose worker is offline ends it iff its attempts are used up; otherwise the run is queued again |
| `Witnesses.CancelledRunIsQueuedAgain` | nautobot_remote_jobs/cancel.py:75-80 | A history from an empty database after which a cancelled run waits for its second attempt, with no cancel request on it |
| `Cancellation.CancelOtherwise` | nautobot_remote_jobs/cancel.py:67-91 | Any other cancel settles the run or leaves the request with the worker that holds it |
| `Cancellation.RequestSticks` | nautobot_remote_jobs/cancel.py:82-88 | A cancel request survives every renewal, reaping, retry and new claim |
| `Cancellation.EveryHolderIsTold` | nautobot_remote_jobs/dispatch/claims.py:173-180 | Every later accepted status report, by whichever worker, carries the cancel request |
| `Replies.AskedExactly` | nautobot_remote_jobs/cancel.py:82-88 | In every reachable state the JobResult of a run asks for a cancel iff some earlier cancel of that run was sent to a worker |
| `Replies.ReplyAsksExactly` | nautobot_remote_jobs/dispatch/claims.py:173-180 | Over whole histories: an accepted status report is answered with the request to cancel iff some earlier cancel of that run was sent to a worker |
| `Replies.CancelReplies` | nautobot_remote_jobs/cancel.py:42-91 | Which answer each cancel gets, in columns and in both directions: already over, parent cancelled, cancelled before claim, and for claimed and running runs sent or offline by whether the worker is enabled and was seen within its time to live |
| `Replies.CancelColumns` | nautobot_remote_jobs/cancel.py:42-91 | What each answer has done to the row; only a cancel that is sent sets the request |
| `Cancellation.CancelParentIs` | nautobot_remote_jobs/cancel.py:53-100 | Cancelling a parent: it is TERMINATED, each open child is dealt with as if cancelled by itself, no other row changes |
| `Cancellation.CancelLeavesWaiting` | nautobot_remote_jobs/cancel.py:103-117 | A child is waiting to be claimed after its parent's cancel iff its worker was unreachable and it had attempts left |
| `Cancellation.LeafCancel` | nautobot_remote_jobs/cancel.py:103-115 | The cancel of a child is one transaction: no child is itself a parent |
| `Cancellation.SuccessLooksRevoked` | nautobot_remote_jobs/models/runs.py:197-204 | A finished run's JobResult carries a revocation iff an earlier attempt was abandoned: nothing clears it |
| `Witnesses.SuccessShowsRevocation` | nautobot_remote_jobs/models/runs.py:197-204 | A history from an empty database after which a run is in SUCCESS and its JobResult says it was revoked |
| `FanOut.ParentsAggregate` | nautobot_remote_jobs/models/runs.py:219-244 | In every reachable state a parent is RUNNING only while a child is open, SUCCESS iff all children succeeded, FAILURE iff all are settled and one did not succeed, unless it was terminated |
| `FanOut.OnlyCancelTerminates` | nautobot_remote_jobs/cancel.py:56-65 | Only a cancel of the parent itself makes it TERMINATED |
| `FanOut.SingletonSafety` | nautobot_remote_jobs/dispatch/claims.py:70-85 | At most one run of a singleton definition is with a worker, in every reachable state |
| `FanOut.ChildNotClaimable` | nautobot_remote_jobs/dispatch/claims.py:104-113 | While a singleton parent is RUNNING, none of its children is offered to any worker |
| `FanOut.FanOutCanSucceed` | nautobot_remote_jobs/dispatch/submission.py:135-253 | With submissions as submit_run makes them, a fan-out can end in SUCCESS in some history iff its definition is enabled, fans out and is not a singleton |
| `FanOut.SingletonsAreStuck` | nautobot_remote_jobs/dispatch/claims.py:104-113 | In every history, no worker ever had a child of a singleton parent that was not cancelled |
| `ClaimBatch.ClaimIsGreedy` | nautobot_remote_jobs/dispatch/claims.py:37-101 | The batch claim, which rescans the queue for each offer, gives the offers and the database of one left-to-right walk that stops at 20 passed-over candidates or at min(max, free capacity) |
| `Offers.ClaimExactly` | nautobot_remote_jobs/dispatch/claims.py:37-101 | In columns: a batch for an enabled worker that is not draining offers a waiting run of its zone iff the worker has its capabilities, its definition is no singleton of which another run is out or was offered before, fewer than 20 waiting runs were passed over before it, and the free slots and max are not used up; a run that is passed over is blocked for one of those reasons. The offered rows are CLAIMED by the worker from now for a lease period with a token each, all others unchanged; a disabled or draining worker is offered nothing |
| `Offers.InFlightIsCount` | nautobot_remote_jobs/models/workers.py:84-89 | The load of a worker is the number of its CLAIMED and RUNNING rows |
| `ClaimBatch.OffersInOrder` | nautobot_remote_jobs/dispatch/claims.py:59-62 | Offers come in queue order, each a waiting run of the worker's zone, and exactly those rows change hands |
| `ClaimBatch.RescanCatchesUp` | nautobot_remote_jobs/dispatch/claims.py:66-87 | A scan that starts over arrives where the walk stands |
| `ClaimBatch.ClaimWithinCapacity` | nautobot_remote_jobs/models/workers.py:84-89 | A batch adds exactly its offers to the worker's load and never takes it past its capacity |
| `ClaimBatch.CapacityRespected` | nautobot_remote_jobs/models/workers.py:84-89 | Over histories of whole batches a worker never has more runs than the largest capacity it announced |
| `DispatchService.Dispatcher.SyncJobResult` | nautobot_remote_jobs/models/runs.py:178-217 | Mirrors the row into its JobResult column by column |
| `DispatchService.Dispatcher.Transition` | nautobot_remote_jobs/models/runs.py:147-176 | Raises, and writes nothing, exactly when LEGAL_TRANSITIONS forbids the move; otherwise state, stamps and mirror are written |
| `DispatchService.Dispatcher.MintScopedToken` | nautobot_remote_jobs/dispatch/tokens.py:15-34 | A fresh token is recorded in the table and on the run |
| `DispatchService.Dispatcher.DeleteScopedToken` | nautobot_remote_jobs/dispatch/tokens.py:37-47 | The run's token leaves the table and the run; nothing else changes |
| `DispatchService.Dispatcher.RefreshParentState` | nautobot_remote_jobs/models/runs.py:219-244 | The loop over the children gives the parent the verdict that the quantified definition gives |
| `DispatchService.Dispatcher.AbandonRun` | nautobot_remote_jobs/dispatch/reaper.py:46-71 | ABANDONED, token deleted, then retry or parent refresh |
| `DispatchService.Dispatcher.FreeCapacity` | nautobot_remote_jobs/models/workers.py:84-89 | Counts CLAIMED and RUNNING runs, never negative |
| `DispatchService.Dispatcher.PickRun` | nautobot_remote_jobs/dispatch/claims.py:58-89 | The scan with memoised held singletons picks the same run as the scan that asks each time; Offers.ClaimExactly says in columns which runs are picked |
| `DispatchService.Dispatcher.ClaimNextRun` | nautobot_remote_jobs/dispatch/claims.py:57-101 | Claims the picked run with its lease and token and touches the worker |
| `DispatchService.Dispatcher.ClaimRuns` | nautobot_remote_jobs/dispatch/claims.py:37-54 | The loop's offers and database are those of the specification that ClaimIsGreedy and Offers.ClaimExactly are about |
| `DispatchService.Dispatcher.ReportStatus` | nautobot_remote_jobs/dispatch/claims.py:151-180 | Renews or refuses as the specification that Replies.StatusReplies is about; the invariant is kept |
| `Replies.StatusReplies` | nautobot_remote_jobs/dispatch/claims.py:151-180 | Each reply iff: renewed for the worker that has the run CLAIMED or RUNNING; unknown run for any other; lease expired when the run is ABANDONED; illegal transition when it ended otherwise. A renewal puts now + lease period in the row and in the reply, makes the run RUNNING iff that was reported, and carries the JobResult's cancel flag; a refusal changes nothing |
| `DispatchService.Dispatcher.CompleteRun` | nautobot_remote_jobs/dispatch/claims.py:183-210 | Accepts, replays or refuses as the specification that Replies.CompleteReplies is about; the invariant is kept |
| `Replies.CompleteReplies` | nautobot_remote_jobs/dispatch/claims.py:183-210 | Each reply iff: only the three outcomes, only from the run's worker, only while the run is out or again with the outcome it already has. The first acceptance ends the row in that outcome at that time and deletes its token; anything else changes nothing |
| `DispatchService.Dispatcher.ReconcileInFlight` | nautobot_remote_jobs/dispatch/claims.py:213-232 | Abandons the worker's unknown runs one by one, then extends the known leases |
| `DispatchService.Dispatcher.HandleWorkerHello` | nautobot_remote_jobs/rpc/handlers.py:37-48 | Updates the worker's record, touches it and reconciles |
| `DispatchService.Dispatcher.ReapExpired` | nautobot_remote_jobs/dispatch/reaper.py:17-43 | Two passes over listed rows, each row re-checked, equal to the pass that ReapIsExact and Leases.ReapColumns describe |
| `DispatchService.Dispatcher.CancelRow` | nautobot_remote_jobs/cancel.py:42-91 | The transaction of a cancel, branch by branch |
| `DispatchService.Dispatcher.CancelRun` | nautobot_remote_jobs/cancel.py:18-100 | The transaction and the recursive cancels of the open children; the recursion ends by growing row number |
| `DispatchService.Dispatcher.SubmitRun` | nautobot_remote_jobs/dispatch/submission.py:135-178 | Refuses a disabled definition, otherwise creates the row, resolves its zone or its children, or fails it |
| `DispatchService.Dispatcher.SubmitFanout` | nautobot_remote_jobs/dispatch/submission.py:181-253 | Creates one child per share and opens the parent, or fails it when there is no share |
| `DispatchService.UnheldRowKeepsPlacement` | nautobot_remote_jobs/dispatch/submission.py:149-171 | The row that a submission creates before it resolves its zone does not influence the resolution |
| `Zones.ResolveIsBest` | nautobot_remote_jobs/dispatch/zones.py:11-21 | A device is in zone z iff z is enabled, one of its rules matches, and z comes before every other such zone by priority and name; the order of rows and rules plays no part |
| `Zones.ResolveFails` | nautobot_remote_jobs/dispatch/zones.py:17-21 | No zone iff no enabled zone has a matching rule |
| `Zones.ResolveZone` | nautobot_remote_jobs/dispatch/zones.py:11-38 | The search over zones and rules finds that zone |
| `Zones.RuleIsConjunction` | nautobot_remote_jobs/models/zones.py:142-169 | A rule matches iff it has criteria and each of them, as a rule of its own, matches; an empty rule is no wildcard |
| `Placements.MatchesUnlessRefused` | nautobot_remote_jobs/models/zones.py:142-169 | A rule lets a device in unless it has no criteria, or the device is not in its group, not in or below its locations, not of its roles, or has no primary address of the family and range of one of its prefixes |
| `Placements.DeviceIsIn` | nautobot_remote_jobs/dispatch/zones.py:11-38 | In columns: a device is in zone z iff z is enabled, one of its rules lets the device in, and z has the least priority, and among equals the first name, of all such zones |
| `Zones.LeastIsBest` | nautobot_remote_jobs/dispatch/zones.py:21 | The head of the sorted list is the one zone before all others |
| `Submission.CheapestZoneWithCapacity` | nautobot_remote_jobs/dispatch/zones.py:54-59 | The first zone with capacity in the query's order is the least of all that have it |
| `Submission.ZoneHasOnlineCapacity` | nautobot_remote_jobs/dispatch/zones.py:41-51 | True iff some enabled, undrained, online worker of the zone has the capabilities and a free slot |
| `Submission.PlacementFails` | nautobot_remote_jobs/dispatch/submission.py:98-131 | Exactly when a pinned or any-zone submission fails for want of a zone |
| `Submission.PlacementIsSound` | nautobot_remote_jobs/dispatch/submission.py:98-131 | A run is queued in a zone that can take it now, or waits in its definition's own zone, which then lets runs wait; a zone-local run is not moved; failover happens only when no target before it had capacity |
| `Placements.AnyZoneGoesTo` | nautobot_remote_jobs/dispatch/zones.py:54-59 | In columns: an any-zone run goes to the enabled zone with room that has the least priority and among equals the first name in dictionary order; without one it waits in its definition's zone iff that waits for capacity, and fails otherwise |
| `Placements.PinnedGoesTo` | nautobot_remote_jobs/dispatch/submission.py:98-131 | A pinned run goes to its zone when that has room or waits for capacity; otherwise it fails, when the zone fails fast or the run must stay local, or goes to the first failover target that is enabled and has room, and stays when there is none |
| `Placements.CapacityIsRoom` | nautobot_remote_jobs/dispatch/zones.py:41-51 | A zone has room iff one of its workers is enabled, seen within its time to live, not draining, has the capabilities and has fewer CLAIMED and RUNNING runs than its capacity |
| `Placements.NameBeforeIs` | nautobot_remote_jobs/dispatch/zones.py:54-59 | The order of names is dictionary order: after a common beginning the first name is at its end or has the smaller character |
| `Submission.FirstTakerTakes` | nautobot_remote_jobs/dispatch/submission.py:128-131 | Failover takes the first enabled target with capacity, in order |
| `Submission.WaitIsBounded` | nautobot_remote_jobs/dispatch/reaper.py:74-106 | A run queued without capacity is not left in the queue by any pass after its zone's wait budget, whatever happened in between |
| `Submission.CreationIsQueueOrder` | nautobot_remote_jobs/dispatch/claims.py:59-62 | While the clock does not go back, creation order is queued_at order, retried runs included |
| `Submission.IdentityKept` | nautobot_remote_jobs/models/runs.py:63-91 | Definition, parent, zone, devices and queued_at never change; abandonment does not reset queued_at |
| `Submission.FanOutPartitions` | nautobot_remote_jobs/dispatch/submission.py:181-240 | All or nothing; every device is in the share of one child in its own zone; fan_out children have distinct zones; no device is lost or duplicated |
| `Placements.FanOutRows` | nautobot_remote_jobs/dispatch/submission.py:206-246 | The rows of a fan-out: old rows kept, a parent that is RUNNING from now without zone, worker and token, then one PENDING child per share with the share's own zone and devices |
| `Placements.SubmittedRow` | nautobot_remote_jobs/dispatch/submission.py:149-178 | The row of a single run: PENDING in its zone, or FAILED_DISPATCH and finished when it has none |
| `Placements.EveryDeviceIsReached` | nautobot_remote_jobs/dispatch/submission.py:181-240 | When every device has a zone, each is in a child of the new parent that waits in that zone |
| `Placements.UnresolvedFanOutFails` | nautobot_remote_jobs/dispatch/submission.py:194-199 | When one device has no zone there is one failed row and no child |
| `Submission.DevicesInOrder` | nautobot_remote_jobs/dispatch/submission.py:221-226 | A zone's share lists exactly its devices in the order given |
| `Submission.GroupByZone` | nautobot_remote_jobs/dispatch/submission.py:221-223 | The insertion-ordered dictionary gives the shares in order of first occurrence |
| `Submission.ZonesInOrder` | nautobot_remote_jobs/dispatch/submission.py:221-223 | The shares of a fan-out stand in the order in which their zones are first mentioned |
| `Submission.GroupingConserves` | nautobot_remote_jobs/dispatch/submission.py:221-226 | Grouping keeps the multiset of devices |
| `AgentProtocol.AlwaysOk` | worker/remote_worker/agent.py:141-160 | After any server steps, crashes, restarts, lost messages and error answers: journal, tasks and deadlines are consistent, and the server's and the agent's records differ only on runs whose claim the agent has no record of and on runs whose report was answered by something else than the server's completion; with the latter the agent is done |
| `AgentProtocol.HelloReconciles` | worker/remote_worker/agent.py:141-160 | Run by run, a hello that is answered renews what the agent knows of and drops what it does not |
| `AgentProtocol.GreetIsHello` | worker/remote_worker/agent.py:141-160 | The greeting on connect sends exactly that hello and then recovers the journaled runs |
| `AgentProtocol.HelloAbandons` | nautobot_remote_jobs/dispatch/claims.py:222-226 | A run the worker did not name is abandoned, with the retry policy |
| `AgentProtocol.HelloAgrees` | worker/remote_worker/agent.py:284-294 | After a hello every run the server records with the worker has a task and a lease of now + L; its task is at work unless it is over and not yet forgotten, after a re-claim or an answer that settled nothing |
| `AgentProtocol.HandledMeansOver` | nautobot_remote_jobs/dispatch/claims.py:183-210 | When the server handles job.complete, whatever it answers, it no longer has the run with this worker |
| `AgentProtocol.AnswerSettles` | worker/remote_worker/agent.py:590-602 | After any answer to job.complete, an RPC error of the gateway or an internal error included, the agent is done with the run; the worker still has it iff it had it before and the completion was not handled |
| `Outcomes.PhaseIs` | worker/remote_worker/agent.py:269-384 | Over whole histories: a task is in a phase iff some event brought it there and none since has ended the phase. In particular it reports outcome o iff its container ended with o while supervised, or o is FAILURE and it could not be created, started or found, and its report was neither answered nor lost since |
| `Outcomes.RequestTellsOutcome` | worker/remote_worker/agent.py:570-590 | A request to complete a run goes out iff its task reports, and carries exactly what the task reports |
| `Outcomes.ServerRecords` | nautobot_remote_jobs/dispatch/claims.py:183-210 | A handled report of a run that is with the worker ends the run in the reported state, at that time, with its token gone and its JobResult accordingly; of any other run it changes nothing |
| `Outcomes.ExitIsRecorded` | worker/remote_worker/agent.py:431-432 | When a supervised container ends with outcome o and the report is handled, the server's row is in state o |
| `Outcomes.EndingIsRecorded` | worker/remote_worker/agent.py:434-446 | From the container's end to the server's row: TERMINATED iff a cancel stopped it, SUCCESS iff nothing stopped it and it exited with 0, FAILURE otherwise |
| `Outcomes.HistoryIsRecorded` | worker/remote_worker/agent.py:550-602 | Over whole histories: a report that was caused with outcome o, however long ago, and is handled while the run is with the worker ends the run in o |
| `Outcomes.CrashLosesTasks` | worker/remote_worker/agent.py:284-294 | A crash loses the tasks and nothing else; the next greeting gives exactly the journaled runs a task, with the timeout and the deadline of the entry |
| `AgentProtocol.ErrorAnswerLosesRun` | gateway/remote_jobs_gateway/bridge.py:136-146 | An answer from the rate limiter, or any other that settles nothing, leads the agent to forget a run whose record on the server is unchanged |
| `AgentProtocol.ForgottenRunIsRetried` | nautobot_remote_jobs/dispatch/claims.py:222-226 | The next hello abandons a run that was so forgotten: with attempts left it is queued again, whatever its outcome was, otherwise it ends ABANDONED |
| `AgentProtocol.UnsettledWasUnhandled` | gateway/remote_jobs_gateway/bridge.py:193-201 | In every history the runs on record as so answered are runs whose report was so answered |
| `Bookkeeping.ListedIs` | worker/remote_worker/agent.py:262-294 | The two sets of runs on which agent and server may differ, over whole histories and in both directions: a run is unheard iff it was claimed for the worker, or its task was lost before it was journaled, and it was since neither offered to the agent nor settled by a greeting; likewise for reports that were answered by an error from elsewhere |
| `AgentProtocol.DeadlineNeverMoves` | worker/remote_worker/agent.py:353-384 | While its journal entry is there, a run's deadline is the journaled start plus its timeout, across all crashes, restarts and offers |
| `AgentProtocol.RetryInheritsDeadline` | worker/remote_worker/journal.py:50-61 | A retry that returns to the same worker while the entry is there inherits the first attempt's start |
| `AgentProtocol.ContainersAreJournaled` | worker/remote_worker/agent.py:329-384 | For every history with crashes and restarts between any steps: in every state each container has a journal entry and a way to be removed, iff no event of it loses a container that is there (a failed creation, a failed lookup, or a failed removal of it) |
| `AgentProtocol.TidyStays` | worker/remote_worker/agent.py:604-614 | One event leaves the containers journaled and removable iff it does not lose a container that is there |
| `AgentProtocol.CleanExactly` | worker/remote_worker/agent.py:552-614 | From such a state, every continuation without another failure keeps all containers journaled iff this event did not lose one |
| `AgentProtocol.CleanupOrphans` | worker/remote_worker/agent.py:604-614 | Cleanup orphans a container iff it exists and its RunTask had no handle on it or removal failed |
| `AgentProtocol.GivingUpOrphans` | worker/remote_worker/agent.py:367-372 | A failed lookup of an existing container orphans it, whatever the server answers |
| `AgentProtocol.ReclaimCannotStart` | worker/remote_worker/agent.py:334-349 | A re-claimed run whose old container still exists can only fail to start |
| `AgentProtocol.OfferLostToOldTask` | worker/remote_worker/agent.py:269-282 | An offer that meets the old, answered task is dropped as a duplicate: the server then has the run with a worker that knows nothing of it |
| `Witnesses.ContainerIsOrphaned` | worker/remote_worker/agent.py:356-372 | A history from an empty database that orphans a container: crash while it runs, failed lookup after the restart, report, cleanup |
| `Witnesses.OfferIsLost` | worker/remote_worker/agent.py:269-282 | A history from an empty database after which the server has a run with a worker whose agent has no task and no entry for it |
| `Witnesses.ReportIsLost` | worker/remote_worker/agent.py:590-614 | A history from an empty database in which a run succeeds, its report is answered by the rate limiter, and the server still has the run with a worker that has no task and no entry for it |
| `Witnesses.SucceededRunIsRetried` | nautobot_remote_jobs/dispatch/claims.py:222-226 | One hello later the run that has succeeded is queued for its second attempt |
| `WorkerAgents.Classify` | worker/remote_worker/agent.py:434-446 | SUCCESS iff exit code 0 and no flag; TERMINATED iff cancelled; always one of the three completion states |
| `WorkerAgents.WorkerAgent.StartRun` | worker/remote_worker/agent.py:269-282 | Registers a task unless the run has one |
| `WorkerAgents.WorkerAgent.StartRuns` | worker/remote_worker/agent.py:262-264 | The loop over the offers of a claim gives what taking them one after the other gives |
| `WorkerAgents.OffersTakenAre` | worker/remote_worker/agent.py:269-282 | Taking the offers of a claim gives exactly the offered runs without a task a task, with the timeout of its first offer, and changes no other |
| `WorkerAgents.WorkerAgent.BeginRun` | worker/remote_worker/agent.py:329-354 | Journals before anything else and fixes the deadline from the journal entry |
| `WorkerAgents.WorkerAgent.CreateContainer` | worker/remote_worker/agent.py:334-349 | Started, created but not started, or not created, with the handle each leaves |
| `WorkerAgents.WorkerAgent.RecoverRun` | worker/remote_worker/agent.py:356-384 | Attach, report as lost, or give up |
| `WorkerAgents.WorkerAgent.ContainerExited` | worker/remote_worker/agent.py:388-446 | A supervised container's end becomes the outcome that its flags and exit code stand for: TERMINATED iff cancelled, SUCCESS iff no flag is set and the exit code is 0 |
| `WorkerAgents.WorkerAgent.CompleteAnswered` | worker/remote_worker/agent.py:590-602 | Any answer ends the report in the same way, be it from the server's completion or an error from elsewhere |
| `WorkerAgents.WorkerAgent.CleanUp` | worker/remote_worker/agent.py:604-614 | Container first, then the journal entry, then the run's RunTask |
| `WorkerAgents.WorkerAgent.RecoverJournaledRuns` | worker/remote_worker/agent.py:284-294 | The loop over the journal makes a task for every entry that has none |
| `Journals.RunJournal.Add` | worker/remote_worker/journal.py:50-77 | Returns a readable entry as it is, otherwise writes one; either way it can be read back |
| `Journals.RunJournal.LoadAll` | worker/remote_worker/journal.py:102-117 | All readable entries, each once, oldest first; corrupt files are passed over |
| `Journals.RunJournal.RunIds` | worker/remote_worker/journal.py:119-121 | The run ids of exactly the readable entries |
| `Journals.RunJournal.Remove` | worker/remote_worker/journal.py:123-128 | The entry is gone; removing an absent one is no error |
| `JournalMap.Record` | worker/remote_worker/journal.py:50-77 | On the directory of files, adding an offer is what the protocol's map of entries says, as long as run ids are safe in file names |
| `JournalMap.Erase` | worker/remote_worker/journal.py:123-128 | Removing a run's file removes its entry of the map and no other |
| `JournalMap.ReadBack` | worker/remote_worker/journal.py:102-121 | Reading the directory gives the entries of the map, all of them and nothing else |
| `Journals.SafeIdsDoNotCollide` | worker/remote_worker/journal.py:45-48 | Two ids of safe characters share a file iff they are equal |
| `Journals.SafeIdIsItsPath` | worker/remote_worker/journal.py:45-48 | An id is its own file name iff all its characters are safe |
| `Journals.SafeIs` | worker/remote_worker/journal.py:45-48 | The safe characters by their codes: letters and digits of ASCII, the hyphen, the underscore |
| `Journals.UnsafeIdsCanCollide` | worker/remote_worker/journal.py:45-48 | Two different ids with unsafe characters can share a file |
| `LogSinks.AlwaysOk` | worker/remote_worker/sinks/base.py:118-170 | Per run, batches are numbered 1, 2, 3, ... across kinds until the run is forgotten; batches have 1 to 100 entries; resting buffers are under both thresholds |
| `LogSinks.Conservation` | worker/remote_worker/sinks/base.py:118-157 | Batches handed over for a run and kind, followed by its buffer, are the emitted entries in order |
| `LogSinks.NumberedFromOne` | worker/remote_worker/sinks/base.py:151-152 | Without forget_run the j-th batch of a run carries number j |
| `LogFlush.FlushRunEmpties` | worker/remote_worker/sinks/base.py:92-96 | After the flush of a run nothing waits for it, of either kind, all of it handed over; every other run's buffers are as before |
| `LogFlush.FlushEverythingEmpties` | worker/remote_worker/sinks/base.py:92-96 | After the flush of everything nothing waits at all |
| `LogFlush.FlushExpiredEmpties` | worker/remote_worker/sinks/base.py:129-135 | The timer hands over a buffer iff its first entry has waited for two seconds, and leaves the others as they are |
| `LogFlush.AddShipsExactly` | worker/remote_worker/sinks/base.py:118-127 | An added entry waits with those before it, under the time of the first, unless it is the hundredth or brings them to 65,536 bytes, when all are handed over; other buffers are untouched |
| `LogFlush.ChosenInOrder` | worker/remote_worker/sinks/base.py:94 | The chosen keys stand in the order of the dictionary |
| `LogFlush.FlushInOrder` | worker/remote_worker/sinks/base.py:94-96 | One batch for each chosen key, in that order, with all that waited under it |
| `Sinks.BatchingLogSink.Add` | worker/remote_worker/sinks/base.py:118-127 | Append, and flush at 100 entries or 64 KiB |
| `Sinks.BatchingLogSink.Flush` | worker/remote_worker/sinks/base.py:92-96 | The chosen buffers in the dictionary's order; LogFlush says which buffers those are |
| `Sinks.BatchingLogSink.MaybeFlushExpired` | worker/remote_worker/sinks/base.py:129-135 | Exactly the buffers older than the interval |
| `Sinks.BatchingLogSink.FlushLocked` | worker/remote_worker/sinks/base.py:145-162 | Pop, number, hand over |
| `Sinks.BatchingLogSink.ForgetRunOf` | worker/remote_worker/sinks/base.py:168-170 | Forgets the run's numbering and nothing else |
| `Sinks.LogClient.Add` | sdk/nautobot_remote_jobs_sdk/logging.py:74-85 | The SDK client keeps batches well formed and numbered and loses nothing |
| `Sinks.LogClient.Flush` | sdk/nautobot_remote_jobs_sdk/logging.py:87-105 | After a flush everything that was added has been shipped, in order |
| `LogLimits.BoundIsExact` | nautobot_remote_jobs/constants.py:22-23 | Every batch of every sink passes the server's 500-entry and 262,144-byte check iff entries have at most 196,409 bytes |
| `LogLimits.AcceptsExactly` | nautobot_remote_jobs/api/ingestion.py:29-41 | A batch passes the server's check iff it has at most 500 entries and their texts with two characters for each have at most 262,144 bytes |
| `LogLimits.WellFormedFits` | nautobot_remote_jobs/api/ingestion.py:29-41 | Any well-formed batch of entries within the bound is accepted, the SDK's included |
| `LogLimits.ListSizeIs` | nautobot_remote_jobs/api/ingestion.py:39 | A JSON list is as long as its members plus two per member |
| `LogDelivery.SendBatch` | worker/remote_worker/sinks/http.py:64-95 | The bounded retry loop: stops on success or refusal, gives up after the last attempt |
| `LogDelivery.OutcomeExactly` | worker/remote_worker/sinks/http.py:64-95 | The loop ends as delivered iff the first attempt that is answered with success or refusal is a success, as rejected iff it is a refusal, and as given up iff there is no such attempt |
| `LogDelivery.LogIngest.WriteBatch` | nautobot_remote_jobs/api/ingestion.py:77-124 | Checks the mark, writes, then marks; a fault in between writes without marking |
| `LogDelivery.MarksApart` | nautobot_remote_jobs/api/ingestion.py:44-52 | Two batches share a mark iff run, kind and number are the same |
| `LogDelivery.SendWrites` | nautobot_remote_jobs/api/ingestion.py:77-124 | The exact effect of sending an unmarked batch: Stored(attempts) copies are written and the mark is set iff Marked(attempts); a sender told of success has it marked |
| `LogDelivery.StoredExactly` | nautobot_remote_jobs/api/ingestion.py:55-66 | A batch is stored iff some request wrote it before an answered refusal, marked iff such a request was processed to the end, and stored more than once only if a mark failed |
| `LogDelivery.MarksAre` | nautobot_remote_jobs/api/ingestion.py:48-52 | After any deliveries a number is marked iff it was before, or some act sent it and got it marked |
| `LogDelivery.StoredInOrder` | nautobot_remote_jobs/api/ingestion.py:48-124 | The rows of a run and kind, exactly, for any faults: its batches in the order sent, none for a batch marked earlier, otherwise as many copies as its own attempts wrote |
| `LogDelivery.DeliveredIsStored` | worker/remote_worker/sinks/http.py:64-95 | A sender told of success has its batch in the table, written by this send or marked before it: no fault between write and mark loses a batch |
| `LogDelivery.EndToEnd` | worker/remote_worker/sinks/http.py:64-95 | From emit to table: with nothing pending, every send told of success or processed to the end, and no mark failed, the rows are the emitted entries, each once and in order |
| `LogDelivery.EndToEndAfterFlush` | worker/remote_worker/agent.py:550-558 | The same for histories that end with the flush of the run, which the agent makes before it reports: nothing needs to be assumed about what waits |
| `LogDelivery.SecondLifetimeRemembered` | nautobot_remote_jobs/api/ingestion.py:44-52 | When numbering starts again for a run, a batch is dropped as a replay iff the first lifetime got a batch of the same kind and number marked, whatever else it lost |
| `LogDelivery.RetryLeavesNoRow` | worker/remote_worker/sinks/base.py:168-170 | A retried run leaves no row of a kind iff each of its batches was written by no attempt or has a number that the first lifetime got marked |
| `TokenBucket.WindowBoundInTime` | gateway/remote_jobs_gateway/bridge.py:53-61 | At most burst + rate (t - s) frames in any window |
| `TokenBucket.RefusedExactly` | gateway/remote_jobs_gateway/bridge.py:53-61 | A call is refused iff it would take some window that ends with it over that limit |
| `TokenBucket.SpacedInTime` | gateway/remote_jobs_gateway/bridge.py:53-61 | Calls at least 1/rate apart are all allowed when burst >= 1 |
| `TokenBucket.SmallBurst` | gateway/remote_jobs_gateway/bridge.py:44-46 | Every call is refused iff burst < 1, which the constructor accepts |
| `TokenBucket.RefusedCallsDoNotCount` | gateway/remote_jobs_gateway/bridge.py:56-61 | Without the refused calls every other answer is the same |
| `TokenBucket.Answers` | gateway/remote_jobs_gateway/bridge.py:41-61 | A limiter called at given times gives the answers of the flow recursion the lemmas are about |
| `TokenBucket.RateLimiter.Allow` | gateway/remote_jobs_gateway/bridge.py:53-61 | Refill, then take one token or refuse |
| `Bridge.OneFramePerRequest` | gateway/remote_jobs_gateway/bridge.py:184-206 | Under every order of responses, late responses, timeouts and repeated ids a request has been sent one frame iff its waiter is done |
| `Bridge.RepliesAreTrue` | gateway/remote_jobs_gateway/bridge.py:168-206 | Every response a request is sent came in under its id while it waited, also with repeated ids |
| `Bridge.ResponseReaches` | gateway/remote_jobs_gateway/bridge.py:219-223 | A response reaches its waiting request iff, since it was forwarded, no request with the same id was forwarded and none that waited with it timed out |
| `Bridge.FreshIdsMatch` | gateway/remote_jobs_gateway/bridge.py:168-206 | With ids in flight distinct, each request is touched by its own response and its own timeout only |
| `Bridge.TheRightReply` | gateway/remote_jobs_gateway/bridge.py:184-206 | With ids in flight distinct, a finished request has been sent one frame and no other: the response that came while it waited, or the timeout iff none came |
| `Bridge.RepeatedIdLosesResponse` | gateway/remote_jobs_gateway/bridge.py:195-196 | With a repeated id the first request's timeout makes the second's response go astray |
| `Bridge.WorkerBridge.PublishRequest` | gateway/remote_jobs_gateway/bridge.py:168-182 | Registers the waiter under the id, over any earlier one |
| `Bridge.WorkerBridge.ResponseArrived` | gateway/remote_jobs_gateway/bridge.py:219-226 | Hands the response to the registered waiter or drops it |
| `Bridge.WorkerBridge.WaitExpired` | gateway/remote_jobs_gateway/bridge.py:193-201 | Unregisters the id and sends one timeout error |
| `Bridge.WorkerBridge.RelayResponse` | gateway/remote_jobs_gateway/bridge.py:202-206 | Sends the waiting request its response and ends the wait |
| `Connection.CallEndsOnce` | worker/remote_worker/connection.py:204-268 | Each call ends once, with its own id's response or a closed connection; a disconnect leaves nothing pending |
| `Connection.EndingsAreTrue` | worker/remote_worker/connection.py:204-268 | Over whole histories a call has an ending iff one event ended it so; with a reply only if that response came in under the call's own id while it was open |
| `Connection.EndsOnce` | worker/remote_worker/connection.py:204-268 | No two events of a history end the same call |
| `Connection.EndingStays` | worker/remote_worker/connection.py:204-268 | Once ended, a call stays as it is whatever happens afterwards |
| `Connection.GatewayConnection.StartCall` | worker/remote_worker/connection.py:245-268 | Registers the call, or ends it at once when its frame cannot be sent |
| `Connection.GatewayConnection.Resolve` | worker/remote_worker/connection.py:204-210 | Ends the registered call with its response, or drops the response |
| `Connection.GatewayConnection.TimeOut` | worker/remote_worker/connection.py:261-267 | A call that waited too long ends as closed and is unregistered |
| `Connection.GatewayConnection.FailPending` | worker/remote_worker/connection.py:212-216 | The loop fails every registered call and forgets all registrations |
| `Redaction.RedactionIsComplete` | sdk/nautobot_remote_jobs_sdk/redaction.py:63-70 | For every text and any other registered values, a registered value that cannot meet the mask is not left |
| `Redaction.PlainValuesDoNotTouch` | sdk/nautobot_remote_jobs_sdk/redaction.py:16 | Values without parentheses that are no part of "redacted" cannot meet the mask |
| `Redaction.RedactionIsIdempotent` | sdk/nautobot_remote_jobs_sdk/redaction.py:63-70 | Redacting again, in any order, changes nothing |
| `Redaction.MaskedAsOneUnit` | sdk/nautobot_remote_jobs_sdk/redaction.py:53-60 | A secret that contains shorter secrets is masked as one unit, and both sides are redacted on their own |
| `Redaction.SafeAloneExactly` | sdk/nautobot_remote_jobs_sdk/redaction.py:63-70 | A value registered by itself is absent from every output iff it cannot be put together from a mask and its surroundings, read off the value alone |
| `Redaction.LeakingText` | sdk/nautobot_remote_jobs_sdk/redaction.py:63-70 | A text in which a leaking value shows up again after redaction |
| `Redaction.SafeInCompanyExactly` | sdk/nautobot_remote_jobs_sdk/redaction.py:63-70 | A value is absent from every redacted text whatever else is registered, iff it cannot meet the mask |
| `Redaction.LeaksInCompany` | sdk/nautobot_remote_jobs_sdk/redaction.py:53-70 | For a value that can meet the mask: another value of the same length and a text in which it is left |
| `Redaction.Protected` | sdk/nautobot_remote_jobs_sdk/redaction.py:53-70 | A value that leaks by itself is safe among given values when each text that would bring it back contains an earlier one that cannot meet the mask |
| `Redaction.ProtectedPair` | sdk/nautobot_remote_jobs_sdk/redaction.py:53-70 | Two values of which the second leaks by itself and not next to the first: whether a set leaks is not decided value by value |
| `Redaction.PartOfMaskLeaks` | sdk/nautobot_remote_jobs_sdk/redaction.py:16-20 | A part of the mask's own word may be registered and leaks |
| `Redaction.Redactor.Register` | sdk/nautobot_remote_jobs_sdk/redaction.py:26-38 | Absent and short values are ignored, others added |
| `Redaction.Redactor.RegisteredValues` | sdk/nautobot_remote_jobs_sdk/redaction.py:53-60 | Exactly the registered values, longest first |
| `Redaction.Redactor.Redact` | sdk/nautobot_remote_jobs_sdk/redaction.py:63-70 | The loop equals repeated replacement, and leaves no value that cannot meet the mask |
| `ImageRef.ParseAfterPinning` | sdk/nautobot_remote_jobs_sdk/cli/publish.py:61-91 | Parsing image@digest gives the image's registry and the digest, and its repository iff the last component has at most one colon |
| `ImageRef.HostedImage` | sdk/nautobot_remote_jobs_sdk/cli/publish.py:61-91 | A first component with a dot or a colon, or localhost, is the registry; path, tag and digest are read back from any combination of them, the tag being latest when there is none |
| `ImageRef.HubImage` | sdk/nautobot_remote_jobs_sdk/cli/publish.py:61-91 | Any other first component belongs to a path on docker.io |
| `ImageRef.BareImage` | sdk/nautobot_remote_jobs_sdk/cli/publish.py:61-91 | A bare name is library/name on docker.io |
| `ImageRef.WorkerAcceptsPinned` | worker/remote_worker/runtime/base.py:33-42 | The worker accepts every pinned reference, and reads that digest iff it has no trailing newline |
| `ImageRef.EnsureIs` | worker/remote_worker/runtime/base.py:33-42 | The worker reads a digest from a reference iff the reference ends in @digest, possibly followed by a newline |
| `ImageRef.DigestIs` | worker/remote_worker/runtime/base.py:16 | A digest is sha256: and 64 lower-case hexadecimal digits |
| `ImageRef.RegistriesAgree` | worker/remote_worker/config.py:275-281 | The worker looks up credentials under the SDK's registry iff the image contains a slash |
| `ImageRef.CredentialsOf` | worker/remote_worker/config.py:275-281 | Credentials are those of the first component when that is a host, or else of docker.io; the fallback entry stands in for a missing or an empty one |
| `ImageRef.BareImageMissesCredentials` | worker/remote_worker/config.py:275-281 | For a bare image only the wildcard credentials are found |
| `ImageRef.TagOff` | nautobot_remote_jobs/models/definitions.py:90-94 | What image_with_digest keeps is the reference without the tag of its last component |

## Left out

- Django's ORM, SQL isolation inside a transaction, `skip_locked` contention, migrations and edits of definitions, zones or settings during a history: replaced by atomic steps.
- Deletion of workers, users and runs, and the RemoteCancelStrategy that core Nautobot may call: not part of this model.
- Runs with equal queued_at are taken in creation order; the database may choose another order among them.
- A failed deletion of a token in the token table, which the code only logs, and token expiry by time.
- Log lines written to the JobResult, published events, notifications and metrics: no effect on the modelled state.
- ClaimBatch.CapacityRespected: stated for histories in which each batch claim is served as a whole; two batches of the same worker that interleave may each use the free capacity they read.
- DispatchService.Dispatcher.SubmitRun: input validation, dry-run support and the lookup of devices are parameters; the raising cases other than the disabled definition are not modelled.
- Zones.ResolveZone: location trees, address containment and dynamic groups are given as sets and ranges on the device and the rule.
- Rejected job.claim calls of disabled or draining workers: `claim_runs` itself returns nothing for them, which is modelled.
- AgentProtocol.ContainersAreJournaled: that every container has a journal entry is false of the code when the runtime fails with the container in place; Witnesses.ContainerIsOrphaned is such a history, and the condition is exact.
- AgentProtocol.HelloAgrees: the hello exchange is one step; a claim whose request is still under way while the hello is handled is modelled as handled before or after it.
- Journals.RunJournal.LoadAll: the order among entries with equal start times.
- Journals.SafeIdIsItsPath: letters and digits are those of ASCII; Python's isalnum keeps those of other scripts too.
- The agent's cancel, kill and timeout signals to containers: a container ends with any of the three outcomes, and Classify maps the causes.
- Graceful shutdown (`detach`) of the agent: to the protocol it is a crash.
- LogDelivery.EndToEnd: within the 24-hour lifetime of the marks, with requests handled before the next attempt is made; the normalisation of levels, groupings and timestamps on the rows is not modelled.
- The Kafka sink and consumer: the same batches over another transport.
- Redaction.Protected: for one given set of several values the condition is sufficient only. It is exact for a value by itself (SafeAloneExactly) and for a value in any company (SafeInCompanyExactly).
- A secret split over two writes of a redacting stream is redacted per write, so it is not found; streams are not modelled.
- Bridge: frame size limits, frame parsing and the forwarding of notifications and commands; a closed connection ends all waiters without a frame.
- The websocket, HTTP, Redis, Kafka and Docker transports, the HMAC handshake, enrollment, token generation and TLS.
- Schedules, JSON Schema validation, Jinja rendering, secrets providers, GraphQL, artifacts, forms, views, tables and settings: library code or thin wrappers.
