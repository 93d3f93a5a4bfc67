# Ride-hailing: a verified model

A Dafny model of the five stateful parts of the ride-hailing back end, and proofs about every run of each:
the ride service with its idempotency keys and outbox, the matching service over Redis, the protocol that the two form
together, the gRPC circuit breaker, the notification hub, and the user service's sessions.

`dafny verify dfyconfig.toml` checks everything.

## How it is built

Every stateful object is modelled twice. A class has the program's fields and its methods follow the program branch by
branch; each method is proved equal to a function on plain values (`Value() == Spec(old(Value()))`). Runs are sequences
of steps over those same functions, with overlapping calls, stale reads, duplicated events and expiring keys as separate
steps, and the theorems are about all runs.

| file | what it holds |
|---|---|
| `Options.dfy`, `Sequences.dfy` | optional values; lists without repetition |
| `RideDomain.dfy`, `RideService.dfy` | rides and offers with their state machines; operations, tables, `Apply` = one uninterrupted request |
| `RideTransactions.dfy`, `EventLog.dfy` | many requests at once: lookup, begin, read, compare-and-set, save key, commit or abort; the row and the event that each leaves |
| `Outbox.dfy`, `OutboxWorkers.dfy`, `OutboxProgress.dfy` | the outbox table and its worker; many workers claiming, publishing, dying, with resets and sweeps; what can be claimed when |
| `Candidates.dfy` | the widening search and the ranking |
| `MatchingService.dfy`, `MatchingSends.dfy` | the ride keys in Redis and the handlers; how one send can end |
| `MatchingEffects.dfy` | what the handlers do to drivers, locks and lists, in numbers |
| `MatchingRuns.dfy`, `DriverExclusivity.dfy`, `Redelivery.dfy` | order and number of offers per ride; spacing per driver; stale and repeated events |
| `OfferProtocol.dfy` | both services together, events delivered at least once in any order, keys vanishing at any time |
| `LateRequests.dfy` | exactly when a late `ride.requested` can break the protocol, and a run in which it does |
| `OfferAdvances.dfy`, `RepeatedOutcomes.dfy` | how often an offer advances its ride, with and without repeated keys; two runs with repeated outcomes |
| `CircuitBreaker.dfy`, `BreakerRuns.dfy` | the breaker, with calls that finish in another state than the one that admitted them; when exactly it opens and closes |
| `EventId.dfy`, `NotifyHub.dfy`, `HubRuns.dfy`, `HubInterleaving.dfy`, `HubReconnect.dfy`, `HubFilters.dfy` | event numbers, the hub, runs with whole broadcasts, runs with the three sections of a broadcast interleaved, clients that return during them, and who receives what |
| `Sessions.dfy`, `SessionRuns.dfy`, `SessionUse.dfy` | tokens, limits, lockout; when requests succeed and what they leave |

## What came out

Main results, each for all runs:

- At most one offer of a ride is ever accepted, and all others end declined or expired, provided `ride.requested` is not
  handled again once the ride has an offer. Without that proviso one more `ride.requested` can break it exactly if the ride has
  a live offer but none active, no candidates and no lock, and the search can end in an offer (`RequestBreaksSafetyIffExposed`).
  Accepting an offer can leave a ride like that, and a redelivered `ride.requested` can then have a second driver accepted
  (`RedeliveredRequestDoubles`).
- An offer advances its ride at most once, however often its outcome is delivered, as long as CreateOffer is sent without a
  repeated key. Under a repeated key it is answered with the old offer, which then can advance the ride again
  (`OldOutcomeAdvancesIffReplayed`, `RepeatedKeyAdvancesTwice`).
- Of concurrent requests under one key at most one commits, the rest leave no trace, and all successful replies agree.
- Nothing falls between a hub client's replay and its live events; no event reaches a channel more than twice; no channel is used after closing.
  A client that leaves and returns can lose an event whose fan-out was overtaken by that of a greater number, and nothing else
  (`ReturnLosesWhatWasOvertaken`).
- Deleting stale decline and expiry events is harmless for every sequence exactly if no cool-down is configured or no search
  can ever run (`HarmlessIffNoCooldownIsSeen`). A stale event restarts the driver's cool-down, which a later
  `ride.requested` sees, also that of another ride (`LateDeclineCancelsAnotherRide`). Without later requests it is always harmless.
- The breaker never wedges in half-open; the outbox publishes each message at most maxAttempts times and with the back-off between;
  drivers are never offered twice within the offer's time to live; sessions stay within the role's limit; failed logins are throttled.

Places where the code does something a reader might not expect:

- No operation of the ride service ever sets OFFERED (services/ride/internal/app/usecase/ride_service.go:90-211), so without an
  outside hand a ride stops at MATCHING (`StuckWithoutTheOutOfBandStep`).
- Events read their request id under a plain string key (services/ride/internal/app/usecase/ride_service.go:380) while the interceptor stores it under
  a typed one (services/ride/internal/adapters/grpc/interceptors.go:20), so events carry none and the
  matching service sends CreateOffer without an idempotency key. `SafeIffTimely` assumes that for requests and
  `OfferAdvancesRideOnce` for all sends; `AtMostOneOfferSurvives` and `AdvancesAreBounded` hold for any keys.
- A reset FAILED row is not claimable under the same maxAttempts: it fails only when its attempts are used up.
- With a non-positive offer time to live the key that marks a driver as asked never expires.
- The widening search never ends, if nobody is found, when it starts from radius zero without a positive step
  (`SearchEndsUnlessStuckAtZero`); with a negative radius the position query, and with it the search, fails.
- A `Last-Event-ID` above anything the hub has issued, as after a restart, does not hold back live events (`RestartBreaksResume`).
- The reply to a ride operation may name the driver that was read rather than the one committed (`CommitIsSerial`).

## Assumptions

- Writes to Redis succeed; their errors are discarded at services/matching/internal/app/usecase/matching_service.go:351-358. A CreateOffer that
  returns an error has created nothing. Offers are created by the matching service only.
- Each matching handler is one atomic step, and so is each use case of the user service, whose writes succeed.
- Clocks are monotone where a theorem is about time. New identifiers and tokens are new.
- Idempotency keys are not cleaned up, and a key is not used for both a ride and an offer; a stored response is read back as it was.
- Postgres at READ COMMITTED: a written row and an inserted key stay locked until the transaction ends.
- `fn` inside the breaker does not panic.

## Model

| member | source | states |
|---|---|---|
| OfferProtocol.AtMostOneOfferSurvives | services/matching/internal/app/usecase/matching_service.go:219-365 | in every run in which `ride.requested` is not handled once its ride has an offer, of any two offers of a ride one is DECLINED or EXPIRED |
| OfferProtocol.AtMostOneOfferIsEverAccepted | services/ride/internal/app/usecase/ride_service.go:419-459 | two offers of a ride seen ACCEPTED at whatever two moments of such a run are the same offer |
| LateRequests.LateIffExposed | services/matching/internal/app/usecase/matching_service.go:123-160 | in any state, some delivery of `ride.requested` for a ride sends while an offer of the ride is live if and only if: such an offer exists, so do the ride and the event, the ride has no active offer, no candidates and no lock, a search can run, the offer limit is not used up, and some available driver is not marked as asked for ever |
| LateRequests.RequestBreaksSafetyIffExposed | services/matching/internal/app/usecase/matching_service.go:102-169 | after any safe run, one more `ride.requested` can make a second live offer of the ride if and only if that condition holds |
| LateRequests.GuardedRunsAreSafe | services/matching/internal/app/usecase/matching_service.go:102-169 | a run that handles no `ride.requested` while its ride meets the condition is safe at every moment |
| OfferProtocol.SafeIffTimely | services/matching/internal/app/usecase/matching_service.go:102-169 | the corollary for whole runs: safe at every moment if and only if no `ride.requested` event sends while an offer of its ride is live |
| OfferProtocol.LateMoveDoubles | services/matching/internal/app/usecase/matching_service.go:123-148 | a late request makes a second live offer at once |
| LateRequests.RedeliveredRequestDoubles | services/matching/internal/app/usecase/matching_service.go:197-217 | for every configuration that can find a driver, a concrete run with one redelivered `ride.requested` ends with two accepted offers for one ride |
| OfferProtocol.SendsOnlyWithoutLiveOffer | services/matching/internal/app/usecase/matching_service.go:249-253 | another driver is asked only when every earlier offer of the ride is declined or expired |
| OfferProtocol.MoveKeepsInv | services/matching/internal/app/usecase/matching_service.go:219-254 | every move of either service keeps: one live offer per ride, all but the active offer dead, outcomes in the outbox true |
| OfferProtocol.RunSettles | services/ride/internal/domain/ride_offer.go:47-61 | over a run offers stay, keep their ride, and keep their status once it is not PENDING |
| OfferProtocol.CreationSettles | services/ride/internal/app/usecase/ride_service.go:213-241 | CreateOffer makes exactly the offer asked for, PENDING, or, under a used key, nothing |
| OfferProtocol.CreatedOfferIsOpen | services/matching/internal/app/usecase/matching_service.go:291-340 | an offer that matching creates names the ride and the driver asked, is PENDING, and expires after the configured time or ten seconds |
| RideService.Service.PerformOnRide | services/ride/internal/app/usecase/ride_service.go:48-211 | each ride operation answers what the state machine allows and writes exactly its row and its event |
| RideService.Service.PerformOnOffer | services/ride/internal/app/usecase/ride_service.go:213-459 | likewise for offers, with the foreign key on creation |
| RideService.Service.WithIdempotency | services/ride/internal/app/usecase/ride_service.go:277-373 | lookup, transaction, key and commit make up `Apply`, whose meaning the lemmas below give; if the key cannot be saved, nothing is changed |
| RideService.Service.ExpireAll | services/ride/internal/app/workers/offer_expiry_worker.go:46-59 | the sweep loop leaves the tables that expiring each listed offer in turn leaves |
| RideService.ExpirySparesTheResolved | services/ride/internal/app/workers/offer_expiry_worker.go:46-59 | a sweep expires exactly the listed offers that are still PENDING and changes no other offer |
| RideService.RetryIsIdempotent | services/ride/internal/app/usecase/ride_service.go:277-324 | after a success under a key, any request under it repeats the reply and changes nothing |
| RideService.ErrorsLeaveNoTrace | services/ride/internal/app/usecase/ride_service.go:277-324 | a failed request leaves rides, offers, keys and outbox as they were |
| RideService.WellKeyedIsKept | services/ride/internal/adapters/db/ride_repo.go:36-50 | rows stay stored under their own identifiers |
| RideService.Store.UpdateStatusIfCurrent | services/ride/internal/adapters/db/ride_repo.go:74-90 | compare-and-set of a ride's status, with not-found and conflict told apart |
| RideService.Store.AssignDriverIfCurrent | services/ride/internal/adapters/db/ride_repo.go:92-112 | the same, setting the driver too |
| RideService.Store.InsertOffer | services/ride/internal/adapters/db/ride_offer_repo.go:33-46 | insert unless the identifier exists or the ride does not |
| RideService.Store.UpdateOfferIfCurrent | services/ride/internal/adapters/db/ride_offer_repo.go:66-84 | compare-and-set of an offer's status |
| RideService.Store.SaveKey | services/ride/internal/adapters/db/idempotency_repo.go:40-48 | a duplicate key, or an insert that fails otherwise, changes nothing and dooms the transaction |
| RideService.Store.Commit | services/ride/internal/adapters/db/tx.go:29-31 | a doomed transaction commits nothing and restores what was there |
| RideDomain.TransitionFollowsArrows | services/ride/internal/domain/ride.go:32-64 | a transition succeeds exactly along an arrow of the state machine or in place, and touches only the status |
| RideDomain.ArrowsRise | services/ride/internal/domain/ride.go:32-64 | every arrow goes up in rank, so there is no cycle |
| RideTransactions.OneCommitPerKey | services/ride/migrations/20260207120300_create_idempotency_keys.sql:9 | of all requests under one key, however they interleave, at most one commits |
| RideTransactions.RepliesUnderOneKeyAgree | services/ride/internal/app/usecase/ride_service.go:277-373 | all successful replies under one key are equal, and are the response of a commit under that key, of which there is only one |
| RideTransactions.CommitIsSerial | services/ride/internal/app/usecase/ride_service.go:277-373 | the effect of every commit is that of the whole request run at that moment; the reply differs at most in the driver it read |
| RideTransactions.OnlyCommitsWrite | services/ride/internal/app/usecase/ride_service.go:295-323 | nothing but a commit, or the out-of-band step, changes the database |
| RideTransactions.StepKeepsConsistent | services/ride/internal/adapters/db/tx.go:17-51 | every step keeps locks exclusive and what each transaction read or wrote in agreement with the committed rows |
| RideTransactions.HistoryIsAPath | services/ride/internal/adapters/db/ride_repo.go:74-112 | a ride's committed statuses start at REQUESTED, end at its status, and move only along arrows or stand still |
| RideTransactions.PathsClimb | services/ride/internal/domain/ride.go:32-64 | such a history never returns to a status it has left |
| RideTransactions.LogDeterminesStatus | services/ride/internal/app/usecase/ride_service.go:48-211 | a ride's status is the one its last event announces, or OFFERED after `ride.matching.started` and the out-of-band step |
| RideTransactions.StuckWithoutTheOutOfBandStep | services/ride/internal/app/usecase/ride_service.go:90-211 | without that step only REQUESTED, MATCHING and CANCELLED are reachable |
| RideTransactions.AssignedRidesHaveDrivers | services/ride/internal/app/usecase/ride_service.go:140-165 | from DRIVER_ASSIGNED on a ride that is not cancelled has a driver |
| RideTransactions.SettledDriverIsFinal | services/ride/internal/adapters/db/ride_repo.go:92-112 | from IN_PROGRESS, and once CANCELLED, the driver never changes |
| RideTransactions.OneOutcomePerOffer | services/ride/internal/app/usecase/ride_service.go:419-459 | no offer is ever announced under two different outcomes |
| EventLog.EveryOfferIsAnnounced | services/ride/internal/app/usecase/ride_service.go:213-459 | in every run each offer has a `ride.offer.sent` event, and once resolved one of `ride.offer.accepted`, `ride.offer.declined` or `ride.offer.expired` as its status says, each with its own ride, identifier and driver |
| EventLog.EveryAnnouncementIsRight | services/ride/internal/app/usecase/ride_service.go:213-459 | and every offer event is about an offer that exists, with its ride and driver, and an outcome event names its final status |
| EventLog.CommitsLeaveWhatTheySay | services/ride/internal/app/usecase/ride_service.go:48-459 | every commit, whatever it interleaved with, leaves the row and the event of its operation, written out for each of the ten operations |
| EventLog.RequestsLeaveWhatTheySay | services/ride/internal/app/usecase/ride_service.go:48-459 | so does an uninterrupted request, and its reply is the row it wrote |
| EventLog.RequestsFailAsTheyShould | services/ride/internal/app/usecase/ride_service.go:255-275 | a request fails only for a missing row or a status that does not allow the change, and with the error for it |
| Outbox.OutboxRepo.Enqueue | services/ride/internal/adapters/db/outbox_repo.go:35-49 | a new row is PENDING with no attempts, available at once; a used identifier is refused |
| Outbox.OutboxRepo.Claim | services/ride/internal/adapters/db/outbox_repo.go:51-105 | claims the oldest claimable rows that nobody has locked, up to the limit, counts an attempt for each, and returns them by age |
| Outbox.OutboxRepo.Oldest | services/ride/internal/adapters/db/outbox_repo.go:64-69 | ordering and limit: as many as allowed, none younger than one passed over |
| Outbox.OutboxRepo.FirstCreated | services/ride/internal/adapters/db/outbox_repo.go:67-68 | the oldest of a set of rows |
| Outbox.OutboxRepo.MarkFailed | services/ride/internal/adapters/db/outbox_repo.go:117-134 | back to PENDING with a next time, or FAILED without one |
| Outbox.OutboxRepo.MarkSent | services/ride/internal/adapters/db/outbox_repo.go:107-115 | the row is SENT and nothing else changes |
| Outbox.OutboxRepo.DeleteSentBefore | services/ride/internal/adapters/db/outbox_repo.go:136-144 | deletes exactly the SENT rows created before the cutoff and counts them |
| Outbox.OutboxRepo.ResetFailed | services/ride/internal/adapters/db/outbox_repo.go:146-165 | resets the oldest FAILED rows, up to the limit, without touching their attempts |
| Outbox.OutboxWorker.Drain | services/ride/internal/app/workers/outbox_worker.go:59-87 | the loop of a flush settles each message in turn; what that leaves of each row is stated by the two lemmas below |
| Outbox.FlushSettlesEach | services/ride/internal/app/workers/outbox_worker.go:59-87 | after a flush each row of the batch is SENT if its message was acknowledged, FAILED at the last attempt otherwise, or PENDING until its back-off has passed; message and attempts stay |
| Outbox.FlushSparesOthers | services/ride/internal/app/workers/outbox_worker.go:59-87 | every other row is unchanged |
| OutboxWorkers.ProcessingHasOneOwner | services/ride/internal/adapters/db/outbox_repo.go:64-93 | a PROCESSING row is in exactly one worker's batch, unless its worker died or a write for it failed |
| OutboxWorkers.BatchesHoldProcessingRows | services/ride/internal/adapters/db/outbox_repo.go:95-104 | a batch holds only PROCESSING rows, each under the attempt the row shows |
| OutboxWorkers.PublishedAtMostMaxAttempts | services/ride/internal/app/workers/outbox_worker.go:52-88 | over every run, resets included, a message is published at most maxAttempts times |
| OutboxWorkers.FailedRowsAreNeverClaimedAgain | services/ride/internal/adapters/db/outbox_repo.go:146-165 | a row is FAILED only at attempt maxAttempts, and whatever happens later it is never claimable again |
| OutboxWorkers.GoneOnlyAfterAcknowledgement | services/ride/internal/adapters/db/outbox_repo.go:136-144 | a row disappears only after the broker acknowledged its message |
| OutboxWorkers.WaitClosedForm | services/ride/internal/app/workers/outbox_worker.go:90-98 | the back-offs before the n-th publish add up to 2^n - 2 for n up to 7 and to 126 + 64(n - 7) beyond |
| OutboxWorkers.PublishesAreSpaced | services/ride/internal/app/workers/outbox_worker.go:61-98 | the n-th publish of a message comes at least that long after its first, whichever workers made the attempts |
| OutboxProgress.RefusedIsClaimableAfterItsDelay | services/ride/internal/app/workers/outbox_worker.go:61-73 | a message of a flushed batch can be claimed again if and only if it was refused, has attempts left, and 2, 4, 8, 16, 32 or 64 seconds have passed since |
| OutboxProgress.NewRowIsClaimable | services/ride/internal/adapters/db/outbox_repo.go:35-49 | a new row can be claimed from its creation on, as soon as any attempt is allowed |
| OutboxProgress.AllAttemptsCanBeMade | services/ride/internal/app/workers/outbox_worker.go:52-88 | the bound on publishes is exact: for every maxAttempts a run publishes one message that often |
| OutboxProgress.ResetRowNeedsALargerLimit | services/ride/internal/adapters/db/outbox_repo.go:146-165 | a reset row is PENDING with its attempts kept, and can be claimed exactly under a limit above them |
| OutboxProgress.ClaimTakesTheRow | services/ride/internal/adapters/db/outbox_repo.go:82-104 | a claimed row is PROCESSING with one attempt more and handed out with its own body; the others stay |
| OutboxProgress.SweepTakesOldSentRows | services/ride/internal/adapters/db/outbox_repo.go:136-144 | a sweep removes a row if and only if it is SENT and older than the cutoff |
| OutboxProgress.HeldBodyIsTheEnqueuedOne | services/ride/internal/adapters/db/outbox_repo.go:95-104 | over every run, whoever holds a message, in whatever attempt, holds the body that was enqueued |
| OutboxWorkers.RunKeepsInvariant | services/ride/internal/app/workers/outbox_worker.go:52-88 | ownership, attempt counts, outcomes and spacing agree after every run |
| Candidates.FindCandidates | services/matching/internal/app/usecase/matching_service.go:49-96 | the loop returns an ordering of exactly the drivers its specification finds, sorted when there is no jitter, or an error exactly if the first radius is negative |
| Candidates.SearchFindsSmallestRadius | services/matching/internal/app/usecase/matching_service.go:64-95 | the result is that of the first radius r0 + k*step up to the maximum that finds anyone, or nothing if none does |
| Candidates.ProbeMembers | services/matching/internal/app/usecase/matching_service.go:65-86 | a radius finds exactly the nearby drivers who are available and not cooling down, each once |
| Candidates.SearchFindsDistinctDrivers | services/matching/internal/app/usecase/matching_service.go:69-93 | no driver is found twice |
| Candidates.SearchEndsUnlessStuckAtZero | services/matching/internal/app/usecase/matching_service.go:50-68 | while nobody is found, the loop reaches a radius beyond the maximum or one the query refuses, unless it starts from radius zero without a positive step, and then it never does |
| Candidates.RankCandidates | services/matching/internal/app/usecase/matching_service.go:367-407 | the in-place stable sort yields a permutation, sorted when there is no jitter |
| Candidates.SpeedDoesNotMatter | services/matching/internal/app/usecase/matching_service.go:381-404 | comparing arrival times is comparing distances, whatever the average speed |
| Candidates.RankedIsSorted | services/matching/internal/app/usecase/matching_service.go:387-405 | the ranking is a permutation, strictly sorted by distance, last offer and identifier |
| Candidates.SortedIsUnique | services/matching/internal/app/usecase/matching_service.go:387-405 | there is only one such order |
| Candidates.RankingIgnoresInputOrder | services/matching/internal/app/usecase/matching_service.go:387-405 | so the ranking does not depend on the order in which drivers were found |
| MatchingEffects.NearestThenLongestWaiting | services/matching/internal/app/usecase/matching_service.go:387-405 | without jitter the nearer driver comes first, at equal distance the one last asked longer ago, then the smaller identifier |
| MatchingEffects.QueryReturnsTheNearest | services/matching/internal/adapters/redis/driver_repo.go:102-131 | a position query returns the nearest drivers within the radius, up to the limit, or ten |
| MatchingEffects.ProbeFindsTheFree | services/matching/internal/app/usecase/matching_service.go:69-86 | of these a radius finds exactly those who are available and whose cool-down is over |
| MatchingEffects.RadiiInNumbers | services/matching/internal/app/usecase/matching_service.go:50-64 | first radius, step, maximum and limit, with their defaults |
| MatchingService.DriverRepo.MarkOfferSent | services/matching/internal/adapters/redis/driver_repo.go:75-88 | the driver's key is set, for ever unless the time to live is positive, and the driver is no longer available |
| MatchingService.DriverRepo.AcquireRideLock | services/matching/internal/adapters/redis/driver_repo.go:180-192 | set if absent |
| MatchingService.DriverRepo.StoreRideCandidates | services/matching/internal/adapters/redis/driver_repo.go:316-343 | replaces the list, unless there is nothing to store |
| MatchingService.DriverRepo.PopRideCandidate | services/matching/internal/adapters/redis/driver_repo.go:345-355 | takes the head of the list, or nothing |
| MatchingService.DriverRepo.ClearRide | services/matching/internal/adapters/redis/driver_repo.go:404-418 | removes list, active offer, count and lock together |
| MatchingService.Service.TryOnce | services/matching/internal/app/usecase/matching_service.go:299-363 | one turn of the retry loop: every branch, with its keys and calls |
| MatchingService.Service.SendNextOffer | services/matching/internal/app/usecase/matching_service.go:277-365 | the loop makes the calls, takes the candidates and leaves the keys of its specification |
| MatchingService.Service.HandleRideRequested | services/matching/internal/app/usecase/matching_service.go:123-168 | guards, lock, search, seeding, send, and the lock given back on an error |
| MatchingService.Service.SeedCandidates | services/matching/internal/app/usecase/matching_service.go:256-275 | stores the drivers found, in order |
| MatchingService.Service.HandleOfferCompletion | services/matching/internal/app/usecase/matching_service.go:242-253 | cools the driver down, and goes on only if the offer is the active one |
| MatchingService.Service.HandleOfferAccepted | services/matching/internal/app/usecase/matching_service.go:214-216 | clears the ride's keys |
| MatchingSends.SendIsExactlyOneThing | services/matching/internal/app/usecase/matching_service.go:277-365 | every return without an error is exactly one of: an offer was active; one was created and is now active; keys cleared and one cancellation; exactly as many candidates taken as retries, none created |
| MatchingSends.SendErrors | services/matching/internal/app/usecase/matching_service.go:281-325 | an error leaves the ride without a new offer, and its keys either as far as they were read or cleared with the cancellation made |
| MatchingSends.TryEnds | services/matching/internal/app/usecase/matching_service.go:299-364 | candidates are taken from the front of the list only, and no other ride is touched, however the loop ends |
| MatchingEffects.StepMarksItsDriver | services/matching/internal/app/usecase/matching_service.go:351-357 | whatever step sends an offer, its driver was then last asked at the time of marking, is no longer available, and is marked until the offer time is over or for ever |
| MatchingEffects.SendMarksItsDriver | services/matching/internal/app/usecase/matching_service.go:299-364 | a send marks the driver of the offer it created, at the time of that turn, and no other driver |
| MatchingEffects.AskedDriversAreSkipped | services/matching/internal/app/usecase/matching_service.go:323-332 | a driver is skipped without a call if and only if its mark has not expired |
| MatchingEffects.RequestLeavesLock | services/matching/internal/app/usecase/matching_service.go:138-168 | the lock after a request: held if an offer was sent, the retries ran out or the search failed; free if nobody was found, the ride was given up or the send failed; as before if refused |
| MatchingEffects.RequestIsAdmittedExactly | services/matching/internal/app/usecase/matching_service.go:124-148 | a request is refused if and only if the ride has an active offer, candidates or a lock |
| MatchingEffects.RequestWithoutOffer | services/matching/internal/app/usecase/matching_service.go:128-159 | a refused request changes nothing; one that finds nobody makes one cancellation |
| MatchingEffects.CompletionIsActedOnExactly | services/matching/internal/app/usecase/matching_service.go:245-253 | a completion is acted on if and only if its offer is the active one, which then is active no more; otherwise no call is made and no key of a ride changes |
| MatchingEffects.CompletionCoolsItsDriver | services/matching/internal/app/usecase/matching_service.go:242-244 | every delivery of a completion starts its driver's cool-down anew, and nothing else does |
| MatchingEffects.AcceptanceClearsItsRide | services/matching/internal/app/usecase/matching_service.go:214-216 | an acceptance leaves none of the ride's keys and all of the others' |
| MatchingEffects.GivingUpClearsTheRide | services/matching/internal/app/usecase/matching_service.go:304-321 | so does giving a ride up, with one cancellation |
| MatchingRuns.OffersGoInOrder | services/matching/internal/app/usecase/matching_service.go:256-365 | within one seeding the drivers offered are an in-order, duplicate-free part of the seeded list, and the stored list is what is left of it or gone, whatever keys expire |
| MatchingRuns.OffersStayWithinLimit | services/matching/internal/app/usecase/matching_service.go:312-322 | without an expiry of the counter, a ride's count is the number of offers since its keys were cleared and never exceeds MaxOffers, re-seedings included |
| MatchingRuns.OtherRidesAreUntouched | services/matching/internal/adapters/redis/driver_repo.go:404-418 | a step leaves every key of the rides it does not name |
| MatchingRuns.FoundIsDistinct | services/matching/internal/app/usecase/matching_service.go:256-275 | a seeded list names no driver twice, whatever the jitter did to its order |
| DriverExclusivity.DriverIsAskedOnceAtATime | services/matching/internal/app/usecase/matching_service.go:323-351 | over all rides, two offers to one driver are at least OfferTTLSeconds apart; if that is not positive there are never two |
| DriverExclusivity.RunKeepsBooks | services/matching/internal/adapters/redis/driver_repo.go:75-100 | a driver's key outlives each of the driver's offers |
| Redelivery.HarmlessIffNoCooldownIsSeen | services/matching/internal/app/usecase/matching_service.go:242-251 | deleting the stale decline and expiry events never changes a call or a ride's key, for all sequences, if and only if there is no cool-down or no search ever runs |
| Redelivery.StaleDeliveriesAreHarmlessWithoutRequests | services/matching/internal/app/usecase/matching_service.go:219-254 | in sequences without `ride.requested` it never does, whatever the configuration |
| Redelivery.StaleDeliveryCancelsRide | services/matching/internal/app/usecase/matching_service.go:242-244 | for every configuration with a cool-down, a late decline before a request turns its offer into a cancellation |
| OfferAdvances.OfferAdvancesRideOnce | services/matching/internal/app/usecase/matching_service.go:249-253 | in every run of both services, however often and in whatever order its outcome is delivered, an offer advances its ride at most once, and not while it is active or before it exists; CreateOffer is sent without keys |
| OfferAdvances.AdvancesAreBounded | services/matching/internal/app/usecase/matching_service.go:333-356 | with any keys, at most once for existing and once more for each time CreateOffer was answered with it from the key table |
| OfferAdvances.NewOfferIffKeyIsUnused | services/ride/internal/app/usecase/ride_service.go:326-373 | a send is answered with a new offer if and only if its key is unused; under a used key the old offer becomes active again and the database stays as it is |
| OfferAdvances.OldOutcomeAdvancesIffReplayed | services/matching/internal/app/usecase/matching_service.go:245-253 | right after a send, an event already published can advance the ride again if and only if the key was used and the outcome of the offer it answered with had been announced |
| RepeatedOutcomes.RepeatedKeyAdvancesTwice | services/matching/internal/app/usecase/matching_service.go:333-338 | for every configuration that can find a driver, a run with a repeated key in which one offer advances its ride twice |
| RepeatedOutcomes.LateDeclineCancelsAnotherRide | services/matching/internal/app/usecase/matching_service.go:242-244 | for every configuration with a cool-down and a positive offer time, a run of both services in which a second delivery of one ride's decline makes the first request of another ride cancel it instead of offering it |
| Redelivery.AdvancesWithinCreations | services/matching/internal/app/usecase/matching_service.go:249-253 | the matching service alone: an offer advances its ride at most once for each time CreateOffer was answered with it, whatever the ride service answers |
| CircuitBreaker.CircuitBreaker.BeforeRequest | services/ride/internal/adapters/grpc/circuit_breaker.go:91-121 | admission and the fields it changes, in each state |
| CircuitBreaker.CircuitBreaker.AfterRequest | services/ride/internal/adapters/grpc/circuit_breaker.go:123-154 | what a finished call does to the fields, in each state |
| CircuitBreaker.CircuitBreaker.ChangeState | services/ride/internal/adapters/grpc/circuit_breaker.go:186-207 | entering a state resets what it resets and counts the entry once |
| CircuitBreaker.CircuitBreaker.Execute | services/ride/internal/adapters/grpc/circuit_breaker.go:82-89 | one uninterrupted call |
| CircuitBreaker.CountersAgree | services/ride/internal/adapters/grpc/circuit_breaker.go:116-212 | Closed never holds counts that should trip; failures never exceed requests; the transition counters determine each other up to the present state |
| CircuitBreaker.RejectionLeavesTwoInFlight | services/ride/internal/adapters/grpc/circuit_breaker.go:91-121 | when a call is rejected in HalfOpen at least two calls of this epoch are still running |
| CircuitBreaker.EpochAdmitsAtMostQuotaPlusProbe | services/ride/internal/adapters/grpc/circuit_breaker.go:102-113 | one half-open epoch admits at most max(MaxRequests, 1) + 1 calls |
| CircuitBreaker.NothingAdmittedBeforeTimeout | services/ride/internal/adapters/grpc/circuit_breaker.go:156-173 | after each entry to Open at t nothing is admitted before t + Timeout, or ever if Timeout is not positive |
| CircuitBreaker.RunsKeepInvariant | services/ride/internal/adapters/grpc/circuit_breaker.go:91-212 | both invariants hold after every run of overlapping calls |
| BreakerRuns.OpensExactly | services/ride/internal/adapters/grpc/circuit_breaker.go:123-184 | a call that ends in Closed opens the breaker if and only if a ratio is set, at least max(1, MinRequests) calls are counted, and the failures reach the ratio; every such call is counted |
| BreakerRuns.HalfOpenDecides | services/ride/internal/adapters/grpc/circuit_breaker.go:135-147 | in HalfOpen a failure reopens from now on, and the max(1, MaxRequests)-th success closes with all counts at zero |
| BreakerRuns.AdmitsExactly | services/ride/internal/adapters/grpc/circuit_breaker.go:91-121 | who is let through in each state, and when the counting interval starts over |
| BreakerRuns.SuccessesNeverOpen | services/ride/internal/adapters/grpc/circuit_breaker.go:148-153 | a run in which no call fails never leaves Closed |
| BreakerRuns.FailuresInARowOpen | services/ride/internal/adapters/grpc/circuit_breaker.go:148-184 | from the start, with a ratio of at most one and no interval, failures in a row open the breaker exactly when they are max(1, MinRequests) |
| BreakerRuns.SuccessesInARowClose | services/ride/internal/adapters/grpc/circuit_breaker.go:96-147 | once the timeout has passed, successes in a row close an open breaker exactly when they are max(1, MaxRequests) |
| BreakerRuns.StatisticsCountWhatHappened | services/ride/internal/adapters/grpc/circuit_breaker.go:186-207 | the statistics count the entries into each state and the rejected calls of the run |
| EventId.ParseFormat | services/notify/internal/app/hub.go:217-223 | every identifier the hub writes is read back as itself |
| EventId.FormatParse | services/notify/internal/app/hub.go:217-223 | without superfluous zeros, parsing accepts exactly what formatting produces below 2^64, and is its inverse |
| EventId.FormatIsDecimal | services/notify/internal/app/hub.go:221-223 | the notation is decimal, digit by digit |
| EventId.ParseTakesDigitsOnly | services/notify/internal/app/hub.go:217-219 | anything but a string of decimal digits is refused |
| NotifyHub.Hub.SubscribeWithReplay | services/notify/internal/app/hub.go:67-89 | the new channel holds the wanted part of the history, cut off where the buffer is full |
| NotifyHub.Subscriber.Refill | services/notify/internal/app/hub.go:72-87 | the replay loop fills the channel with exactly that |
| NotifyHub.Hub.Unsubscribe | services/notify/internal/app/hub.go:91-98 | closes and forgets the channel, and touches no other |
| NotifyHub.Hub.NextID | services/notify/internal/app/hub.go:169-174 | counts up, wrapping at 2^64 |
| NotifyHub.Hub.AppendHistory | services/notify/internal/app/hub.go:176-186 | appends and keeps the last historySize |
| NotifyHub.Hub.FanOut | services/notify/internal/app/hub.go:104-120 | offers the notification once to every matching channel and to no other, in whatever order; the counts are those with and without room |
| NotifyHub.Hub.Broadcast | services/notify/internal/app/hub.go:100-121 | number, append and fan-out together |
| NotifyHub.VisitDelivers | services/notify/internal/app/hub.go:108-119 | the order in which channels are visited does not matter to what they hold |
| NotifyHub.VisitCountsSent | services/notify/internal/app/hub.go:106-119 | nor to how many took it: exactly the matching channels with room |
| NotifyHub.RememberLastN | services/notify/internal/app/hub.go:176-186 | remembering keeps the last entries of the whole log |
| HubRuns.HistoryIsTheTail | services/notify/internal/app/hub.go:169-186 | the history is exactly the last min(historySize, total) notifications, numbered without a gap up to lastID |
| HubRuns.ResumeIsExact | services/notify/internal/app/hub.go:67-121 | a client whose last event the history still reaches, and whose buffer never filled, received exactly the matching notifications with a greater identifier, live ones included |
| HubRuns.ReceivedFromStart | services/notify/internal/app/hub.go:67-121 | every client that lost nothing received every matching broadcast from its starting position on, in order |
| HubRuns.ReceivedInOrder | services/notify/internal/app/hub.go:67-121 | identifiers reach a client in strictly increasing order |
| HubRuns.ResumeIsExactIffGapIsSilent | services/notify/internal/app/hub.go:67-89 | for any Last-Event-ID, resumption is exact if and only if no broadcast in the evicted or not yet issued stretch matches |
| HubRuns.ResumptionIsExactIffCovered | services/notify/internal/app/hub.go:67-89 | decided when the client subscribes: with identifier k after j broadcasts, resumption is exact for every filter, past and lossless future if and only if k <= j <= k + historySize |
| HubRuns.RestartBreaksResume | services/notify/internal/app/hub.go:72-87 | a client that returns after a restart with an old identifier gets an event numbered below it |
| HubFilters.ReceivesWhatItAskedFor | services/notify/internal/app/hub.go:123-143 | a client that lost nothing received, of what was broadcast from its start on, exactly what names the driver, the rider or the ride of its filters, in order; without filters everything |
| HubFilters.OneFilterReceivesOneField | services/notify/cmd/notify/serve.go:99-106 | a driver's client receives exactly the notifications with the driver's `driver_id`, a rider's those with its `rider_id`, one that follows a ride those with its `ride_id` |
| HubFilters.ReturnsToWhatItAskedFor | services/notify/internal/app/hub.go:67-89 | a client that returns in time with identifier k received exactly what names it among the notifications after k |
| HubFilters.ReceivedOnlyGrows | services/notify/internal/app/hub.go:112-118 | what a client received stays; a notification that meets a full buffer is the one dropped, and nothing else is |
| HubFilters.BuffersStayBounded | services/notify/internal/app/hub.go:70-71 | no channel ever holds more than its buffer |
| HubInterleaving.NothingFallsBetween | services/notify/internal/app/hub.go:100-121 | once a broadcast has fanned out, every matching registered client has it, or lost it to a full buffer, or it was evicted before the client joined, or the client asked for no replay of it |
| HubInterleaving.ReceivedExactly | services/notify/internal/app/hub.go:67-121 | a client that lost nothing to a full buffer has a broadcast live exactly if it matches and had not been fanned out when the client joined, and as replay exactly if the history then held it, it matches and its number is above the client's |
| HubReconnect.ReturnLosesWhatWasOvertaken | services/notify/internal/app/hub.go:67-121 | a client that returns with the number of an event it had, nothing evicted or dropped, has lost a matching broadcast if and only if that was fanned out while it was away under a smaller number |
| HubReconnect.OvertakenEventIsLost | services/notify/cmd/notify/serve.go:177-194 | and that happens: event 2 is fanned out before event 1, the client reads it, leaves, and returns too late for event 1 |
| HubInterleaving.AtMostTwice | services/notify/internal/app/hub.go:67-121 | each notification enters a channel at most twice |
| HubInterleaving.TwiceIsReachable | services/notify/internal/app/hub.go:100-104 | and twice does happen: a client that joins between append and fan-out |
| HubInterleaving.NeverPanics | services/notify/internal/app/hub.go:91-121 | no interleaving sends on a closed channel or closes one twice |
| HubInterleaving.RunKeepsInvariant | services/notify/internal/app/hub.go:67-186 | the books of numbers, history, registrations, replays and visits agree after every run |
| Sessions.Service.Register | services/user/internal/app/usecase/service.go:69-131 | the checks in their order, the new user and its first token |
| Sessions.Service.Login | services/user/internal/app/usecase/service.go:133-168 | lock, comparison, counting, session limit, one session per device, new token |
| Sessions.Service.Refresh | services/user/internal/app/usecase/service.go:170-198 | rotation, and what a suspect token sets off |
| Sessions.Service.Logout | services/user/internal/app/usecase/service.go:207-220 | revokes exactly the presented token, if usable on that device |
| Sessions.Service.LogoutAll | services/user/internal/app/usecase/service.go:222-227 | revokes every token of the user and no other |
| Sessions.Service.IssueTokens | services/user/internal/app/usecase/service.go:257-293 | one new unrevoked token with the configured life, or none |
| Sessions.Repo.CreateRefreshToken | services/user/migrations/20260208000500_add_device_sessions.sql:8-10 | refused if the device has an unrevoked token |
| Sessions.Repo.RevokeOldestSessions | services/user/internal/adapters/db/repo.go:157-181 | the loop revokes exactly the oldest sessions beyond those to keep |
| Sessions.OldestLeavesYoungest | services/user/internal/adapters/db/repo.go:161-180 | min(keep, all) sessions are left, and every revoked one is as old as every one left |
| Sessions.Repo.IncrementFailedLogin | services/user/internal/adapters/db/security.go:10-27 | counts, and locks for the given time from the given failure on, or never if that is not positive |
| SessionRuns.SessionsStayWithinLimits | services/user/internal/app/usecase/service.go:157-163 | in every run each device of a user has at most one unrevoked token, and no user has more unexpired sessions than the role allows |
| SessionRuns.IndexIsNeverHit | services/user/migrations/20260208000500_add_device_sessions.sql:8-10 | in no run does the unique index on devices refuse a token |
| SessionRuns.TokensAreExchangedOnce | services/user/internal/app/usecase/service.go:170-198 | each refresh token succeeds at most once |
| SessionRuns.ReuseRevokesAll | services/user/internal/app/usecase/service.go:178-187 | presenting a revoked token, or one of another device, is refused, leaves its user without an unrevoked token and no other user changed |
| SessionRuns.ExchangedTokenEndsSessions | services/user/internal/app/usecase/service.go:178-187 | in every run a token once exchanged, presented again, ends all sessions of its user |
| SessionRuns.LoginsAreThrottled | services/user/internal/app/usecase/service.go:150-157 | from any state, within T seconds without a successful login a user sees at most 5 + T/900 failing comparisons |
| SessionRuns.FailuresWithinAllowance | services/user/internal/adapters/db/security.go:10-37 | the failures to come never exceed what the present count and lock still allow |
| SessionUse.SessionsStayWithinNumbers | services/user/internal/app/usecase/service.go:350-365 | in every run every user is a rider or a driver, with at most three or one unexpired sessions, or as many as configured |
| SessionUse.LoginWithRoomLeavesOtherDevices | services/user/internal/app/usecase/service.go:158-162 | as long as a user has fewer sessions than that, a login leaves the sessions on all other devices |
| SessionUse.LoginRevokesExactly | services/user/internal/app/usecase/service.go:158-162 | a login revokes exactly the sessions of its device and the oldest ones beyond the limit |
| SessionUse.LockedExactly | services/user/internal/adapters/db/security.go:10-37 | in every run a user is locked if and only if the last five or more compared passwords were wrong and the last came less than 15 minutes ago; the first four never lock |
| SessionUse.RegisterSucceedsExactly | services/user/internal/app/usecase/service.go:69-131 | when registration succeeds, and the user, indexes and token it leaves |
| SessionUse.RegisteredUserCanLogIn | services/user/internal/app/usecase/service.go:111-115 | right after registering, a user can log in with that password and with no other |
| SessionUse.LoginSucceedsExactly | services/user/internal/app/usecase/service.go:133-168 | a login about a user succeeds exactly with a device, outside of a lock and with the right password |
| SessionUse.LoginNeedsAUser | services/user/internal/app/usecase/service.go:140-149 | a login about nobody fails and changes nothing |
| SessionUse.RefreshSucceedsExactly | services/user/internal/app/usecase/service.go:178-197 | a refresh succeeds exactly with an unrevoked, unexpired token of that device; it revokes it, issues one in its place and leaves every other |
| SessionUse.IssuedTokenCanBeRefreshed | services/user/internal/app/usecase/service.go:257-293 | an issued token can be refreshed on its device and no other, until its life is over: as configured, or 30 days |
| SessionUse.LogoutSucceedsExactly | services/user/internal/app/usecase/service.go:207-220 | a logout succeeds exactly with a token that could be refreshed, revokes it and leaves every other |
| SessionUse.LoggedOutTokenIsDead | services/user/internal/app/usecase/service.go:207-220 | a token logged out is refreshed on no device any more |
| SessionUse.LogoutAllRevokesExactly | services/user/internal/adapters/db/repo.go:111-117 | every token of the user is revoked and no other |

## Left out

- gRPC and HTTP handlers, gateway, middleware, generated code, configuration, deployment, metrics, logging and tracing: no state of their own.
- JSON, UUIDs, bcrypt, SHA-256 and JWT signing: identifiers are fresh numbers, passwords compare equal if they are the same, a token stands for its hash, emails come in lower case.
- JetStream and the Redis client: only at-least-once delivery and the meaning of the keys are kept.
- The times to live of a ride's keys: each key may vanish at any step instead. The driver's offer and cool-down keys do carry their expiry.
- Breaker callbacks: OnStateChange runs with the mutex held, and the one at services/ride/cmd/ride/serve.go:70-82 takes the same mutex; the model has none. Wrap-around of the breaker's 32-bit counters is not modelled.
- Floating point: distances, radii and ratios are real numbers.
- computeBackoff and the jitter sleeps: a turn of the retry loop may take any time.
- ListExpired: which offers a sweep lists, in which order and how many, is its input.
- Subscribe without replay, Count, KeepAlive and WriteSSE of the hub; MarkEmailVerified, verification codes and profiles of the user service.
- Location service, rate limiters, the user client's retries, the driver status index, the outbox replayer (not wired), idempotency-key cleanup.
- RideService.Service.WithIdempotency: one request at a time; what happens between its steps is in RideTransactions, where a worker's or request's crash at any point is the step Fail.
- Outbox.OutboxWorker.Drain: the broker's answers and the time of each are inputs; claiming, crashing and failing writes are steps of OutboxWorkers.
- Sessions.Service.Login: the listing of a user's sessions is an input that must be what the query returns, so that sessions of the same age may be revoked in any order.
- MatchingService.Service.HandleRideRequested: decoding of the event is left out; it starts with the ride and the positions around its pickup point.
- DriverExclusivity.DriverIsAskedOnceAtATime: handlers of different rides do not interleave, so a driver marked between another handler's check and its mark is not modelled.
