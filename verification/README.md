# Verified model of the listmonk-ops core

This project models the parts of listmonk-ops whose correctness is hard to see from any one function, and proves what
they promise over all inputs, all runs and all reachable states.

- **Outbound webhook outbox** (`Outbox`, `OutboxRuns`, `OutboxRows`, `OutboxAttempts`, `OutboxRepository`). Each SQL
  transaction is one step on a map of deliveries and a map of endpoints; a run is any interleaving of any workers and
  operators. The repository class has the loops of the source and is proved to take exactly those steps.
- **Crash-safe A/B test creation** (`ListmonkRemote`, `Provisioning`, `Segmentation`, `CreateOperation`). Any request
  and any store write may be refused, lose its answer, or be the last thing its process does. The remote keeps a history
  of all its states, so uniqueness is stated for every moment of every run.
- **Experiment collision store** (`Collision`, `CollisionEffects`, `CollisionStore`). A list of participations under
  reserve, expose and release operations, checked through an index.
- **Apportionment and assignment** (`Sorting`, `Apportionment`, `Allocation`, `QuotaMatrix`, `QuotaProgress`,
  `ColumnCorrection`, `Stratification`, `QuotaPadding`, `QuotaExamples`, `QuotaFloors`, `StoredStratification`,
  `Assignment`, `Manifest`, `Audience`). Quotas are exact reals; SHA-256 is any function from strings to strings.
- **Holm correction** (`Holm`), **stopping a test** (`Lifecycle`), against a server that moves campaigns by itself between
  any two requests, and the status writes of **winner deployment** (`WinnerDeployment`).
- **Transactional data check** (`DataValidator`, `DataMeaning`). The explicit-stack walk over a possibly cyclic object
  graph, proved against finite tree unfoldings, and what those mean for the properties and items of an object.

Check everything with `dafny verify dfyconfig.toml`.

Four natural claims are false of the code; each comes with an input on which it fails and the exact condition under
which it holds. Attempt counts stay within the maximum over a run iff no step claims a row whose attempts are used up or
lowers a limit below a counter (`OutboxAttempts`). On inputs whose cell keys do not clash the quota solver succeeds on
all of a shape iff the shape is `Convergent`, and returns only cells at floor or ceiling iff it is `Steady`
(`ColumnCorrection`, `QuotaExamples`, `QuotaFloors`). Campaign mappings follow variant order iff the adopted variants
come first (`Provisioning`). A terminal test status survives every outcome of a winner deployment iff a guard refuses
the deployment, or, in the store, the status is completed already (`WinnerDeployment`). The source comment that bounds
the swap loop by strata times groups is proved; the cap the code actually uses is larger and never binds.

## Model

| member | source | states |
|---|---|---|
| `OutboxRuns.ValidPreserved` | packages/automation/src/outbound-webhook-postgres.ts:536-1165 | Every transaction keeps the table invariants: delivering iff leased, terminal iff completed, unique (event, endpoint) pairs, unique tokens. |
| `OutboxRuns.RowChange` | packages/automation/src/outbound-webhook-postgres.ts:536-1165 | A row that exists after a transaction is unchanged, freshly enqueued, freshly leased, or released; a delivering row is released only by its completion, by reconciliation of an expired lease, or by deletion of its endpoint. |
| `OutboxRuns.ReachableTables` | packages/automation/src/outbound-webhook-postgres.ts:571-660 | In every state of every run: delivering iff token and expiry are set, terminal iff completed_at is set, and no two rows share event and endpoint. |
| `OutboxRuns.LeaseFencing` | packages/automation/src/outbound-webhook-postgres.ts:979-1034 | Over every run: a completion that presents the token of an earlier claim and succeeds is for the claimed row, and no step in between changed that row. |
| `OutboxRuns.ClaimCompletesOnce` | packages/automation/src/outbound-webhook-postgres.ts:1005-1034 | Two completions presenting the token of one claim cannot both succeed. |
| `OutboxRuns.LeaseSpacing` | packages/automation/src/outbound-webhook-postgres.ts:904-946 | With a monotone clock, two claims of one delivery with no successful completion between them are at least leaseMs apart, whatever reclaim, reconciliation, retry or replay happened meanwhile. |
| `OutboxRuns.PruneIdempotent` | packages/automation/src/outbound-webhook-postgres.ts:1167-1216 | Echoing the same ids and cutoff after any steps not earlier than the cutoff selects nothing and changes nothing. |
| `OutboxRuns.FutureCutoffPrunesAgain` | packages/automation/src/outbound-webhook-postgres.ts:1167-1216 | For every cutoff and every earlier time, a run in which the echoed prune deletes a row that was settled at that time. |
| `OutboxRuns.EchoCondition` | packages/automation/src/outbound-webhook-postgres.ts:1167-1216 | After a step at some time the echo of a prune can delete something iff the cutoff lies after that time. |
| `OutboxRuns.ActiveRowsSurvive` | packages/automation/src/outbound-webhook-postgres.ts:571-660 | A row that a transaction removes was terminal, and was removed by eviction or by a prune that listed it. |
| `OutboxRuns.SucceededFrozen` | packages/automation/src/outbound-webhook-postgres.ts:714-1165 | A succeeded row never changes in any run; it can only disappear, and then its id never returns. |
| `OutboxRuns.EnqueueWithinLimit` | packages/automation/src/outbound-webhook-postgres.ts:629-651 | An enqueue changes nothing or leaves at most the limit of rows. |
| `OutboxRuns.EnqueueKeepsAndQueues` | packages/automation/src/outbound-webhook-postgres.ts:571-660 | A committed enqueue keeps every active row as it was and leaves a fresh row for every target whose pair was not taken before. |
| `OutboxRuns.CapacityBound` | packages/automation/src/outbound-webhook-postgres.ts:571-660 | For a fixed limit the table never exceeds it in any run. |
| `OutboxRuns.EndpointStep` | packages/automation/src/outbound-webhook-postgres.ts:1035-1071 | What each transaction does to the failure counter, and that it keeps the circuit sound when it does not move the threshold. |
| `OutboxRuns.CircuitTracksFailures` | packages/automation/src/outbound-webhook-postgres.ts:1035-1071 | The stored counter equals the failures counted since the last success or reset, and between threshold changes the circuit is open iff that number has reached the threshold. |
| `OutboxRuns.ThresholdMove` | packages/automation/src/outbound-webhook-postgres.ts:482-534 | Changing the threshold keeps open-iff-reached exactly when the counter is on the same side of the old and the new one. |
| `OutboxRuns.CircuitHolds` | packages/automation/src/outbound-webhook-postgres.ts:894-926 | After a failure opens a circuit, and until a success, reset, deletion or update, no claim that respects the breaker takes a delivery of that endpoint before the cooldown has passed. |
| `OutboxAttempts.CountStep` | packages/automation/src/outbound-webhook-postgres.ts:482-1165 | A transaction keeps attempt_count <= max_attempts for every row of a registered endpoint iff it neither claims a row whose attempts are used up nor lowers a limit below a counter. |
| `OutboxAttempts.CountsThroughout` | packages/automation/src/outbound-webhook-postgres.ts:482-1165 | Over every run the bound holds in every state iff no step is one of the two. |
| `OutboxAttempts.ReclaimExceeds` | packages/automation/src/outbound-webhook-postgres.ts:904-945 | A run that exceeds the bound: a row with one attempt allowed is claimed, not completed, and claimed again when the lease has expired. |
| `OutboxAttempts.LimitStep` | packages/automation/src/outbound-webhook-postgres.ts:904-1071 | A transaction also leaves every waiting row an attempt iff it does not claim a row at its limit, leave a row no room under a new limit, or retry a row at its limit by an outdated one. |
| `OutboxAttempts.LimitsThroughout` | packages/automation/src/outbound-webhook-postgres.ts:904-1071 | Over every run the first row over its limit, or waiting at it, appears exactly with the first such step. |
| `OutboxAttempts.FaithfulWorker` | packages/automation/src/outbound-webhook-postgres.ts:979-1000 | A worker that completes what it claimed, by the limit stored now, never leaves a row waiting at its limit. |
| `OutboxRows.CompletionEffect` | packages/automation/src/outbound-webhook-postgres.ts:979-1034 | A completion under the lease it owns leaves the row succeeded iff it reports success, waiting for a retry after the backoff iff it reports a retryable failure with attempts left in the view, and exhausted otherwise, with the reported code and error, and changes no other row; without the lease it changes nothing. |
| `OutboxRows.BackoffDoubles` | packages/automation/src/outbound-webhooks.ts:1867-1875 | The delay before a retry is the base at first, doubles with every attempt, and is at most an hour. |
| `OutboxRows.SnapshotDecision` | packages/automation/src/outbound-webhook-postgres.ts:979-1034 | Over every run: a worker that completes what it claimed settles the row, in each of the three ways, by the counter stored at that moment. |
| `OutboxRows.ReconcileEffect` | packages/automation/src/outbound-webhook-postgres.ts:1076-1165 | Reconciliation takes the lease from exactly the scanned rows whose lease is over; such a row is due at once iff its endpoint is registered, enabled and allows another attempt, and exhausted otherwise. |
| `OutboxRows.RetryEffect` | packages/automation/src/outbound-webhook-postgres.ts:819-881 | A manual retry starts exactly a retry or exhausted row of an enabled endpoint over: no attempts, one more manual retry, due at once. |
| `OutboxRows.ReplayEffect` | packages/automation/src/outbound-webhook-postgres.ts:714-817 | A replay starts exactly the chosen rows over, all of them dead letters of an enabled endpoint; a dry run changes nothing. |
| `OutboxRows.AnyDeadLetterReplays` | packages/automation/src/outbound-webhook-postgres.ts:714-817 | Every dead letter of an enabled endpoint can be chosen. |
| `OutboxRows.ClaimableExactly` | packages/automation/src/outbound-webhook-postgres.ts:895-926 | A claim can take a row iff it is waiting and due or its lease is over, its endpoint is registered, and the circuit is closed, cooled down or bypassed. |
| `OutboxRows.ClaimEffect` | packages/automation/src/outbound-webhook-postgres.ts:927-956 | A claim leases exactly its rows, each under its own token until now plus leaseMs, and counts the attempt. |
| `OutboxRows.EnqueueEffect` | packages/automation/src/outbound-webhook-postgres.ts:571-627 | A row after an enqueue is an old one, or untried, due at once, for a listed target. |
| `OutboxRows.EnqueueFits` | packages/automation/src/outbound-webhook-postgres.ts:571-660 | An enqueue is refused, and changes nothing, iff the unsettled rows and the new ones exceed the limit; otherwise every target whose pair was free has its row. |
| `OutboxRows.EvictsOldest` | packages/automation/src/outbound-webhook-postgres.ts:629-651 | Evicted rows completed no later than any settled row that stays. |
| `OutboxRows.EvictsOnlyExcess` | packages/automation/src/outbound-webhook-postgres.ts:629-651 | When rows are evicted the table ends exactly at its limit. |
| `OutboxRows.DeleteEffect` | packages/automation/src/outbound-webhook-postgres.ts:536-569 | Deleting an endpoint settles exactly its unsettled rows as exhausted and removes that endpoint alone. |
| `OutboxRows.PruneEffect` | packages/automation/src/outbound-webhook-postgres.ts:1167-1216 | A prune of listed ids removes exactly the listed rows settled before the cutoff; a batch only such rows; a dry run none. |
| `OutboxRows.EndpointEffect` | packages/automation/src/outbound-webhook-postgres.ts:1035-1071 | Success closes the circuit, a counted failure adds one and opens it for the cooldown iff the threshold is reached, a reset closes it, an update changes the configuration only, and nothing else touches an endpoint. |
| `OutboxRows.ConfigEffect` | packages/automation/src/outbound-webhook-postgres.ts:482-534 | An accepted endpoint edit stores the configuration of that endpoint and changes nothing else; one that breaks a constraint changes nothing. |
| `OutboxRepository.InsertRows` | packages/automation/src/outbound-webhook-postgres.ts:603-627 | The insert loop computes the batch insert with its conflict rule and collects the ids of the new rows. |
| `OutboxRepository.LeaseRows` | packages/automation/src/outbound-webhook-postgres.ts:934-977 | The lease loop gives each returned row its own lease and returns the rows as stored, with their endpoints. |
| `OutboxRepository.ReconcileRows` | packages/automation/src/outbound-webhook-postgres.ts:1116-1165 | The reconcile loop updates exactly the expired rows; recovered, exhausted and untouched counts add up to the rows scanned. |
| `OutboxRepository.Repository.RemoveEndpoint` | packages/automation/src/outbound-webhook-postgres.ts:536-569 | Refines the deletion step: the endpoint goes and its active deliveries are settled as exhausted; the invariants hold. |
| `OutboxRepository.Repository.EnqueueEvent` | packages/automation/src/outbound-webhook-postgres.ts:571-660 | Refines the enqueue step, with the capacity error when eviction cannot make room. |
| `OutboxRepository.Repository.ClaimDeliveries` | packages/automation/src/outbound-webhook-postgres.ts:883-977 | Refines the claim step and returns each claimed row as stored, with its registered endpoint. |
| `OutboxRepository.Repository.CompleteDelivery` | packages/automation/src/outbound-webhook-postgres.ts:979-1074 | Refines the completion step; it succeeds iff the row is delivering under the presented token, and then returns the stored row: succeeded iff the report is a success, else waiting for another attempt or exhausted as the counter and the limit say; otherwise it reports a lease conflict and changes nothing. |
| `OutboxRepository.Repository.ReconcileLeases` | packages/automation/src/outbound-webhook-postgres.ts:1076-1165 | Refines the reconcile step, or changes nothing on a dry run. |
| `OutboxRepository.Repository.RetryOne` | packages/automation/src/outbound-webhook-postgres.ts:819-881 | Refines the manual retry step with its not-found, disabled-endpoint and wrong-state answers. |
| `OutboxRepository.Repository.ReplayDeadLetters` | packages/automation/src/outbound-webhook-postgres.ts:714-817 | Refines the replay step; the ids and errors of the result are exhausted deliveries that pass both filters, all of them below the limit; counts agree; the failing rows have no enabled endpoint and stay dead letters. |
| `OutboxRepository.Repository.PruneDeliveries` | packages/automation/src/outbound-webhook-postgres.ts:1167-1216 | Refines the prune step, exact set or bounded batch. |
| `OutboxRepository.Repository.ResetEndpointCircuit` | packages/automation/src/outbound-webhook-postgres.ts:1423-1468 | Refines the reset step; the returned endpoint is the stored one. |
| `ListmonkRemote.AddCampaignKeepsSane` | packages/abtest/src/listmonk-integration.ts:216-264 | A new campaign for a variant that has none keeps the resources of the test unique. |
| `ListmonkRemote.AddListKeepsSane` | packages/abtest/src/listmonk-integration.ts:441-535 | A new list for a role that has none keeps the resources of the test unique. |
| `ListmonkRemote.Listmonk.UpdateCampaign` | packages/abtest/src/listmonk-integration.ts:1074-1091 | An update puts the campaign on one list for one time and keeps its status, or fails, whatever befalls the request; resources stay unique. |
| `ListmonkRemote.Listmonk.ScheduleCampaign` | packages/abtest/src/listmonk-integration.ts:1093-1104 | A status request schedules the campaign as it is planned, or fails. |
| `Provisioning.AdoptionUnambiguous` | packages/abtest/src/abtest-service.ts:466-487 | With unique tags each variant matches at most one campaign, and that campaign carries no other variant. |
| `Provisioning.CreateTestCampaigns` | packages/abtest/src/listmonk-integration.ts:216-264 | Creates one tagged campaign per listed variant; whatever fails, and whatever best-effort deletes leave behind, uniqueness held at every moment. |
| `Provisioning.AdoptCampaigns` | packages/abtest/src/abtest-service.ts:466-487 | The adoption loop maps each variant with a tagged campaign one to one, and throws only when tags are confused. |
| `Provisioning.CampaignTagsClear` | packages/abtest/src/abtest-service.ts:466-487 | Unique tags leave the adoption loop nothing to throw about. |
| `Provisioning.MergedMappings` | packages/abtest/src/abtest-service.ts:488-506 | Adopted and created mappings together pair the variants one to one with their tagged campaigns. |
| `Provisioning.ProvisionCampaigns` | packages/abtest/src/abtest-service.ts:452-507 | The campaign phase ends with a complete one-to-one mapping onto existing campaigns, adopted variants first, changes no other field, and never makes a second campaign for a variant. |
| `Provisioning.OrderKept` | packages/abtest/src/abtest-service.ts:466-505 | The mappings follow the order of the variants iff the adopted variants come first in it. |
| `Provisioning.OrderBreaks` | packages/abtest/src/abtest-service.ts:466-505 | With a campaign left for the second of two variants only, they do not, and the mapping comes out in the opposite order. |
| `Provisioning.VariantNamesApart` | packages/abtest/src/abtest-service.ts:305-310 | A variant id tells its position and its test. |
| `Segmentation.ManageBulk` | packages/abtest/src/listmonk-integration.ts:1200-1302 | After the chunked loop exactly the listed subscribers have been added or removed. |
| `Segmentation.ReconcileMembership` | packages/abtest/src/listmonk-integration.ts:1230-1253 | An adopted list ends with exactly the expected members. |
| `Segmentation.EnsureList` | packages/abtest/src/listmonk-integration.ts:441-535 | The list of a role is adopted and reconciled, or created and filled, and no other resource changes. |
| `Segmentation.ListTagsClear` | packages/abtest/src/listmonk-integration.ts:365-437 | Unique lists leave the adoption checks nothing to throw about. |
| `Segmentation.SegmentForHoldout` | packages/abtest/src/listmonk-integration.ts:275-632 | On success every variant list and the holdout list hold exactly their slices; uniqueness held at every moment whatever failed. |
| `CreateOperation.LogExtends` | packages/abtest/src/persistence.ts:798-842 | Each committed record fixes what every later one says about seed, window, mappings and completion. |
| `CreateOperation.Operation.Commit` | packages/abtest/src/persistence.ts:798-842 | A committed write replaces the record or leaves it; it never loses what was committed. |
| `CreateOperation.Operation.RecordIntent` | packages/abtest/src/abtest-service.ts:151-377 | The intent is recorded once per key, with nothing but the request and its variants; a request with another fingerprint under the key, or a new one that fails its checks, is refused without a trace, and nothing else is. |
| `CreateOperation.Operation.CampaignPhase` | packages/abtest/src/abtest-service.ts:452-507 | The campaign phase keeps the operation invariant under any fault and changes nothing in the record but the mapping. |
| `CreateOperation.Operation.SeedPhase` | packages/abtest/src/abtest-service.ts:514-524 | The seed is stamped once and never changed, and nothing else is. |
| `CreateOperation.Operation.Split` | packages/abtest/src/listmonk-integration.ts:308-360 | The audience is resolved and split exactly when its pages can be read, identities agree and the weights are positive; manifest and slices are those of the committed seed. |
| `CreateOperation.Operation.SegmentationPhase` | packages/abtest/src/abtest-service.ts:555-611 | The split is taken under the committed seed; when the phase commits, the record has its manifest and the lists hold exactly its slices. |
| `CreateOperation.Operation.SlicesDisjoint` | packages/abtest/src/abtest-service.ts:555-611 | No subscriber is in two of the recorded slices. |
| `CreateOperation.Operation.NobodyOnTwoLists` | packages/abtest/src/abtest-service.ts:555-611 | So the remote lists of the variants and the holdout have no member in common. |
| `CreateOperation.Operation.SplitMeans` | packages/abtest/src/abtest-service.ts:555-611 | The recorded manifest names the variants in order and then the holdout, every list has the length the manifest gives, and the variants together have the requested share of the audience, a tenth by default, rounded half up. |
| `CreateOperation.Operation.WindowPhase` | packages/abtest/src/abtest-service.ts:532-547 | The auto-launch window is stamped once, before any scheduling request: the requested one, else a minute from now, and only for an auto-launch. |
| `CreateOperation.PutOnList` | packages/abtest/src/listmonk-integration.ts:1074-1104 | The two requests for one campaign: when both succeed it is scheduled on that list at that time; whatever fails, nothing else of the remote changes. |
| `CreateOperation.Operation.ScheduleAll` | packages/abtest/src/listmonk-integration.ts:1046-1106 | The launch loop: when it ends normally every campaign is scheduled on the list of its own variant for the one window; it throws only for a failed request or a variant without a list; nothing but plans changes. |
| `CreateOperation.Operation.FinalPhase` | packages/abtest/src/abtest-service.ts:390-442 | Finalization schedules if asked to and marks the record provisioned; a provisioned auto-launch record has every mapped campaign scheduled on the list of its own variant at the recorded window. |
| `CreateOperation.Operation.Step` | packages/abtest/src/operations.ts:597-653 | One phase of one attempt, with any fault, keeps the operation invariant and only appends to the committed log. |
| `CreateOperation.Operation.Run` | packages/abtest/src/operations.ts:597-653 | Over every run of interleaved attempts with crashes, lost answers and failed deletes: at every moment at most one campaign per variant, one list per variant and one holdout list; a finished create has one-to-one mappings, lists with exactly the slices of the persisted manifest and no common member, and, for an auto-launch, every campaign scheduled on its own list at the recorded window; campaigns are planned only for an auto-launch and only for that window; committed seed, manifest and window never change. |
| `CreateOperation.Operation.Recover` | packages/abtest/src/operations.ts:597-653 | From whatever a run left behind, one fault-free attempt with an admissible request and a readable audience completes the create, launch included. |
| `Collision.OverlapMeansSharedInstant` | packages/abtest/src/collision.ts:209-218 | Two closed windows overlap iff some instant lies in both. |
| `Collision.ReserveKeepsBound` | packages/abtest/src/collision.ts:432-557 | A reservation in block or exclude mode keeps at most k tests per subject, family and instant. |
| `Collision.StepKeepsBound` | packages/abtest/src/collision.ts:432-639 | So does every operation of the store. |
| `Collision.ConcurrencyBound` | packages/abtest/src/collision.ts:432-639 | Over every run of block or exclude reservations with limits of at most k, exposures and releases, at every instant each subject is held by at most k tests of one family. |
| `Collision.CrowdExceeds` | packages/abtest/src/collision.ts:475-540 | A policy that warns only, or whose limit exceeds k, lets k + 1 acceptable requests hold one subject at one instant. |
| `Collision.PolicyBound` | packages/abtest/src/collision.ts:432-639 | All runs under a policy keep at most k tests per subject, family and instant iff it blocks or excludes with a limit of at most k, or has a limit that no request may have. |
| `Collision.RefusalRestores` | packages/abtest/src/collision.ts:512-523 | A refused reservation leaves the same participations as before it. |
| `Collision.ExcludeIsExact` | packages/abtest/src/collision.ts:525-540 | Exclude mode reserves a requested subject iff it is below its limit. |
| `Collision.HistoryKept` | packages/abtest/src/collision.ts:560-639 | Released participations are kept, and exposed ones stay until their window has ended. |
| `CollisionStore.BuildIndex` | packages/abtest/src/collision.ts:461-473 | The index holds exactly the active participations of other tests under their key. |
| `CollisionStore.IndexFindsRivals` | packages/abtest/src/collision.ts:482-495 | Looking up the index and rechecking finds exactly the colliding tests, shared keys included. |
| `CollisionStore.CheckSubjects` | packages/abtest/src/collision.ts:475-508 | The check loop counts the contested subjects and collects the rivals and the blocked subjects. |
| `CollisionStore.ParticipationStore.StoreBound` | packages/abtest/src/collision.ts:318-557 | The store itself keeps the bound while every request made to it blocks or excludes at most at k. |
| `CollisionStore.ParticipationStore.StoreKeepsHistory` | packages/abtest/src/collision.ts:560-639 | Through any operations of the store a released participation stays, and an exposed one until its window has ended. |
| `CollisionEffects.StoredWellFormed` | packages/abtest/src/collision.ts:336-432 | Every participation that a run leaves has a test, a window that is not empty, a family key and a subject key. |
| `CollisionEffects.RivalsAreOthers` | packages/abtest/src/collision.ts:475-508 | The rivals that the check counts are exactly the other tests that hold the subject at some instant of the window. |
| `CollisionEffects.RefusedWhenCrowded` | packages/abtest/src/collision.ts:512-523 | A block request is refused iff some subject asked for has as many of those as the limit. |
| `CollisionEffects.ReserveEffect` | packages/abtest/src/collision.ts:432-557 | After any run: an accepted request leaves every participation as often as before, except that, unless it is refused, the plain reservations of its test give way to exactly one per subject asked for, without the crowded ones in exclude mode. |
| `CollisionEffects.ExposeEffect` | packages/abtest/src/collision.ts:560-574 | After an exposure the test has no plain reservation left, its reserved participations are exposed at that time, and nobody holds more or less. |
| `CollisionEffects.ReleasePassedEffect` | packages/abtest/src/collision.ts:576-603 | A release of passed windows leaves no active one that ended and changes no hold from then on. |
| `CollisionEffects.ReleaseTestEffect` | packages/abtest/src/collision.ts:609-639 | A cancellation leaves the test only exposures still inside their window, and other tests all they had. |
| `CollisionStore.ParticipationStore.CheckAndReserve` | packages/abtest/src/collision.ts:336-557 | Block mode is all or nothing: a conflict, with nothing changed, iff some subject asked for is held by as many others as the limit; a granted request has its reservation for every subject, crowded ones excepted in exclude mode and reported in warn mode; conflict counts and tests are those of the other holders. |
| `CollisionStore.ParticipationStore.MarkExposed` | packages/abtest/src/collision.ts:560-574 | The loop makes exactly the reserved participations of the test exposed. |
| `CollisionStore.ParticipationStore.ReleaseEligible` | packages/abtest/src/collision.ts:576-603 | Exactly the participations whose window has passed are released, and counted. |
| `CollisionStore.ParticipationStore.ReleaseByTest` | packages/abtest/src/collision.ts:609-639 | Exactly the cancellable participations of the test are released, and counted. |
| `Apportionment.GiveSeats` | packages/abtest/src/allocation.ts:121-128 | The seat loop gives one seat to each index in priority order until none is left, and conserves the total. |
| `Apportionment.GiveByRemainder` | packages/abtest/src/stratification.ts:221-248 | Seats by remainder for the entries of a group order, repeated groups included: floors are kept, the target is met when the ideals add up to it, and single entries give the largest-remainder apportionment. |
| `Apportionment.LargestRemainder` | packages/abtest/src/allocation.ts:95-128 | Floors plus one seat by largest remainder: no seat skips an index with priority. |
| `Apportionment.SeatsExhausted` | packages/abtest/src/allocation.ts:100-141 | When quotas add up to the target no seat is left over or missing, so the invariant errors are unreachable. |
| `Apportionment.QuotaRule` | packages/abtest/src/allocation.ts:95-128 | Every count is the floor or the ceiling of its quota. |
| `Apportionment.LargerQuotaNoFewer` | packages/abtest/src/allocation.ts:95-128 | A larger quota never gets fewer seats. |
| `Apportionment.ApportionmentUnique` | packages/abtest/src/allocation.ts:95-128 | Quotas and total determine the result. |
| `Apportionment.LeastDeviation` | packages/abtest/src/allocation.ts:80-144 | No integer vector with the same total has a smaller sum of absolute deviations. |
| `Allocation.AllocateByLargestRemainder` | packages/abtest/src/allocation.ts:80-144 | Succeeds exactly on valid input, sums to the total, and returns the largest-remainder apportionment of the exact quotas. |
| `Allocation.AllocationPromises` | packages/abtest/src/allocation.ts:80-144 | For any result: quota rule, heavier weights get no fewer seats, least total deviation. |
| `Allocation.PairRounding` | packages/abtest/src/allocation.ts:153-187 | Two quotas with an integer sum: the first is rounded half up. |
| `Allocation.AllocateTestAndHoldout` | packages/abtest/src/allocation.ts:153-187 | Test and holdout add up to the audience and the test size is its share rounded half up; errors exactly on invalid input. |
| `QuotaMatrix.FindBestSwap` | packages/abtest/src/stratification.ts:303-357 | The triple scan finds the first best feasible swap, or none exactly when none is feasible. |
| `QuotaMatrix.ScoreIsGain` | packages/abtest/src/stratification.ts:338-345 | A swap changes the sum of squared deviations from the ideals by two less twice its score. |
| `QuotaMatrix.BestIsLeast` | packages/abtest/src/stratification.ts:303-357 | The swap found keeps the floor of its donor if any feasible one does, and of that kind leaves the least sum of squared deviations, the first in scan order on a tie; and it is the only one that does. |
| `QuotaMatrix.PathUnique` | packages/abtest/src/stratification.ts:303-369 | The matrix to start from determines the whole correction. |
| `QuotaMatrix.SwapEffect` | packages/abtest/src/stratification.ts:359-368 | A swap keeps row sums and lowers the seats lacking by exactly one. |
| `QuotaMatrix.SwapBounds` | packages/abtest/src/stratification.ts:327-345 | A swap keeps cells non-negative and below their ceilings, and above their floors if it is bounded. |
| `QuotaProgress.TwoColumnsSwap` | packages/abtest/src/stratification.ts:327-345 | With two columns an unresolved deficit always leaves a swap that respects floor and ceiling. |
| `QuotaProgress.FewRowsSwap` | packages/abtest/src/stratification.ts:327-345 | So do at most three rows, from any matrix at floor or ceiling. |
| `QuotaProgress.TwoSurplusesSwap` | packages/abtest/src/stratification.ts:327-345 | With three columns, two of them in surplus, and at most six rows, one of them has such a swap. |
| `QuotaProgress.ThreeColumnsStuck` | packages/abtest/src/stratification.ts:215-259 | A reachable matrix of three columns without such a swap has five rows: in four the largest remainders would all be halves, which proportional ideals exclude. |
| `QuotaProgress.SixRows` | packages/abtest/src/stratification.ts:215-259 | A reachable matrix of three columns without any swap has six rows. |
| `ColumnCorrection.Settled` | packages/abtest/src/stratification.ts:371-381 | On a convergent shape a matrix without a swap has no deficit left. |
| `ColumnCorrection.CorrectColumns` | packages/abtest/src/stratification.ts:269-369 | The loop ends only when no swap is feasible, after exactly the number of swaps that the lacking seats fell by, each of them the least one, never by its iteration cap; columns move one way only; convergent shapes end with every column right, steady ones also with every cell at floor or ceiling. |
| `Stratification.IdealRowSum` | packages/abtest/src/stratification.ts:221-236 | The ideals of a row add up to the stratum size. |
| `Stratification.IdealColumnSum` | packages/abtest/src/stratification.ts:221-236 | The ideals of a column add up to the group count. |
| `Stratification.StartingDeficit` | packages/abtest/src/stratification.ts:269-304 | After the row phase at most strata times groups seats are lacking. |
| `Stratification.ColonFreeSplits` | packages/abtest/src/stratification.ts:279-284 | A colon-free stratum key and the group can be read back from the concatenated key. |
| `Stratification.ReadBackExact` | packages/abtest/src/stratification.ts:279-293 | The ideal lookup returns every ideal when keys do not clash. |
| `Stratification.ApportionRows` | packages/abtest/src/stratification.ts:215-259 | Each row is the largest-remainder apportionment of its ideals and adds up to its stratum. |
| `Stratification.InjectiveIsDistinct` | packages/abtest/src/stratification.ts:279-284 | Cell keys that do not clash rule out a repeated group. |
| `Stratification.TraceUnique` | packages/abtest/src/stratification.ts:154-394 | There is only one way from the row phase by least swaps to a matrix without a swap, so an input determines the result. |
| `Stratification.ComputeStratifiedQuotas` | packages/abtest/src/stratification.ts:154-394 | Input errors as checked; success iff column sums equal group counts; row sums equal stratum sizes; with keys that do not clash, the matrix comes from the row phase by least swaps until none is left, cells are between 0 and the ceiling of the ideal, every input succeeds with at most three strata, two groups, or five strata and three groups, and cells are at floor or ceiling for at most three strata, two groups, or four strata and three groups. |
| `StoredStratification.CheckRows` | packages/abtest/src/persistence.ts:409-430 | Row check: same groups everywhere, whole non-negative quotas. |
| `StoredStratification.CheckCells` | packages/abtest/src/persistence.ts:442-479 | Cell check with its seen-set: every cell repeats a matrix entry, and no key occurs twice. |
| `StoredStratification.IsStoredStratification` | packages/abtest/src/persistence.ts:397-504 | The check answers true exactly for acceptable stored matrices. |
| `StoredStratification.AcceptedCells` | packages/abtest/src/persistence.ts:397-504 | With colon-free stratum keys every entry of an accepted matrix has exactly one cell, with its quota. |
| `StoredStratification.AcceptedRow` | packages/abtest/src/persistence.ts:397-504 | In an accepted matrix every stratum with a size has exactly one row, of whole quotas that add up to that size. |
| `StoredStratification.ComputedAccepted` | packages/abtest/src/persistence.ts:397-504 | A computed matrix is accepted iff the concatenated cell keys are distinct. |
| `StoredStratification.ColonFreeAccepted` | packages/abtest/src/persistence.ts:397-504 | Colon-free stratum keys and an order without repetition are enough for acceptance. |
| `StoredStratification.ColonClash` | packages/abtest/src/persistence.ts:475-478 | A concrete input with colons whose computed result the store refuses. |
| `StoredStratification.ComputeAndCheck` | packages/abtest/src/stratification.ts:154-394 | Solver and store check composed: what the solver returns is accepted iff cell keys do not clash, and convergent shapes with such keys are always computed and accepted. |
| `QuotaPadding.PaddedStuck` | packages/abtest/src/stratification.ts:303-357 | Empty strata and groups add no swap to a matrix without one. |
| `QuotaExamples.FailingInput` | packages/abtest/src/stratification.ts:371-381 | For every other shape than the convergent ones an accepted input on which the solver reports non-convergence, although a matrix with the right sums and every cell at floor or ceiling exists. |
| `QuotaFloors.SeatMoves` | packages/abtest/src/stratification.ts:303-369 | With one seat to move the loop cannot end before it is moved. |
| `QuotaFloors.OneSeatMoved` | packages/abtest/src/stratification.ts:303-369 | With one seat to move one swap ends the correction; it keeps the floor if any feasible one does, and no feasible one of its kind ends closer to the ideals. |
| `QuotaFloors.MoveBreaksFloor` | packages/abtest/src/stratification.ts:332-345 | When every row that can move the seat is at its floor, the corrected matrix has a cell below its floor. |
| `QuotaFloors.FloorBreakingInput` | packages/abtest/src/stratification.ts:332-345 | For every other shape than the steady ones an accepted input on which the solver returns a matrix with a cell below its floor. |
| `Holm.OrderFacts` | packages/abtest/src/statistics.ts:71-73 | The sort ranks every hypothesis once, by increasing p-value. |
| `Holm.WalkRanks` | packages/abtest/src/statistics.ts:75-94 | The walk computes the running maximum and the step-down flag of every rank. |
| `Holm.MapBack` | packages/abtest/src/statistics.ts:96-104 | Results by rank become results by original index. |
| `Holm.ClosedIsStepDown` | packages/abtest/src/statistics.ts:52-112 | Step-down rejects a hypothesis iff every subfamily that contains it has a p-value below alpha over its size. |
| `Holm.ApplyHolmCorrection` | packages/abtest/src/statistics.ts:52-112 | Flags are the closed Bonferroni test, agree with adjusted values below alpha, and adjusted values are the least rejecting level; errors exactly for alpha outside (0, 1). |
| `Holm.LargerFamilyRejectsLess` | packages/abtest/src/statistics.ts:52-112 | Enlarging a family never creates a rejection. |
| `Holm.LargerFamilyAdjustsMore` | packages/abtest/src/statistics.ts:71-104 | Adjusted values never fall when the family grows. |
| `Holm.PermutationEquivariant` | packages/abtest/src/statistics.ts:71-104 | Permuting p-values, ties included, permutes flags and adjusted values. |
| `Holm.SmallerRejectedFirst` | packages/abtest/src/statistics.ts:71-104 | A smaller p-value is rejected whenever a larger one is. |
| `Holm.AdjustedMonotone` | packages/abtest/src/statistics.ts:71-104 | Adjusted values are monotone in p. |
| `Assignment.LessWhereTheyPart` | packages/abtest/src/assignment.ts:98-119 | Of two texts that part somewhere, the smaller one ends there or has the smaller character. |
| `Assignment.DigestText` | packages/abtest/src/assignment.ts:72-79 | A digest is the hash of a text that names version, test, seed and member, and texts without NUL in the parts are equal only for equal parts. |
| `Assignment.RankedByDigest` | packages/abtest/src/assignment.ts:98-119 | Ranked members stand in the order of their digests, and of their uuids where digests agree. |
| `Assignment.RankingOrder` | packages/abtest/src/assignment.ts:98-119 | The digest-then-uuid comparator is a consistent order. |
| `Assignment.RankOrderIndependent` | packages/abtest/src/assignment.ts:98-119 | For distinct uuids the ranking is the same for every input order. |
| `Assignment.RankPermutes` | packages/abtest/src/assignment.ts:98-119 | The ranking is a rearrangement of the members. |
| `Assignment.ChecksumOrderIndependent` | packages/abtest/src/assignment.ts:84-89 | Groups with the same members share a checksum. |
| `Assignment.ChecksumIdentifies` | packages/abtest/src/assignment.ts:84-89 | Two groups hash the same text iff they have the same members. |
| `Assignment.SlicesPartition` | packages/abtest/src/assignment.ts:173-195 | Every member is in exactly one slice. |
| `Assignment.SlicesInOrder` | packages/abtest/src/assignment.ts:173-195 | The slices one after the other are the ranked audience, the holdout last. |
| `Manifest.GroupSizesUnique` | packages/abtest/src/assignment.ts:161-171 | Audience size, weights and percentage determine all group sizes. |
| `Manifest.ManifestUnique` | packages/abtest/src/assignment.ts:135-234 | The manifest is the same for every order of the audience. |
| `Manifest.BuildManifest` | packages/abtest/src/assignment.ts:135-234 | Succeeds exactly on valid input (its own invariant errors are unreachable) and returns the manifest of the ranked slices. |
| `Manifest.CutGroups` | packages/abtest/src/assignment.ts:173-195 | The cursor loop cuts the slices and stamps their counts, ids and checksums. |
| `Manifest.ListSlices` | packages/abtest/src/listmonk-integration.ts:330-360 | The lists are populated with exactly the slices of the manifest. |
| `Manifest.SplitCounts` | packages/abtest/src/listmonk-integration.ts:330-360 | The groups are the variants in order and the holdout, the lists have the lengths of the manifest, and the test group is its share of the audience rounded half up. |
| `Manifest.NoIdInTwoLists` | packages/abtest/src/listmonk-integration.ts:344-360 | With ids and uuids one to one, every numeric id goes to one list and none to two. |
| `Manifest.GroupIndexOfRanked` | packages/abtest/src/assignment.ts:306-328 | The cursor walk returns the first group whose slice holds the uuid, or -1, whatever the counts. |
| `Manifest.GroupIndexForUuid` | packages/abtest/src/assignment.ts:247-255 | A single lookup answers by the slices of the verified audience. |
| `Manifest.GroupIndexForUuids` | packages/abtest/src/assignment.ts:262-274 | The batch lookup answers every request as the single one does. |
| `Manifest.DriftAnswersNothing` | packages/abtest/src/assignment.ts:283-295 | A drifted audience is answered with -1. |
| `Manifest.LookupFindsSlice` | packages/abtest/src/assignment.ts:247-328 | However the audience is read again, a lookup returns the slice index of every member and -1 exactly for non-members. |
| `Audience.SourceListsFacts` | packages/abtest/src/audience.ts:183-192 | Source lists are the positive ids, each once, ascending. |
| `Audience.ScanReads` | packages/abtest/src/audience.ts:198-243 | A list is read up to the first page that is short, the second empty one in a row or the ten-thousandth: all records of all pages up to there, or a failure if one of them cannot be read. |
| `Audience.ScanAllReads` | packages/abtest/src/audience.ts:198-243 | What is read is what any of the lists contains; one unreadable list makes the whole fail. |
| `Audience.AddSubscriber` | packages/abtest/src/audience.ts:121-160 | A record is refused exactly when it breaks the correspondence of ids and uuids. |
| `Audience.ReadList` | packages/abtest/src/audience.ts:198-243 | The page loop reads exactly the records of the scan, tolerating one empty page. |
| `Audience.Resolve` | packages/abtest/src/audience.ts:183-250 | Succeeds exactly when a source list is given, all reached pages are readable and ids and uuids correspond; returns each eligible identity once, never an empty uuid. |
| `Audience.SegmentAudience` | packages/abtest/src/listmonk-integration.ts:275-360 | End to end: every eligible subscriber goes to exactly one list, nobody else to any, and the lists have the sizes of the manifest. |
| `Lifecycle.EvolvesKeeps` | packages/abtest/src/lifecycle.ts:3-32 | What is gone or terminal stays so while the server moves on. |
| `Lifecycle.PlanCancel` | packages/abtest/src/lifecycle.ts:133-231 | The plan, for any active and terminal statuses: observed active campaigns are cancelled, observed others deleted unless terminal and kept; lists wait for the winner and every campaign neither gone nor to be deleted; each list once. |
| `Lifecycle.ActAll` | packages/abtest/src/lifecycle.ts:298-360 | Campaign actions in any order: what each answer shows stays true; without interference exactly the planned effect. |
| `Lifecycle.FetchStatuses` | packages/abtest/src/lifecycle.ts:465-533 | Readings in any order: gone and terminal readings stay true, failures are kept apart. |
| `Lifecycle.DeleteLists` | packages/abtest/src/lifecycle.ts:385-424 | List deletions in any order, and which campaigns existed at each. |
| `Lifecycle.ExecutePlan` | packages/abtest/src/lifecycle.ts:298-456 | Lists are deleted only when every watched campaign is gone, and otherwise all retained. |
| `Lifecycle.CancelAbTest` | packages/abtest/src/lifecycle.ts:545-564 | An authoritative result settles every backing campaign; no list deletion is requested while a backing or winner campaign exists; unless something failed all lists of the test are gone or none was touched; without interference the exact effect. |
| `Lifecycle.Experiment.Stop` | packages/abtest/src/factory.ts:129-200 | A successful stop leaves every backing campaign deleted or terminal, however the server moved; a failed one leaves the status; a repeated one changes nothing. |
| `Lifecycle.SettledForever` | packages/abtest/src/factory.ts:129-200 | Whatever the server does afterwards, a settled campaign stays settled. |
| `WinnerDeployment.WinnerTest.Deploy` | packages/abtest/src/abtest-service.ts:1436-1490 | The guards in order, then deploying and completed with the winner recorded, or analyzing when a request fails, whatever the status was. |
| `WinnerDeployment.WinnerTest.DeployStored` | packages/abtest/src/persistence.ts:798-842 | Through the store a deployment that throws changes nothing. |
| `WinnerDeployment.EndedInMemory` | packages/abtest/src/abtest-service.ts:1436-1490 | In memory an ended status survives every outcome of a deployment iff a guard refuses it. |
| `WinnerDeployment.EndedInStore` | packages/abtest/src/abtest-service.ts:1436-1490 | In the store it does iff a guard refuses it or the status is completed already. |
| `WinnerDeployment.CancelledIsDeployed` | packages/abtest/src/abtest-service.ts:1436-1490 | A cancelled test that becomes completed, and a completed one that falls back to analyzing. |
| `DataValidator.UnfoldingUnique` | packages/openapi/runtime.ts:911-1027 | A value has at most one tree unfolding. |
| `DataValidator.UnfoldExact` | packages/openapi/runtime.ts:911-1027 | Bounded unfolding finds exactly the unfoldings within the depth. |
| `DataValidator.EnterObject` | packages/openapi/runtime.ts:968-1021 | Entering an object trades its frame for one node, its key text, an exit frame and its children, and conserves the outcome. |
| `DataValidator.CycleHasNoUnfolding` | packages/openapi/runtime.ts:968-969 | An object that is its own descendant has no finite unfolding, so the ancestor check rejects rightly. |
| `DataValidator.ExitsPush` | packages/openapi/runtime.ts:968-974 | Entering an object keeps the ancestor set equal to the exit frames. |
| `DataValidator.ExitsPop` | packages/openapi/runtime.ts:934-937 | So does leaving one. |
| `DataValidator.PushItems` | packages/openapi/runtime.ts:995-1003 | Array items are pushed last to first, unless there is a hole. |
| `DataValidator.PushProperties` | packages/openapi/runtime.ts:1006-1021 | Property values are pushed in key order and key text is counted; refused exactly for an odd key or too much text. |
| `DataValidator.PushChildren` | packages/openapi/runtime.ts:975-1021 | An object passes exactly when it is locally valid and its keys fit, and then its property values or items are on the stack. |
| `DataValidator.Visit` | packages/openapi/runtime.ts:938-1021 | One step of the walk keeps the conservation invariant, or stops with data that cannot be accepted. |
| `DataValidator.Walk` | packages/openapi/runtime.ts:925-1022 | The walk terminates on every graph and accepts exactly those with a finite, locally valid unfolding within the node, depth and text limits. |
| `DataValidator.ValidateTransactionalData` | packages/openapi/runtime.ts:911-1027 | The whole check, with the prototype, undefined and non-object cases. |
| `DataMeaning.AcceptableLeaf` | packages/openapi/runtime.ts:945-966 | A primitive is acceptable iff it is no text, or a well-formed one of at most 65536 units, and not undefined, a bigint, function, symbol or non-finite number. |
| `DataMeaning.ObjectUnfolds` | packages/openapi/runtime.ts:968-1021 | An object that unfolds has an unfolding of every own property value or item; its nodes are one more than theirs, its text is that of its keys and theirs, and it is one level higher than the highest. |
| `DataMeaning.PartsMakeObject` | packages/openapi/runtime.ts:968-1021 | Conversely the unfoldings of its parts make one of a plain object with plain keys. |
| `DataMeaning.AcceptableObject` | packages/openapi/runtime.ts:911-1027 | An object is acceptable iff it is plain and its parts unfold within 2048 nodes, 65536 units of text and 32 levels, itself and its keys included; the early length check of arrays changes nothing. |
| `DataMeaning.BadProperty` | packages/openapi/runtime.ts:955-963 | One unacceptable property value makes the object unacceptable. |
| `DataMeaning.BadItem` | packages/openapi/runtime.ts:995-1003 | So does a hole or one unacceptable item. |
| `DataMeaning.CyclicData` | packages/openapi/runtime.ts:968-969 | Data that leads back to itself through properties and items in any mixture is never acceptable. |

## Left out

- Floating point, NaN and infinities: quotas, percentages and p-values are exact reals.
- The normal distribution, power, sample-size and sequential formulas: transcendental functions without structure to prove.
- SHA-256, HMAC and random ids: an arbitrary function and fresh values; collisions of digests are handled by the uuid tie-break as in the code.
- Strings compare by Dafny characters, which agrees with UTF-16 order except beyond the basic multilingual plane.
- SQL: schema migration, row parsing, isolation anomalies and `SKIP LOCKED` fairness; a claim, replay or reconcile may return any allowed subset of rows within its limit, in any order.
- Endpoint names, event filters and URL checks; which endpoints match an event is a parameter of the enqueue.
- Truncation of stored error texts is assumed done, and the wording of stored errors carries no claim.
- A request that takes effect only after its caller has already retried is not modelled: an effect happens during the request or not at all.
- The sample-size statistics behind a create request (their verdict is an input), hypothesis locking, metrics, legacy drafts, full-split (shuffled) segmentation, and the direct path that provisions without committed phases and rolls back what it created.
- Listmonk moving a scheduled campaign on to running is part of `Lifecycle`, not of the create operation, whose campaigns stay as the requests leave them.
- Timestamps are integers; parsing and formatting of ISO strings is left out.
- Subject-key derivation and the channel of a participation, which no decision reads.
- Stratum classification by email domain and the merging of small strata: tables and one-branch mappings.
- Stratification.ComputeStratifiedQuotas: outside the convergent shapes, which single inputs converge is not characterised beyond "no feasible swap is left".
- StoredStratification.IsStoredStratification: values that are not objects or numbers at all are rejected by the code before any modelled check.
- The classification of errors as not-found by message text: a not-found answer means that the resource is gone.
- A campaign status spelled like the internal already-deleted marker.
- The analysis that finds a winner and the campaign a deployment creates: their outcomes are inputs.
- The in-place order of concurrent requests is any permutation; their answers are matched to actions by position.
- Getters, proxies and exceptions thrown by exotic objects in transactional data: an accessor counts as undefined, and whether a toJSON hook is found along a prototype chain is a property of each object.
- HTTP clients, timeouts, MCP and CLI dispatch, schemas, digests, hygiene, preflight, reports and domain events: input/output and tables.
