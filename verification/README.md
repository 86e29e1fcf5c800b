# Push dispatch: a verified model

This project models how push dispatch keeps, sends and retires push targets, and proves what
the parts promise, alone and together.

- **Durable scheduler** (`Worker`, `Protocol`, `Safety`, `Announcements`, `LeaseTiming`,
  `Tick`, `TickRun`). Jobs are stored
  documents. Any number of workers claim a job with a fresh token and a lease, attempt it, and
  store the result by compare-and-set on the token, while jobs are put, canceled, claimed again
  and workers crash at any point. Every transaction is one step of a system with a shared clock;
  ghost history records the Put generation, the last writer, the sends, and what stored attempts
  reported. Safety is proved over every run.
- **Daily recurrence** (`Recurrence`). The search for the next wall-clock match under an arbitrary
  offset function of whole seconds, at most 24 hours either way, with gaps and folds.
- **Installation store** (`Installations`, `Ownership`). Per-user installation maps and the
  per-target owner index: registration and transfer, heartbeat, retirement, delivery markers,
  pruning and account deletion. Runs start with nothing stored; user documents come from the
  application or, where the store is configured so, from registering.
- **Dispatcher** (`Push`, `Dispatcher`, `RetrySpec`, `Pool`, `Fcm`). The retry loop of a batch, its
  refinement of a per-target story, the goroutine pool as an interleaving system, and the Firebase
  adapter. The provider, the random draws and the waits are arbitrary functions.
- **Clients** (`ClientLog`, `Android`, `Ios`, `OperationLock`). The persisted binding of one device
  against a backend whose replies are arbitrary. A log records every call and every write, so that a
  crash is a prefix of the log.
- **Composition** (`Composition`). The worker asking the store for targets and handing them to the
  dispatcher, cleanup reaching the store, and a client's unbind reaching the store.
- `Ordering` holds the byte order of strings and sorting.

Each operation is also described field by field in terms of its inputs (the rows named `...Stores`,
`...Exactly`, `AttemptLeaves`, `AdapterCodes`), so that a wrong helper shows.

Loops, methods that change fields and transactions are methods and classes, proved against
functions of the old state; the functions carry the lemmas. Instants and durations are integers in
nanoseconds; the zero time is 0.

## Findings

- The retry loop's comment says a delivered target can never be sent again in one call. That holds
  exactly when a response does not give one address both a final and a retryable result
  (`RetrySpec.ResentExactlyOnConflict`, `RetrySpec.ConflictResendsSuccess`). The Firebase adapter
  never does (`Fcm.AdapterKeepsContract`).
- `Daily.Next` is documented as the first occurrence after an instant. It searches from the local
  date of that instant on. Where the offsets of the searched window are less than a day apart it is
  the first over the searched dates (`Recurrence.FirstOverSearchedDates`). With such offsets
  from three days before to thirteen days after, it is the first over the dates from today on, and
  the first over all dates exactly when yesterday's occurrence is not still to come
  (`Recurrence.FirstOccurrenceOverall`). `Recurrence.YesterdayStillToCome` is a zone for which it is,
  made for the purpose: it jumps over a wall time into the next date and back. Whether a zone in use
  ever does is left open.
- Deleting an owner record keeps the ownership invariant exactly when its user holds no live
  address there (`Ownership.DeleteOwnerExactly`). From the deletion of a user document until the
  last owner record of the user is gone, the user must be barred from registering, and the
  application must not create the document again: each of the application's own steps keeps the
  invariant exactly under that rule (`Ownership.AdministrationExactly`). A return in between, by
  registering or by being created again, leaves a live address without an owner record
  (`Ownership.UnfencedDeletionBreaks`).
- The worker and the dispatcher can disagree about a batch. They do for a provider that answers one
  target with a code of its own and no error: the worker is left with the target, the dispatcher
  reports nothing (`Composition.UndeclaredCodeDisagrees`). For senders that answer an address once,
  they disagree exactly when none of the last answers to the targets is retryable or unknown and one
  has an undeclared code (`Composition.DisagreeExactly`). When every sender keeps to the declared
  codes they agree (`Composition.KnownSendersAgree`), and the Firebase adapter does
  (`Composition.AdapterAgrees`).
- The guard of a tick is exact: with less than thirty seconds between send timeout and lease, an
  attempt whose calls all return in time can outlive its lease (`LeaseTiming.GuardIsExact`).

## Model

| member | source | states |
|---|---|---|
| `Push.KeyIdentifiesAddress` | push/dispatcher.go:246-248 | two targets of the supported types share a key exactly when they share type and address |
| `Dispatcher.SendBatch` | push/dispatcher.go:128-244 | one result per target in batch order, each the last word of the rounds on that target; counts add up; an error exactly when something is unresolved |
| `Dispatcher.GivenOrRetried` | push/dispatcher.go:144-187 | a round gives a pending target a final result or a retry |
| `Dispatcher.RoundsLinked` | push/dispatcher.go:133-218 | a run has at most max attempts, each on the retries of the one before, and ends with nothing pending |
| `Dispatcher.EveryTargetFinal` | push/dispatcher.go:220-226 | every target has a result when the loop ends: the fallback result is never used |
| `Dispatcher.FinalOfShape` | push/dispatcher.go:151-162 | a result names the original target and has no error under the empty code |
| `Dispatcher.SuccessesCounted` | push/dispatcher.go:228-231 | the success count is the number of results with no error and no code |
| `Dispatcher.UnresolvedCounted` | push/dispatcher.go:233-239 | the unresolved count is the number of transient, rate-limited and unknown results |
| `Dispatcher.CauseIsLast` | push/dispatcher.go:135-242 | the cause given is the last attempt's error, or the cut of the wait |
| `RetrySpec.ResentExactlyOnConflict` | push/dispatcher.go:144-187 | a target with a final result is sent again exactly when the response also gives its address a retryable one |
| `RetrySpec.ConflictResendsSuccess` | push/dispatcher.go:125-127 | a response that delivers a target and yet has it sent again |
| `RetrySpec.TargetStory` | push/dispatcher.go:125-218 | under the sender contract each target is sent in attempts 1 to k only, with k at most max, every outcome before k retryable, and its result is the outcome of attempt k or the error that cut the wait after it |
| `RetrySpec.SentAgainExactly` | push/dispatcher.go:144-218 | a target is in the next attempt exactly when its answer is transient or rate limited, or missing with no error or with one of these codes, and attempts are left and the wait was not cut; otherwise in no later one |
| `RetrySpec.LimitedThenSuccess` | push/dispatcher.go:157-160 | a provider that answers rate limited and then success yields the success |
| `RetrySpec.ResultIsLastAnswer` | push/dispatcher.go:151-186 | the message id, error and code a target ends with, from the answer or the error of its last round |
| `RetrySpec.WaitExactly` | push/dispatcher.go:189-209 | there is a wait exactly when a target is sent again; its base is a second, or a minute if one of them is rate limited, doubled once and again |
| `RetrySpec.LastOutcomeDecides` | push/dispatcher.go:125-218 | under the sender contract a target ends with the code the sender gave it in the last round that carried it |
| `RetrySpec.FinalAndPendingPartition` | push/dispatcher.go:133-218 | at every loop head each target either has its result or is pending, never both |
| `RetrySpec.JitterOnlyAdds` | push/dispatcher.go:262-271 | jitter never shortens a delay and adds up to a tenth, as drawn |
| `RetrySpec.QuotaFloor` | push/dispatcher.go:201-209 | the wait after a round with a rate-limited target is at least 60 seconds |
| `RetrySpec.TotalWaitBound` | push/dispatcher.go:254-271 | a bound on all waits of a run for any number of attempts; 198 seconds for three |
| `Pool.Deduplicate` | push/dispatcher.go:284-299 | rejects an invalid target, else keeps the first target of each address in input order |
| `Pool.UniqueIsDistinct` | push/dispatcher.go:284-299 | the kept targets have distinct keys, cover every key of the input, and are the whole input when nothing repeats |
| `Pool.UniqueKeepsFirst` | push/dispatcher.go:287-297 | kept are the first targets of their addresses, in input order |
| `Pool.Chunk` | push/dispatcher.go:301-314 | full pieces of the given size and a nonempty rest, whose concatenation is the input |
| `Pool.WorkersAre` | push/dispatcher.go:43-51 | the number of goroutines is the least of what was asked for, four and the number of batches; one by default |
| `Pool.InvStep` | push/dispatcher.go:87-114 | every step of the goroutines and channels keeps each batch in exactly one place and its outcome right |
| `Pool.NoDeadlock` | push/dispatcher.go:87-114 | while a batch is missing or a goroutine alive, some step can be taken |
| `Pool.StepConsumes` | push/dispatcher.go:87-114 | every step uses up one of a bounded number of steps |
| `Pool.EveryInterleaving` | push/dispatcher.go:67-114 | a run is bounded, at most the worker count are busy, and a run that cannot go on has collected exactly the outcome of every batch |
| `Pool.InterleavingMatchesInOrder` | push/dispatcher.go:110-122 | what any complete interleaving collects adds up to what sending the batches one by one yields |
| `Pool.EveryInterleavingAnswers` | push/dispatcher.go:67-123 | when each batch has the outcome of its own retry loop, every complete interleaving answers each distinct target once, in order and from the batch at its place |
| `Pool.CombineAnswers` | push/dispatcher.go:116-122 | batches that answer their targets combine to an answer of all targets, in order, with counts that add up and an error exactly when one is unresolved |
| `Pool.Send` | push/dispatcher.go:67-123 | rejects invalid input, else answers each distinct target once and in order, the i-th from the retry loop of batch i / 500 |
| `Fcm.SendBatch` | push/fcm/sender.go:47-103 | the reply as a function of the input, branch by branch |
| `Fcm.AdapterCodes` | push/fcm/sender.go:63-171 | each failed response has the code of the first of its flags, as has the error of a failed call; a success keeps its message id; a malformed batch or answer gives no result and an error |
| `Fcm.AdapterKeepsContract` | push/fcm/sender.go:61-102 | the adapter gives at most one result per address |
| `Fcm.AdapterAttribution` | push/fcm/sender.go:61-102 | every target of a good batch is answered from the response at its own place, tokens before installation ids; it counts as success when that response is marked so, or is not and carries no error |
| `Recurrence.Next` | scheduler/schedule.go:51-72 | the occurrence of the earliest of eight local dates that lies after the instant; none exactly when no such date has one |
| `Recurrence.NextIsUnique` | scheduler/schedule.go:51-72 | the promise of Next has one answer |
| `Recurrence.NextUnderFixedOffset` | scheduler/schedule.go:55-70 | under a fixed offset Next is the wall time of today if it is still to come, and else of tomorrow |
| `Recurrence.ValidIs` | scheduler/schedule.go:38-47 | which local times are valid |
| `Recurrence.FirstOverSearchedDates` | scheduler/schedule.go:57-70 | when the offsets in the searched window are less than a day apart, Next is the earliest occurrence after the instant over the searched dates |
| `Recurrence.FirstOccurrenceOverall` | scheduler/schedule.go:49-72 | with such offsets from three days before to thirteen days after, Next is the first occurrence over the dates from today on, and over all dates exactly when yesterday's is not still to come |
| `Recurrence.YesterdayStillToCome` | scheduler/schedule.go:49-57 | a zone and an instant for which it is not |
| `Recurrence.OneOccurrencePerDate` | scheduler/schedule.go:61-69 | a local date has one occurrence: repeated wall times are never returned again |
| `Installations.Prune` | push/store/store.go:492-546 | for any walk over the map, keeps what the rank description keeps and lists the rest sorted and once each |
| `Installations.PrunedSize` | push/store/store.go:512-543 | what is left has the size of the unexpired entries, capped at 20 |
| `Installations.PruneIsJustified` | push/store/store.go:494-543 | the kept id stays; an entry goes because it expired or because the cap is full of newer ones, ties broken by id |
| `Installations.PruneByAge` | push/store/store.go:494-543 | the rules spelled out: 90 days unseen, counting from the update time if never seen, 30 days disabled, and above 20 entries the least recently seen |
| `Installations.PruneTwice` | push/store/store.go:492-546 | a second prune at the same time removes nothing |
| `Installations.ActiveTargets` | push/store/targets.go:25-36 | exactly the active entries, as targets, in id order |
| `Ordering.LessMeans` | push/store/store.go:531-544 | strings are compared by their first difference, a proper prefix first |
| `Installations.ActiveExactly` | push/installation.go:49-66 | which entries are active, and the address that is sent to |
| `Installations.NewestActiveInstallation` | push/store/store.go:455-469 | the active entry seen last, ties broken by the least id, for any walk over a map without an empty key |
| `Installations.NewestIsUnique` | push/store/store.go:455-469 | there is only one such entry |
| `Ownership.Store.UpsertPushInstallation` | push/store/store.go:90-196 | the new maps and owner records as a function of the old ones, with the fence and the missing user as errors |
| `Ownership.RegistrationStores` | push/store/store.go:91-170 | the stored entry field by field: the request, stamped, with the old creation time and markers where there were any; what stays of the account's other entries is untouched |
| `Ownership.RegistrationMoves` | push/store/store.go:171-194 | which owner records and documents a registration leaves |
| `Ownership.TransferRetires` | push/store/store.go:176-182 | what the account a target is taken from keeps |
| `Ownership.RegistrationRefused` | push/store/store.go:102-123 | exactly when a registration is fenced or refused, and that it then changes nothing |
| `Ownership.Store.HeartbeatPushInstallation` | push/store/store.go:206-257 | the same for a heartbeat; a cleared address is not found |
| `Ownership.HeartbeatStores` | push/store/store.go:220-249 | the stored entry field by field, and exactly when it is not found |
| `Ownership.HeartbeatOwners` | push/store/store.go:243-254 | which owner records a heartbeat leaves |
| `Ownership.Store.DisableIds` | push/store/store.go:367-398 | exactly the named entries are retired, in any order, with the missing match as an error |
| `Ownership.DisableStores` | push/store/store.go:367-398 | the retired entries field by field, and exactly when nothing matched |
| `Ownership.Store.DisablePushInstallations` | push/store/store.go:290-308 | for any order of users, exactly the named entries of users whose transaction succeeds are retired, and an error is reported exactly when one fails |
| `Ownership.SweepStores` | push/store/store.go:290-308 | the entries retired by reference field by field; references without a user or an id are ignored |
| `Ownership.Store.MarkDelivered` | push/store/store.go:333-365 | exactly the named live entries without the marker get it |
| `Ownership.MarkStores` | push/store/store.go:348-363 | the marked entries field by field |
| `Ownership.Store.DeletionFence` | push/store/store.go:102-117 | when a deletion request blocks an account |
| `Ownership.Store.OwnedPrunedIds` | push/store/store.go:259-284 | exactly the pruned ids whose owner record names this user |
| `Ownership.Store.DeleteOwnerIfOwned` | push/store/store.go:414-432 | an owner record goes only when it names this user |
| `Ownership.UpsertKeepsInv` | push/store/store.go:137-194 | a registration or transfer keeps live entries owned, owner records grounded and maps capped |
| `Ownership.StepKeepsInv` | push/store/store.go:90-432 | so does every step of the store, and every step of the application that keeps a user with owner records away while its document is gone |
| `Ownership.AdministrationExactly` | push/store/store.go:102-123 | creating and deleting a user, filing and withdrawing a deletion request and deleting an owner record keep the invariant exactly when they keep to that rule |
| `Ownership.SingleLiveHolder` | push/store/store.go:137-194 | in every reachable state a target's address is live for one account at most, which is its recorded owner; owner records of present users point at present keys; no map exceeds 20 entries |
| `Ownership.RegistrationIsReachable` | push/store/store.go:119-123 | whether or not registering makes documents, a user the application has made can register and hold a live address |
| `Ownership.TransferMovesOnlyTheTarget` | push/store/store.go:149-188 | a registration keeps the entry's creation time and markers, clears the address of the account it is taken from, and touches no other entry of another account |
| `Ownership.OthersKeepTheirRecords` | push/store/store.go:170-193 | no step removes another user's owner record, except by taking the target over |
| `Ownership.DeleteOwnerExactly` | push/store/store.go:400-432 | deleting an owner record keeps the invariant exactly when its user holds no live address there |
| `Ownership.UnfencedDeletionBreaks` | push/store/store.go:400-432 | without the fence, an account that returns between the listing of its owner records and their deletion ends up live without an owner record |
| `Ownership.BarHolds` | push/store/store.go:102-123 | no step of the store brings back the document of a user who is fenced, or who cannot be made by registering |
| `Ownership.StaysRetired` | push/store/store.go:206-257 | over any run, only registering it again revives a retired address |
| `Ownership.SweepRetiresExactly` | push/store/store.go:290-308 | retiring reported installations keeps the invariant and silences exactly those |
| `Ownership.AccountSwitch` | push/store/store.go:149-188 | after an account's ids were unregistered none of them is active for it, and a target the next account holds is active for that account only |
| `Worker.Deliver` | scheduler/worker.go:83-174 | the updated job as a function of the claimed one and what the lookup, the sender, the cleanup and the clock answered |
| `Worker.AcknowledgedExactly` | scheduler/worker.go:106-139 | each pending target is judged by its first exact result and by nothing else |
| `Worker.ResolvedMeansAllAcknowledged` | scheduler/worker.go:106-148 | when nothing is left to do every target found at lookup is acknowledged, now or before |
| `Worker.AttemptEnds` | scheduler/worker.go:146-184 | the five ways an attempt ends and what each leaves: state, attempts, due and available time, progress, pending cleanup |
| `Worker.AttemptLeaves` | scheduler/worker.go:83-184 | every other field of the job after each ending, the error it names included |
| `Worker.FailureLeavesOpen` | scheduler/worker.go:91-148 | a failed lookup, a sender that reports an error and a cleanup that fails each leave the occurrence open |
| `Worker.AttemptConserves` | scheduler/worker.go:111-142 | an id reported unregistered, or waiting from before, is disabled by the attempt or still waits |
| `Worker.WaitingWasReported` | scheduler/worker.go:111-142 | an id that waits afterwards was reported or waiting before, and was not disabled by the attempt |
| `Worker.PermanentIsRemembered` | scheduler/worker.go:143-172 | a permanent failure is remembered, and a one-off that saw one is not done |
| `Worker.PermanentExactly` | scheduler/worker.go:129-131 | an attempt notes a permanent failure exactly when one is reported |
| `Worker.PendingInOrder` | scheduler/worker.go:95-104 | the targets sent keep the order of the lookup |
| `Worker.RetryDelays` | scheduler/worker.go:176-184 | the retry delays are 1, 2, 4 and 8 minutes |
| `Worker.RetryKeepsMessage` | scheduler/schedule.go:168-183 | a retry announces the same notification id and content |
| `Announcements.DeliveredDependsOn` | scheduler/worker.go:95-142 | an attempt uses the sender only with the job's own message, completed by the declared defaults and marked with its recipient, id and due time, and the targets not completed |
| `Announcements.MessagesTellOccurrences` | scheduler/schedule.go:168-183 | over any run, two messages carry the same notification id exactly when they announce the same occurrence of the same job, and each is the submitted one with its defaults filled in |
| `Announcements.StaysAsPut` | scheduler/schedule.go:131-145 | over any run a stored job keeps the series, message and shard it was put with, and a one-off its instant |
| `Announcements.PutStores` | scheduler/schedule.go:131-145 | what a put stores, field by field; a series without a next occurrence is refused |
| `Announcements.CancelMarks` | scheduler/firestore/store.go:62-72 | what a cancel changes, and nothing else |
| `Announcements.FinishStores` | scheduler/firestore/store.go:136-142 | exactly when a finish is stored, and which of the two errors it gives |
| `Protocol.JobStore.Put` | scheduler/firestore/store.go:42-47 | the document is replaced |
| `Protocol.JobStore.Cancel` | scheduler/firestore/store.go:62-72 | a present document is canceled and its claim cleared |
| `Protocol.JobStore.ClaimDue` | scheduler/firestore/store.go:74-120 | the first limit candidates of a query however stale are tried, one transaction each while others write in between, up to one that fails: each is leased and handed out exactly when it is present, ready, of the shard and available, and nothing else of it changes |
| `Protocol.ClaimedAreLeased` | scheduler/firestore/store.go:100-117 | a claim hands out ready jobs of the shard, leased for the full time |
| `Protocol.JobStore.Finish` | scheduler/firestore/store.go:122-144 | compare-and-set on the token, with both errors |
| `Protocol.HolderIsLastWriter` | scheduler/firestore/store.go:136-138 | a claim holds the lease exactly when it was the document's last writer |
| `Protocol.StepKeepsInv` | scheduler/firestore/store.go:42-144 | every step of the system keeps the invariant of documents, claims and history |
| `Protocol.Reachable` | scheduler/firestore/store.go:42-144 | so does every run |
| `Safety.Fencing` | scheduler/firestore/store.go:122-144 | in every reachable state a finish is stored exactly when the document's last write was its own claim, and then the document is still the claimed one; otherwise nothing changes |
| `Safety.OldClaimsNeverWrite` | scheduler/firestore/store.go:42-72 | once a job was replaced or canceled, no claim taken before ever writes it |
| `Safety.TerminalLeftByPutOrCancel` | scheduler/firestore/store.go:103-142 | done, failed and canceled are left by Put only, or turned into canceled by Cancel |
| `Safety.CompletedOnlyGrows` | scheduler/worker.go:87-133 | within one occurrence the stored acknowledgements only grow, over any run |
| `Safety.NoResend` | scheduler/worker.go:95-107 | a target stored as completed is in no send made under a claim taken afterwards, as long as the occurrence lasts |
| `Safety.AtMostFiveFinishes` | scheduler/worker.go:176-184 | at most five finishes are stored while an occurrence lasts; a ready job has had fewer than five attempts |
| `Safety.FinishesWithTheLast` | scheduler/worker.go:176-184 | the bound with the finish that ends the occurrence included: that finish is the fifth at most |
| `Safety.OneOffIsTerminal` | scheduler/worker.go:165-184 | a one-off is no longer ready after the fifth finish since its Put |
| `Safety.SeriesProgress` | scheduler/worker.go:149-158 | within a Put generation a series' due time never goes back, is never after the available time, and two due times share a local date only if equal |
| `Safety.OneCatchUp` | scheduler/worker.go:149-158 | the finish that advances a series moves it past its own clock reading, so a backlog yields one catch-up |
| `Safety.Conservation` | scheduler/worker.go:111-142 | in every reachable state InvalidTargets holds exactly the ids reported unregistered since the Put and not retired since that report; what waits is completed; an occurrence begins, and a job is done, with nothing waiting; a done job saw no permanent failure |
| `LeaseTiming.SendsNeverOverlap` | scheduler/worker.go:44-67 | when calls return by their deadlines, the sends of two claims of one Put generation never overlap and end before the lease does |
| `LeaseTiming.LostOnlyToPutOrCancel` | scheduler/worker.go:44-67 | a finish in time is before the lease ends and is refused exactly when the job was put again or canceled |
| `LeaseTiming.GuardIsExact` | scheduler/worker.go:44-46 | the guard accepts just the settings under which every attempt in time is finished before its lease ends |
| `Tick.Run` | scheduler/worker.go:27-81 | rejects exactly the bad options and bad leases; else claims, attempts and finishes round by round, while others write before each claim and before each finish |
| `Tick.ReportAccounts` | scheduler/worker.go:47-80 | a tick claims at most its limit, has stored every claimed job but the last when a finish failed, and its counts say how the stored attempts ended |
| `TickRun.TickIsRun` | scheduler/worker.go:47-80 | a tick whose interferers act by steps of the system is itself a run of the system, with its claims, attempts and finishes, in time when every call is |
| `TickRun.TickInSystem` | scheduler/worker.go:47-80 | from a reachable state it leaves a reachable state, so what every run keeps holds for ticks |
| `TickRun.TickInTime` | scheduler/worker.go:44-80 | with the guard of the tick and calls that return in time the run is a timely one, so the lease timing holds for ticks |
| `ClientLog.GoodIsTracked` | android/core/src/main/java/io/github/bjthomas07/pushdispatch/core/NotificationInstallationManager.kt:42-63 | at every point of a log that keeps to the rules every registered id that may exist is the current one or waits for cleanup, but for one just registered, and what is saved is sorted, without duplicates and without the current id |
| `Android.AnyLife` | android/core/src/main/java/io/github/bjthomas07/pushdispatch/core/NotificationInstallationManager.kt:20-154 | any sequence of operations, each completed or cut off after any of its events with a restart, keeps to the rules, so no id is lost |
| `Ios.AnyLife` | ios/Sources/PushDispatchCore/NotificationInstallationLifecycle.swift:181-505 | the same for the iOS operations |
| `ClientLog.LiveMeans` | android/core/src/main/java/io/github/bjthomas07/pushdispatch/core/NotificationInstallationManager.kt:20-91 | an id may exist exactly when it was registered and nothing unregistered or disproved it since |
| `ClientLog.SwitchNeedsDrop` | ios/Sources/PushDispatchCore/NotificationInstallationLifecycle.swift:187-195 | between bindings of two accounts, or out of quarantine, everything was unregistered or the account was given up |
| `ClientLog.Device.Restarted` | ios/Sources/PushDispatchCore/NotificationInstallationLifecycle.swift:88-103 | a crash after any prefix of a lawful log leaves a device whose saved binding names every id that may exist |
| `ClientLog.LeftFacts` | android/core/src/main/java/io/github/bjthomas07/pushdispatch/core/NotificationInstallationManager.kt:137-153 | what a cleanup pass leaves is sorted, without duplicates, and exactly the ids whose call failed |
| `Android.Manager.CleanupPending` | android/core/src/main/java/io/github/bjthomas07/pushdispatch/core/NotificationInstallationManager.kt:137-153 | one call per waiting id in order; exactly the failed ones keep waiting; a cancellation changes nothing saved |
| `Android.Manager.Bind` | android/core/src/main/java/io/github/bjthomas07/pushdispatch/core/NotificationInstallationManager.kt:20-90 | refuses a blank or other account untouched; else ends bound to the offered target and metadata, with a fresh or recent heartbeat, keeping track of every id on every path |
| `Android.Manager.Recover` | android/core/src/main/java/io/github/bjthomas07/pushdispatch/core/NotificationInstallationManager.kt:69-84 | after a heartbeat answered with not found the target is registered anew and only the gone id is let go |
| `Android.Manager.Unbind` | android/core/src/main/java/io/github/bjthomas07/pushdispatch/core/NotificationInstallationManager.kt:93-120 | clears the binding only when every saved id was unregistered; a failure keeps it, tries every id and rethrows the first |
| `Android.Manager.ClearDeletedAccount` | android/core/src/main/java/io/github/bjthomas07/pushdispatch/core/NotificationInstallationManager.kt:123-129 | forgets the binding of this account only |
| `Ios.Lifecycle.CleanupStale` | ios/Sources/PushDispatchCore/NotificationInstallationLifecycle.swift:478-515 | one call per waiting id; exactly the failed ones keep waiting, a missing installation counting as gone |
| `Ios.Lifecycle.BindUserLocked` | ios/Sources/PushDispatchCore/NotificationInstallationLifecycle.swift:181-265 | refuses another user and a quarantined binding untouched; else ends bound as requested, keeping track of every id, with at most one registration and one nested call |
| `Ios.Lifecycle.HeartbeatLocked` | ios/Sources/PushDispatchCore/NotificationInstallationLifecycle.swift:284-365 | refreshes, rebinds on changed metadata or a missing installation, with at most one registration and no id lost |
| `Ios.Lifecycle.UnbindUserLocked` | ios/Sources/PushDispatchCore/NotificationInstallationLifecycle.swift:378-405 | quarantines first; clears only when every saved id is unregistered or missing, else leaves the quarantined binding |
| `Ios.Lifecycle.MarkPendingUnbindLocked` | ios/Sources/PushDispatchCore/NotificationInstallationLifecycle.swift:416-430 | quarantines the binding of this user only |
| `Ios.Lifecycle.ForgetBinding` | ios/Sources/PushDispatchCore/NotificationInstallationLifecycle.swift:451-459 | forgets the binding of this user only |
| `OperationLock.Exclusive` | ios/Sources/PushDispatchCore/NotificationInstallationLifecycle.swift:116-137 | over any run the lock is granted in arrival order to one task at a time and is marked free exactly when nobody holds it or waits |
| `OperationLock.Lock.Acquire` | ios/Sources/PushDispatchCore/NotificationInstallationLifecycle.swift:120-128 | takes a free lock or joins the queue |
| `OperationLock.Lock.Release` | ios/Sources/PushDispatchCore/NotificationInstallationLifecycle.swift:130-136 | hands the lock to the first waiting task, or frees it |
| `Composition.LookupIsClean` | push/installation.go:119-122 | targets looked up in a reachable store have distinct ids and addresses and are valid, so the dispatcher drops none |
| `Composition.WorkerAgreesWithDispatcher` | scheduler/worker.go:106-148 | every pending target gets exactly one result, in its place; no target is left exactly when every result acknowledges its target; and when error and worker count agree, in terms of the results |
| `Composition.DisagreeExactly` | scheduler/worker.go:106-148 | when they agree, in terms of the senders' replies: unless no last answer is retryable or unknown and one has an undeclared code |
| `Composition.UndeclaredCodeDisagrees` | scheduler/worker.go:124-146 | a job, a target and a sender for which the dispatcher reports no error and the worker is left with the target |
| `Composition.OccurrenceEndsExactly` | scheduler/worker.go:146-173 | an occurrence is left for good exactly when every result acknowledges its target and no cleanup failed; then every installation active at lookup is acknowledged |
| `Composition.CleanupSilences` | scheduler/worker.go:136-142 | what an attempt reported or held as invalid is silent in the store after a successful cleanup |
| `Composition.KnownSendersAgree` | scheduler/worker.go:108-146 | when every sender keeps to the declared codes, the dispatcher reports an error exactly when the worker is left with unresolved targets |
| `Composition.AdapterAgrees` | push/fcm/sender.go:47-103 | that holds for the Firebase adapter, whatever its client answers |
| `Composition.UnboundDeviceIsSilent` | api/devices.go:69-81 | after a client unbind the store served, the old account has no live address for any saved id, and a target the next account holds is live for no one else |
| `Composition.UnboundMeansSilenced` | push/store/targets.go:25-36 | nor does any attempt whose lookup is taken there send to the account under a saved id |
| `Composition.UnbindAndroid` | android/core/src/main/java/io/github/bjthomas07/pushdispatch/core/NotificationInstallationManager.kt:93-120 | a completed unbind of the Android client achieves that, whatever run of the store served its calls |
| `Composition.UnbindIos` | ios/Sources/PushDispatchCore/NotificationInstallationLifecycle.swift:378-405 | so does a completed unbind of the iOS client |

## Left out

- `ClientLog.GoodIsTracked`: an ambiguous registration, where the backend commits and the reply is lost, and the window between a register reply and the save, are exceptions; a log records such a registration as failed or as in hand.
- `ClientLog.IsSpace`: blank means ASCII white space; Unicode white space is not modelled.
- `Worker.NewJob`: only the due time is computed; acceptance of a schedule (identifier rules, message and payload budget validation) is not modelled.
- `Ownership.WellFormed`: a registration's id is the digest of its type and address, as building an installation from a request makes it; trimming and validating the request is not modelled.
- `Ownership.NeedsMark`: the check that a delivery marker's key and value are present and short enough, and the grouping of marked references by user, are not modelled.
- `Recurrence.Next`: civil dates are day numbers of the proleptic calendar; an invalid zone name is a missing zone; the day loop counts from the local day number.
- `Tick.Run`: cancellation is an arbitrary answer per round; missing interfaces are not modelled.
- `Protocol.JobStore.ClaimDue`: a transaction that reports an error has changed nothing; one that was committed all the same is a claim whose worker crashed, in the system of steps.
- Digests: the store takes an arbitrary function for installation ids, and distinct live targets are told apart by type and address; schedule keys and notification ids are represented by what they are taken over; tokens are only assumed fresh.
- Saturation of Go durations far from the present.
- Other fields of a user document, locale, app version and the update time of owner records.
- User document resolvers that map two users to one document: a user is its document.
- Firestore: documents are maps and a transaction is one atomic step; a claim decodes the document anew on every retry.
- The listing of an account's owner records before they are deleted one by one: each deletion is a step with an arbitrary id.
- Message and analytics validation, the multicast message built for Firebase, and the provider's network.
- `Composition.UnbindAndroid`: the account a client names is taken to be the user whose requests the store serves; an id is not registered again for that user after its unregister call.
- HTTP routing, authentication, the command line, client permissions, payload parsing and attribution.
- Liveness of delivery, exactly-once delivery, and atomicity across provider and store.
