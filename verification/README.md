# Verified models of the Yurucommu core protocols

Most of Yurucommu is a set of small concurrent protocols over one SQL database, in
which a single statement or one batch is the only atomic unit. These Dafny modules
model those protocols as state machines, step by step, and prove what holds over every
run; the sequential cores (image stripping, address expansion, insert chunking, drain
loops) are modelled as the loops they are and proved against a specification.

Conventions shared by the modules:

- Tables are maps, sets or sequences in a state datatype, and fields of a class where
  the operations are written as methods. One statement or one batch is one atomic step.
- A read is a step that copies a possibly stale row or window into a worker's memory.
  Workers interleave without restriction, may crash between steps, and read clocks that
  need not agree unless a lemma says so.
- Timestamps are integers, random tokens and ids are drawn unused, identity matching of
  actor URLs is an abstract function, and remote deliveries are arbitrary replies.
- History variables (the note log with verdicts, deletion plans, the write journal,
  claim times) appear in proofs and are never read by a modelled decision.

## Modules

| files | component |
|---|---|
| `NoteUpdateLog`, `NoteUpdateOrder`, `NoteUpdateStore`, `NoteUpdateLaws` | ordered inbound Note updates: admission, two-read window load, guarded commit |
| `PushOutbox`, `PushLaws`, `PushFanOut`, `PushJob` | the notification push job machine, one delivery attempt, and a claimed job from claim to last write |
| `GuardedWrites`, `AccountDeletion`, `AccountDeletionLaws`, `AccountDeletionWorker` | guarded batches and durable account deletion |
| `CommunityVisibility`, `PostVisibility`, `Chunks` | the read decision, its receipt, and the page gate |
| `FollowTables`, `FollowEdges`, `FollowMove`, `FollowLaws`, `MoveRefollows` | sever, block, accept and Move on the follow graph |
| `ActorFetchLedger`, `ActorFetchLaws` | single-flight remote actor fetches with backoff |
| `Framing`, `StripImage`, `StripImageLaws` | metadata stripping for JPEG, PNG and WebP |
| `TalkReads`, `TalkLaws` | observed talk reads |
| `Wrappers`, `FiniteSets` | shared value types and set sizes |
| `Text`, `AddressText`, `AddressExpansion`, `AddressClass`, `AddressBlocks` | IPv4 and IPv6 literals |
| `BatchInsert` | insert chunking and set replacement |
| `BlocklistPurge` | draining a blocked actor's interactions |

## What turned out false, and exactly when

- A read receipt forgets a story's expiry when the viewer and the author are both the
  empty string: the decision treats such a viewer as anonymous, the receipt compares it
  as the author. `ReceiptIsSufficient` gives the exact condition,
  `ForgottenExpiryOutlivesStory` shows the whole family failing and
  `ForgottenExpiryExample` one member.
- The push retry budget is exact for a lease exactly when its claim was won on a row
  whose attempt count equals the snapshot's, a column the claim does not compare
  (`LeaseBudget`). `AttemptsCanGoBack` is a run within one millisecond in which it is not.
- Every way an eligible push attempt can go shrinks the stored list and keeps every live
  unsettled id exactly when the list the worker read before its claim agrees with the
  claimed row's, which the claim does not compare (`Process`, `DisagreementBreaks`).
  `StaleListRun` and `StaleSelectionResends` are a run within one millisecond in which
  they disagree and a settled pusher is pending again. An attempt that finds the
  notification ineligible stores an empty list, so it keeps them exactly when no live id
  was stored or that write does not take effect (`IneligibleExitDropsPending`).
- An account deletion fails, keeping its plan, when a target has more than 50 settled
  upload attempts, an unclaimable key or no storage for what it has (`RunOperation`).
- After an account Move a *local* new actor has wrong counters exactly when it gained an
  accepted edge (`NewActorCounters`, `NewActorDrift`).
- Accepting a follow counts one too many for a local endpoint exactly when the direction
  has a live row but the retained spelling is not one (`AcceptKeepsCountersIff`,
  `AcceptDriftsOtherwise`, `AcceptDriftExample`).
- A failure recorded without a token clears another worker's lease; the 30-second
  spacing of claims survives exactly when that record's retry time is no earlier than
  the lease would have ended (`UntimelyRecordBreaksSpacing`, `EarlyClaimExample`). No
  such record, no exception (`OwnedRunsAreSpaced`).
- Stripping a WebP again returns the same bytes exactly when nothing was removed or a
  chunk survived; with none left the output is too short to be accepted
  (`StripWebpAgain`, `StrippedThenRefused`). The stored size is the length modulo 2^32 (`StrippedWebp`).
- An accepted PNG need not have an IEND chunk: a file that parses is accepted exactly
  when it ends with one or its kept bytes hold the letters where no type field is
  (`PngAcceptedIff`, `AcceptedHasIendIff`, `AcceptedWithoutIend`).
- Initializing observed reads keeps the unread set exactly when no receipt of an earlier
  period covers a message newer than the timestamp (`InitializeKeepsUnread`,
  `ReturningReadsAgain`).
- A purge page keeps all counters exactly when it removes no accepted follow of a local
  actor on the purged side (`PageKeepsCounters`, `LocalPurgeDrifts`).

## Model

| member | source | states |
|---|---|---|
| `NoteUpdateOrder.ProjectionIsFold` | src/backend/lib/inbound-note-update-order.ts:125-237 | In every reachable state of any number of workers, a stored note is the left fold in sequence order of exactly the admitted patches between its birth and the watermark, with nothing else done to it but the recorded rewrites of Create handlers at the watermarks of their commits; a payload is NULL exactly when its sequence is applied |
| `NoteUpdateOrder.ProjectionIsWholeFold` | src/backend/lib/inbound-note-update-order.ts:125-237 | Without row removals the projection covers every admitted patch at or below the watermark, none skipped |
| `NoteUpdateOrder.UpdatesProjectPlainly` | src/backend/lib/inbound-note-update-order.ts:125-237 | Where no handler rewrote the note it is the plain fold of its patches since its birth |
| `NoteUpdateOrder.FoldedOnce` | src/backend/lib/inbound-note-update-order.ts:189-237 | No later step of any run folds a patch again, reorders it or changes the policy it was folded under |
| `NoteUpdateOrder.CommitNeedsCurrentQueue` | src/backend/lib/inbound-note-update-order.ts:167-187 | However stale the reads were, a commit writes only if its window is row for row the queue of that state and the note is the one it read |
| `NoteUpdateOrder.ConsistentLoadNeverOverflows` | src/backend/lib/inbound-note-update-order.ts:57-165 | At most 16 pending patches per actor and note, so a load whose reads see one state never reports overflow |
| `NoteUpdateOrder.RedeliveryIsIdempotent` | src/backend/lib/inbound-note-update-order.ts:57-114 | Redelivery adds no event and changes no sequence; reuse of an activity id for another actor or note changes nothing |
| `NoteUpdateOrder.QuietCommitDrains` | src/backend/lib/inbound-note-update-order.ts:125-237 | Undisturbed, load and commit succeed and leave an empty queue |
| `NoteUpdateOrder.RunKeepsInv` | src/backend/lib/inbound-note-update-order.ts:57-237 | The whole invariant over every interleaving of admit, read, commit, deletion and removal steps |
| `NoteUpdateLog.RangeComplete` | src/backend/lib/inbound-note-update-order.ts:125-165 | A window range misses no admitted event between its bounds |
| `NoteUpdateLog.MaxSequenceSpec` | src/backend/lib/inbound-note-update-order.ts:167-187 | The guard's MAX(sequence) is the newest event of the key |
| `NoteUpdateStore.Store.Admit` | src/backend/lib/inbound-note-update-order.ts:57-114 | The admission batch and read-back: whole new state, and exactly when it reports a deletion or a conflict |
| `NoteUpdateStore.Store.FoldRows` | src/backend/routes/activitypub/handlers/inbound-note-update-projection.ts:355-375 | The caller's loop folds the window's rows in order |
| `NoteUpdateStore.Store.Commit` | src/backend/lib/inbound-note-update-order.ts:167-237 | The guarded commit, statement by statement, is all of the specified commit or nothing; a new note's head gets the Create activity given, an existing one keeps its own, and no other head or note changes |
| `NoteUpdateLaws.CommitMeans` | src/backend/lib/inbound-note-update-order.ts:167-237 | A commit writes exactly when note and head are those read, the window ends at the newest event with every payload, and nothing is deleted; then the note, its head with the Create activity of a new note, and the released payloads are all that changes |
| `NoteUpdateLaws.AdmitMeans` | src/backend/lib/inbound-note-update-order.ts:57-114 | An admission adds one event exactly when the activity id is new, fewer than 16 are pending and no deletion is recorded, and changes no note or head |
| `NoteUpdateLaws.CreationIsLastCreate` | src/backend/lib/inbound-note-update-order.ts:222-234 | In every reachable state the creation column of a key is the one given by the commit that last created its note |
| `NoteUpdateLaws.DeletionIsFinal` | src/backend/lib/inbound-note-update-order.ts:57-237 | Once a deletion is recorded no run writes the note, its head or its events again |
| `PushOutbox.OutboxInvariant` | src/backend/lib/notification-push.ts:462-715 | In every reachable state a token marks exactly the processing rows, live rows are below 5 attempts, and at most one worker's lease matches a row |
| `PushLaws.OnlyDueClaimsProcess` | src/backend/lib/notification-push.ts:686-712 | A job starts processing only by a claim whose clock has reached its schedule, by a worker that read its present status and timestamp |
| `PushLaws.ClaimsAreDue` | src/backend/lib/notification-push.ts:695-706 | In every run a claim that wins found its job due, and waiting or queued |
| `PushLaws.BackoffIsKept` | src/backend/lib/notification-push.ts:695-706 | After a give-up that names a retry time and leaves attempts, no run without a recovery or removal of that job wins a claim on it before that time |
| `PushLaws.ScheduleStands` | src/backend/lib/notification-push.ts:548-575 | A schedule changes only by a recovery, to now, or by a give-up, to the time it names |
| `PushLaws.QuietClaimWins` | src/backend/lib/notification-push.ts:640-712 | Undisturbed, reading and claiming a due job wins, and the worker remembers what it read |
| `PushLaws.QuietReclaim` | src/backend/lib/notification-push.ts:654-685 | A processing row two minutes old when it is read is taken over if due; a younger one is left |
| `PushLaws.LeaseEndsOnly` | src/backend/lib/notification-push.ts:483-715 | A lease ends only by its holder's last write, a recovery, fifteen minutes' silence, a reader two minutes later, or the retention purge |
| `PushLaws.SweepReclaims` | src/backend/lib/notification-push.ts:478-502 | The sweep gives back exactly the in-flight rows silent for fifteen minutes, for one attempt each, and fails those on their fifth |
| `PushLaws.SweepQueues` | src/backend/lib/notification-push.ts:504-545 | Queueing takes exactly the selected rows that wait, at no attempt |
| `PushLaws.Purges` | src/backend/lib/notification-push.ts:611-636 | Retention removes exactly the selected rows of ninety days' silence |
| `PushLaws.Recovers` | src/backend/lib/notification-push.ts:548-575 | A dead-letter recovery puts a live job back, due at once, for one attempt, or fails it |
| `PushLaws.Transitions` | src/backend/lib/notification-push.ts:462-1011 | Which status may follow which, and by what step |
| `PushOutbox.LostLeaseNeverWrites` | src/backend/lib/notification-push.ts:1673-1710 | After any further run a lost lease's token is on no row and no write under it changes a row |
| `PushOutbox.LeaseEndsSupersede` | src/backend/lib/notification-push.ts:483-575 | Reclaim, recovery, purge or a finish: whatever takes a token off its row loses that lease for good |
| `PushOutbox.TerminalIsAbsorbing` | src/backend/lib/notification-push.ts:548-715 | Delivered and failed rows are unchanged by every run until purged |
| `PushOutbox.AttemptsCanGoBack` | src/backend/lib/notification-push.ts:654-715 | A concrete run within one millisecond in which a give-up write lowers the attempt count |
| `PushOutbox.LeaseBudget` | src/backend/lib/notification-push.ts:686-712 | For every claim won in every run: whatever happens during the tenure, a give-up counts exactly one attempt if and only if the claim was won on a row with the attempt count of the snapshot, and otherwise misses by that difference |
| `PushOutbox.TenureKeepsAttempts` | src/backend/lib/notification-push.ts:1673-1710 | While a lease is held the row keeps the attempt count it had when it was claimed |
| `PushOutbox.LeaseList` | src/backend/lib/notification-push.ts:640-745 | For every claim won in every run the worker goes by the list of the row it read before the claim, and the row keeps the list it had at the claim until the worker stores its own |
| `PushOutbox.TenureKeepsList` | src/backend/lib/notification-push.ts:1673-1710 | While a lease is held nobody but its holder changes the stored list |
| `PushOutbox.StaleListRun` | src/backend/lib/notification-push.ts:640-745 | A concrete run after which a worker goes by an older list than its row has |
| `PushOutbox.OnlyStaleGiveUpsMiscount` | src/backend/lib/notification-push.ts:462-1011 | Every step leaves a count or adds one, except exactly a give-up that remembers more attempts than the row has, or at least two fewer |
| `PushFanOut.Attempt.Record` | src/backend/lib/notification-push.ts:820-841 | An answer settles exactly the ids it does not name for retry, an exception none; the hint is the longest so far |
| `PushFanOut.Attempt.DeliverWeb` | src/backend/lib/notification-push.ts:842-872 | Each web row settles or is retried by its own call's reply, up to the call at which the lease is lost or the database fails; without content all are retried |
| `PushFanOut.Attempt.DeliverGateways` | src/backend/lib/notification-push.ts:873-903 | The ids of each group settle or are retried by their own call's reply, up to such a call |
| `PushFanOut.GroupByGatewayAndFormat` | src/backend/lib/notification-push.ts:1712-1728 | Each group holds exactly the rows of its gateway and format in row order, and every row has a group |
| `PushFanOut.Attempt.SettleMissing` | src/backend/lib/notification-push.ts:814-819 | Pending ids whose row is gone are settled, and only those |
| `PushFanOut.Attempt.Dispatch` | src/backend/lib/notification-push.ts:804-903 | The replies decide who settles, who is retried, the longest wait and how it ends; when nothing cuts it short the two sets partition the list |
| `PushFanOut.RepliesDecide` | src/backend/lib/notification-push.ts:842-903 | A web row settles exactly when there is content, its call and all before it got through, and its own answer does not name it for retry; a group's row exactly when the web part is done and its group's own call does the same |
| `PushFanOut.Partition` | src/backend/lib/notification-push.ts:804-903 | When nothing cuts a fan-out short everyone is settled or retried, and nobody both |
| `PushFanOut.HintIsLongest` | src/backend/lib/notification-push.ts:820-841 | The wait passed on is the longest any answer asked for |
| `PushJob.Claimed.Process` | src/backend/lib/notification-push.ts:714-1011 | The whole claimed job, working from the list of the snapshot, with a failure possible at every await and after every write: the replies determine who settles, the final stored list and the retry time; if the snapshot's list agrees with the claimed row's, the stored list shrinks, and it keeps every live unsettled id exactly when the notification was eligible, its ineligibility was not recorded, or no live id was stored |
| `PushJob.Claimed.Deliver` | src/backend/lib/notification-push.ts:739-961 | The eligible part: the snapshot's list or a stored selection, then the deliveries; who settles is determined by the replies, and a last write leaves exactly the live ids that did not |
| `PushJob.Claimed.DeliverList` | src/backend/lib/notification-push.ts:781-961 | An empty list and one without rows are finished at once, otherwise the fan-out decides |
| `PushJob.Claimed.WriteExit` | src/backend/lib/notification-push.ts:905-961 | A finished fan-out delivers the job, a partial one stores the rest and waits for the longest hint or the doubling delay, whichever is later |
| `PushJob.DelayDoubles` | src/backend/lib/notification-push.ts:940-1011 | The delay doubles with each attempt |
| `PushJob.Claimed.Handle` | src/backend/lib/notification-push.ts:963-1011 | The exception handler counts one attempt, narrows the stored list once anything has settled, and leaves a row that was already written |
| `PushJob.DisagreementBreaks` | src/backend/lib/notification-push.ts:714-1011 | Whenever the lists disagree, one of three eligible attempts makes the stored list grow or drops a live unsettled id |
| `PushJob.StaleSelectionResends` | src/backend/lib/notification-push.ts:745-780 | The concrete run continued: the selection overwrites the stored list and a settled pusher is pending again |
| `PushJob.IneligibleExitDropsPending` | src/backend/lib/notification-push.ts:733-737 | A concrete job whose pending pusher is dropped without an answer |
| `GuardedWrites.NestedGuards` | src/db/guarded-writes.ts:95-121 | Through any nesting, a batch commits exactly when it fits, every guard holds before it and the payload runs; results are the payload's and no marker stays |
| `GuardedWrites.RefusedBySize` | src/db/guarded-writes.ts:95-121 | A facade refuses exactly an empty payload, and one with more than 50 statements once every level has added its two |
| `GuardedWrites.CommitsNeedFresh` | src/db/guarded-writes.ts:95-121 | A batch with a marker id already in use, in the table or at another level, never commits |
| `GuardedWrites.WrappedRun` | src/db/guarded-writes.ts:95-121 | Assertion, payload and cleanup run as the payload alone does |
| `AccountDeletion.NeverPartlyFinalized` | src/backend/routes/account-deletion-lifecycle.ts:46-394 | In every run each operation is either wholly reserved, its exact plan stored and every target alive under its key, or wholly finalized |
| `AccountDeletionLaws.ReservationPlans` | src/backend/routes/account-deletion-lifecycle.ts:46-146 | A reservation commits exactly when its root is alive as expected, has no operation, and nobody in scope is planned; it plans exactly the live root and, cascading, the live actors it owns, and touches nothing else |
| `AccountDeletionLaws.PlanOrigin` | src/backend/routes/account-deletion-lifecycle.ts:46-146 | In every run each plan is exactly the scope of its root in the state in which it was reserved |
| `AccountDeletionLaws.ActorsFate` | src/backend/routes/account-deletion-lifecycle.ts:46-394 | Over every run an actor's row survives unchanged, unless a finalized operation had it in its plan as the root or as owned by the root of a cascading plan |
| `AccountDeletionLaws.ClaimNeedsExpiry` | src/backend/routes/account-deletion-lifecycle.ts:148-172 | A claim wins exactly on a reserved operation whose lease has run out: the incarnation clauses never fail |
| `AccountDeletionLaws.RenewNeedsLease` | src/backend/routes/account-deletion-lifecycle.ts:174-191 | A heartbeat renews exactly a running lease that its worker holds |
| `AccountDeletionLaws.ReleaseFreesLease` | src/backend/routes/account-deletion-lifecycle.ts:278-288 | A release ends the tenure, and at once the lease if it is still its own |
| `AccountDeletionLaws.LostIncarnationStops` | src/backend/routes/account-deletion-lifecycle.ts:148-276 | In any state, once the root or a planned actor is gone, changed its key or is a tombstone, no claim, renewal or finalization goes through |
| `AccountDeletionLaws.ChangedKeyStops` | src/backend/routes/account-deletion-lifecycle.ts:204-276 | In any state, no teardown of an actor goes through once its key or the root's is not the planned one |
| `AccountDeletionLaws.TeardownNeedsLease` | src/backend/routes/account-deletion-lifecycle.ts:204-276 | Teardown goes through exactly under a running lease, for a planned actor |
| `AccountDeletionLaws.CompletionNeedsLease` | src/backend/routes/account-deletion-lifecycle.ts:204-276 | So does the completion mark, which sets that mark alone |
| `AccountDeletionLaws.FinalizationCommitsIff` | src/backend/routes/account-deletion-lifecycle.ts:204-276 | A finalization commits exactly under a running lease with every planned actor completed and no upload, attempt or blob job of theirs left |
| `AccountDeletionLaws.FinalizationErases` | src/backend/routes/account-deletion-lifecycle.ts:290-394 | It turns exactly the planned actors into tombstones, ends exactly their sessions, and removes the plan and the operation alone |
| `AccountDeletionLaws.WritesCommitIff` | src/backend/lib/account-deletion-admission.ts:43-111 | An ordinary write commits exactly when its actor is alive as expected and neither it nor its owner is in a plan still reserved |
| `AccountDeletion.FinalizationIsComplete` | src/backend/routes/account-deletion-lifecycle.ts:193-276 | A finalization that commits found every target complete, valid and without uploads, attempts or blob jobs, and leaves tombstones, no session and no plan |
| `AccountDeletion.OneWorkerCommits` | src/backend/routes/account-deletion-lifecycle.ts:148-276 | At one instant, whatever their clocks say, at most one worker passes an operation's guard |
| `AccountDeletion.SupersededNeverCommits` | src/backend/routes/account-deletion-lifecycle.ts:148-276 | A superseded worker's batches change nothing, now and after any run |
| `AccountDeletion.TakeoverSupersedes` | src/backend/routes/account-deletion-lifecycle.ts:148-172 | Claiming an expired operation supersedes the previous holder |
| `AccountDeletion.FencedGuardsFail` | src/backend/lib/account-deletion-admission.ts:43-111 | While reserved, no ordinary guard passes for a planned actor, an actor it owns, or their objects |
| `AccountDeletion.FencedWhileReserved` | src/backend/lib/account-deletion-admission.ts:43-111 | From reservation to finalization, through any expiries and takeovers, no write of a planned actor is journalled |
| `AccountDeletion.FencedWritesAbort` | src/backend/lib/account-deletion-admission.ts:43-111 | In every state of such a run a guarded write by a planned actor or one it owns at that moment changes nothing |
| `AccountDeletion.RunKeepsInv` | src/backend/routes/account-deletion-lifecycle.ts:46-394 | Plans and lease tokens stay consistent over every run |
| `AccountDeletionWorker.Worker.RenewLease` | src/backend/routes/account-deletion-lifecycle.ts:174-191 | Renewal succeeds exactly for a live lease on a valid plan; the worker then passes its guard for every target until the new expiry, and no other lease is touched |
| `AccountDeletionWorker.Worker.ReleaseLease` | src/backend/routes/account-deletion-lifecycle.ts:278-288 | No guard of this worker holds afterwards, a valid plan may be claimed at once, and every other guard is as it was |
| `AccountDeletionWorker.Worker.ReconcileAttempts` | src/backend/lib/media-upload-lifecycle.ts:72-97 | Reconciling succeeds exactly when every attempt of the actor has settled, there are at most 50 and storage deletes each, and then none is left |
| `AccountDeletionWorker.Worker.PurgeMedia` | src/backend/routes/account-teardown.ts:92-161 | Purging succeeds exactly when every key of the actor is claimable and deletable, and then no upload or job is left; other actors keep theirs |
| `AccountDeletionWorker.Worker.ProcessTarget` | src/backend/routes/account-deletion-lifecycle.ts:305-336 | One round of the first loop completes a target exactly when its attempts and keys can be cleared and the rest of its teardown goes through; otherwise it is not marked |
| `AccountDeletionWorker.Worker.ReconcileTarget` | src/backend/routes/account-deletion-lifecycle.ts:338-346 | One round of the second loop clears the remaining media or fails, exactly on the state of attempts, keys and storage |
| `AccountDeletionWorker.Worker.TearDownAll` | src/backend/routes/account-deletion-lifecycle.ts:305-336 | The first loop stops at the first failing target with exactly the ones before it marked |
| `AccountDeletionWorker.Worker.RunOperation` | src/backend/routes/account-deletion-lifecycle.ts:290-394 | The run deletes exactly when every planned target has no attempt still being put, at most 50 settled ones, only claimable keys with storage for them, and a teardown that goes through unless it was complete; otherwise it stops at the first failing target with exactly those before it complete, the plan whole and the lease released |
| `PostVisibility.LazyDecisionIsFullRule` | src/backend/lib/post-visibility.ts:172-321 | Skipping the follow and recipient queries, and taking the early exits, never changes the decision |
| `PostVisibility.WhoMayRead` | src/backend/lib/post-visibility.ts:172-321 | From columns and tables alone: who may read a direct, followers, public, unlisted, story or unknown-visibility row, blocked authors and named communities included |
| `PostVisibility.ReceiptRequires` | src/backend/lib/post-visibility.ts:221-321 | A receipt requires the follow exactly when the viewer is in the audience only by following, the projected recipient exactly when only the projection names the viewer, and the expiry exactly for somebody else's ending story |
| `PostVisibility.ReceiptIsSufficient` | src/backend/lib/post-visibility.ts:58-98 | Whatever states the five queries saw, where the receipt holds a fresh decision on the stored row allows the viewer exactly if it is not an expired story of an empty author read by an empty viewer |
| `PostVisibility.ForgottenExpiryOutlivesStory` | src/backend/lib/post-visibility.ts:221-321 | Empty viewer and empty author: the receipt still holds once the story has expired |
| `PostVisibility.ForgottenExpiryExample` | src/backend/lib/post-visibility.ts:221-321 | A concrete story whose receipt outlives it |
| `PostVisibility.ReceiptIsNotTooStrong` | src/backend/lib/post-visibility.ts:58-98 | An undisturbed decision's receipt holds in its own state |
| `CommunityVisibility.GateDecidesRule` | src/backend/lib/community-visibility.ts:133-196 | The single-object gate decides the plain rule, whichever membership row is returned |
| `CommunityVisibility.GateInTables` | src/backend/lib/community-visibility.ts:57-196 | The rule from the tables: no named community deleted and, if a named one is private, a signed-in viewer that is a member of a named private one |
| `CommunityVisibility.ReceiptCarries` | src/backend/lib/community-visibility.ts:133-196 | A receipt carries exactly the named communities, their stored rows, and a membership exactly when one of them is private |
| `CommunityVisibility.ReceiptImpliesRule` | src/backend/lib/community-visibility.ts:78-196 | A community receipt read over any two states implies the rule wherever it still holds |
| `CommunityVisibility.ReceiptHoldsAtOnce` | src/backend/lib/community-visibility.ts:78-96 | An undisturbed gate decision's receipt holds at once |
| `CommunityVisibility.CommunityIdsMembers` | src/backend/lib/community-visibility.ts:107-117 | The addressed communities are exactly the audience and the community column |
| `CommunityVisibility.CommunityReadableApIds` | src/backend/lib/community-visibility.ts:212-284 | The chunked page gate returns exactly the ids whose object passes the rule and, on distinct ids, exactly what the single-object gate admits |
| `CommunityVisibility.PageGateEqualsSingleGate` | src/backend/lib/community-visibility.ts:133-284 | On a page of distinct ids it admits exactly what the single-object gate admits |
| `Chunks.ChunkForInClause` | src/backend/lib/chunk.ts:22-33 | Chunks concatenate to the input, none is empty or too long, all but the last are full |
| `FollowEdges.SeverKeepsCounters` | src/backend/lib/follow-edge-mutations.ts:59-99 | Sever keeps every counter equal to its identity class's accepted rows and never meets the clamp |
| `FollowEdges.SeverPairKeepsCounters` | src/backend/lib/follow-edge-mutations.ts:181-194 | The same for both directions, leaving no row of the pair and every other row as it was |
| `FollowEdges.BlockKeepsCounters` | src/backend/lib/follow-edge-mutations.ts:196-217 | The same for a block, which is recorded |
| `FollowEdges.AcceptKeepsCounters` | src/backend/lib/follow-edge-mutations.ts:121-168 | Accept keeps the counters when the retained row is live, leaving it the one accepted row of the direction |
| `FollowEdges.AcceptDriftsOtherwise` | src/backend/lib/follow-edge-mutations.ts:121-168 | Otherwise each local endpoint counts exactly one row too many |
| `FollowEdges.AcceptKeepsCountersIff` | src/backend/lib/follow-edge-mutations.ts:121-168 | Accept keeps matching counters exactly when the retained row is live whenever the direction has a live row, or no endpoint is local |
| `FollowEdges.AcceptDriftExample` | src/backend/lib/follow-edge-mutations.ts:121-168 | A concrete accept after which a counter has no row behind it |
| `FollowEdges.FollowStore.SeverFollowDirection` | src/backend/lib/follow-edge-mutations.ts:59-119 | No row of the direction is left, every other row is as it was, matching counters still match |
| `FollowEdges.FollowStore.SeverFollowPair` | src/backend/lib/follow-edge-mutations.ts:181-194 | The same for both directions of a pair |
| `FollowEdges.FollowStore.BlockActorAndSeverFollowPair` | src/backend/lib/follow-edge-mutations.ts:196-217 | The block is recorded on the retained spelling, neither direction has a row left, matching counters still match |
| `FollowEdges.FollowStore.AcceptRetainedFollowDirection` | src/backend/lib/follow-edge-mutations.ts:121-168 | A live retained row becomes the one accepted row of its direction, and matching counters still match exactly under the condition above |
| `FollowLaws.SeverMeans` | src/backend/lib/follow-edge-mutations.ts:16-99 | Severing removes exactly the rows with one endpoint as given and the other of its identity, and lowers both counters by the accepted ones, stopping at 0 |
| `FollowLaws.PairMeans` | src/backend/lib/follow-edge-mutations.ts:181-217 | After a pair or a block exactly the rows of neither direction are left, and a block adds exactly its own row |
| `FollowLaws.AcceptedRows` | src/backend/lib/follow-edge-mutations.ts:121-168 | Of the direction an accept leaves the retained row alone, accepted if it was pending |
| `FollowLaws.AcceptedCounters` | src/backend/lib/follow-edge-mutations.ts:121-168 | Both counters shift by one for a live direction less its accepted rows, cut off at 0 |
| `FollowMove.MovedEdges` | src/backend/lib/account-migration.ts:202-446 | The eight statements leave at every pair exactly the edge a direct definition over the old graph gives |
| `FollowLaws.MovedCounters` | src/backend/lib/account-migration.ts:202-446 | The counters of every local actor after a Move, whether or not they matched before |
| `FollowLaws.MovedActivities` | src/backend/lib/account-migration.ts:202-446 | No activity is lost or changed, every re-follow edge has its activity, and each added one is the Follow of such an edge's own follower |
| `FollowMove.NoEdgeNamesOld` | src/backend/lib/account-migration.ts:202-446 | No edge names the old actor afterwards |
| `FollowMove.MoveKeepsCounters` | src/backend/lib/account-migration.ts:202-446 | Every local actor but the new one keeps counters equal to its accepted edges |
| `FollowMove.NewActorCounters` | src/backend/lib/account-migration.ts:202-446 | A local new actor's counters match exactly when it gained no accepted edge |
| `FollowMove.NewActorDrift` | src/backend/lib/account-migration.ts:202-446 | A concrete Move after which they do not |
| `FollowMove.LocalFollowersRefollow` | src/backend/lib/account-migration.ts:202-446 | Each other local follower has an edge to the new actor, and each created edge a persisted Follow of the same id |
| `FollowMove.MoveIsIdempotent` | src/backend/lib/account-migration.ts:202-446 | Run again with other random ids the batch changes nothing |
| `FollowMove.GraphStore.RewriteMovedFollowGraph` | src/backend/lib/account-migration.ts:202-446 | The statements in order produce the specified graph |
| `MoveRefollows.EnqueuePersisted` | src/backend/lib/account-migration.ts:146-187 | While rows come and go between pages: no row is handed over twice, rows go out in order in pages of at most 100, every row present throughout is among them; undisturbed, exactly the persisted re-follows |
| `ActorFetchLedger.BackoffBounds` | src/backend/lib/activitypub-actor-cache.ts:198-258 | A backoff is at least the lease, at least the remote hint, capped, and never shorter after more failures |
| `ActorFetchLedger.HintBounds` | src/backend/lib/activitypub-actor-cache.ts:209-225 | A Retry-After hint is between a second and a day and, up to a day, no shorter than asked |
| `ActorFetchLaws.HintIsLeast` | src/backend/lib/activitypub-actor-cache.ts:209-225 | A hint is the least number of whole seconds that reaches what was asked, between a second and a day |
| `ActorFetchLaws.KindsOfFailure` | src/backend/lib/activitypub-actor-cache.ts:227-243 | Gone is exactly a 410 or a tombstone, invalid exactly a document that is no usable actor |
| `ActorFetchLaws.WaitDoubles` | src/backend/lib/activitypub-actor-cache.ts:198-258 | 30 seconds or 5 minutes at first, twice as long with each failure, up to an hour |
| `ActorFetchLaws.HintLengthens` | src/backend/lib/activitypub-actor-cache.ts:245-258 | A remote hint only lengthens the wait |
| `ActorFetchLedger.ClaimsAreSpaced` | src/backend/lib/activitypub-actor-cache.ts:354-528 | In every run a claim that wins on an existing row comes at least 30 seconds after the previous one, unless a record without a token was untimely |
| `ActorFetchLaws.FailureIsKept` | src/backend/lib/activitypub-actor-cache.ts:354-428 | No run wins a claim on a failed row before its retry time, and none ever on an actor that is gone, without a removal or an unowned record of that very actor |
| `ActorFetchLaws.QuietClaim` | src/backend/lib/activitypub-actor-cache.ts:354-428 | An undisturbed claim wins exactly on an absent or open row, for 30 seconds |
| `ActorFetchLaws.FailureIsWritten` | src/backend/lib/activitypub-actor-cache.ts:431-528 | What a failure record leaves on its row, and exactly when it writes |
| `ActorFetchLaws.ReapSpares` | src/backend/lib/activitypub-actor-cache.ts:554-592 | Reaping removes exactly candidates unwritten for thirty days and without a running lease |
| `ActorFetchLaws.TombstonesAreFinal` | src/backend/lib/activitypub-actor-cache.ts:630-745 | A tombstoned actor is never cached again in any run |
| `ActorFetchLedger.OwnedRunsAreSpaced` | src/backend/lib/activitypub-actor-cache.ts:354-528 | Callers that always pass their token are spaced in every run |
| `ActorFetchLedger.UntimelyRecordBreaksSpacing` | src/backend/lib/activitypub-actor-cache.ts:469-528 | A record without a token keeps the spacing exactly when it is timely |
| `ActorFetchLedger.EarlyClaimExample` | src/backend/lib/activitypub-actor-cache.ts:469-528 | A concrete claim that comes too early |
| `ActorFetchLedger.StaleCompletionNeverWrites` | src/backend/lib/activitypub-actor-cache.ts:431-552 | A completion with a superseded token changes no row, now and after any run |
| `ActorFetchLedger.TakeoverSupersedes` | src/backend/lib/activitypub-actor-cache.ts:354-428 | A won takeover supersedes the old token |
| `ActorFetchLedger.Ledger.ClaimRemoteActorFetch` | src/backend/lib/activitypub-actor-cache.ts:354-428 | With anything happening between insert and takeover: exactly when a claim wins, what it writes, and that nothing may claim before its lease ends |
| `ActorFetchLedger.Ledger.RecordRemoteActorFetchFailure` | src/backend/lib/activitypub-actor-cache.ts:431-528 | A record writes exactly under its own token on an actor that is not cached; then no claim wins for the lease length, and another owner's row is never changed |
| `Framing.ParseSound` | src/backend/lib/strip-image-metadata.ts:49-211 | Parsing a framed container loses no byte |
| `Framing.ParseComplete` | src/backend/lib/strip-image-metadata.ts:49-211 | Well-formed frames parse back to themselves |
| `Framing.KeepFrames` | src/backend/lib/strip-image-metadata.ts:49-211 | Filtering keeps exactly the passing frames, in order |
| `StripImage.StrippedJpeg` | src/backend/lib/strip-image-metadata.ts:49-92 | The output reparses to exactly the kept segments, none dropped kind before the first scan, and stripping again changes nothing |
| `StripImageLaws.JpegStripped` | src/backend/lib/strip-image-metadata.ts:49-92 | A JPEG built from its segments byte by byte loses exactly its APP1, APP13 and COM segments; the scan is copied |
| `StripImageLaws.AcceptedJpegIsBuilt` | src/backend/lib/strip-image-metadata.ts:49-92 | Every accepted JPEG is built in that way |
| `StripImage.StripJpegBytes` | src/backend/lib/strip-image-metadata.ts:49-92 | The byte loop computes that transformation or refuses |
| `StripImage.StrippedPng` | src/backend/lib/strip-image-metadata.ts:100-134 | The output reparses to exactly the kept chunks, in order, and stripping again changes nothing |
| `StripImageLaws.PngStripped` | src/backend/lib/strip-image-metadata.ts:100-145 | A PNG built from its chunks loses exactly tEXt, zTXt, iTXt, eXIf and tIME, or is refused if the letters IEND are not in what is left |
| `StripImageLaws.AcceptedPngIsBuilt` | src/backend/lib/strip-image-metadata.ts:100-134 | Every accepted PNG is built in that way |
| `StripImage.PngAcceptedIff` | src/backend/lib/strip-image-metadata.ts:100-145 | A file that parses is accepted exactly when it ends with an IEND chunk or its kept bytes hold the letters at a place that is no type field |
| `StripImage.AcceptedHasIendIff` | src/backend/lib/strip-image-metadata.ts:100-145 | An accepted file has an IEND chunk exactly when the letters stand in the type field of a kept chunk |
| `StripImage.AcceptedWithoutIend` | src/backend/lib/strip-image-metadata.ts:136-145 | A concrete file that is accepted without an IEND chunk |
| `StripImage.ContainsPngChunk` | src/backend/lib/strip-image-metadata.ts:136-145 | The search finds the letters exactly when they occur from byte 8 on |
| `StripImage.StripPngBytes` | src/backend/lib/strip-image-metadata.ts:100-134 | The chunk loop with its stop at IEND computes that transformation or refuses |
| `StripImage.StrippedWebp` | src/backend/lib/strip-image-metadata.ts:161-211 | With a chunk removed, the stored size decodes to the length minus 8 and the kept bytes follow unchanged but for offset 20 |
| `StripImageLaws.WebpStripped` | src/backend/lib/strip-image-metadata.ts:161-211 | A WebP built from its chunks is returned as it is without EXIF and XMP, else loses exactly those, with the flags cleared and the size rewritten; one without chunks is refused |
| `StripImageLaws.AcceptedWebpIsBuilt` | src/backend/lib/strip-image-metadata.ts:161-211 | Every accepted WebP is built in that way |
| `StripImage.StripWebpAgain` | src/backend/lib/strip-image-metadata.ts:161-211 | A second pass returns the same bytes exactly when nothing was removed or a chunk survived |
| `StripImage.StrippedThenRefused` | src/backend/lib/strip-image-metadata.ts:161-211 | A concrete file that is stripped once and then refused |
| `StripImage.Encode32Decodes` | src/backend/lib/strip-image-metadata.ts:202-208 | The four size bytes decode to the size modulo 2^32 |
| `StripImage.StripWebpBytes` | src/backend/lib/strip-image-metadata.ts:161-211 | The chunk loop, flag clearing and size patch compute that transformation or refuse |
| `TalkReads.InitializeSucceeds` | src/backend/lib/talk-read-receipts.ts:167-184 | Initialization fails exactly for an unauthorized scope and otherwise turns the receipt rule on |
| `TalkLaws.UnreadExactly` | src/backend/lib/talk-read-receipts.ts:284-301 | Unread is what belongs to the scope and has no receipt or, before receipts, is dated after the last read; badges leave out the viewer's own |
| `TalkLaws.AuthorizedExactly` | src/backend/lib/talk-read-receipts.ts:43-55 | Who may read a scope, from the tables |
| `TalkLaws.AmbiguousExactly` | src/backend/lib/talk-read-receipts.ts:115-129 | A thread is ambiguous exactly when it holds a direct note between the viewer and a third actor |
| `TalkLaws.InitializeWrites` | src/backend/lib/talk-read-receipts.ts:131-184 | Initializing writes receipts up to the last read unless they are in use, points the mode row here, and nothing else |
| `TalkLaws.AcknowledgeWrites` | src/backend/lib/talk-read-receipts.ts:186-203 | Acknowledging adds the given messages' receipts, and nothing else |
| `TalkLaws.LegacyWrites` | src/backend/lib/talk-read-receipts.ts:205-232 | What the timestamp endpoint writes: receipts for the whole scope under receipts, and the time exactly when the thread is not shared |
| `TalkLaws.CleanupExactly` | migrations/0037_talk_observed_read.sql:31-62 | Which receipts and mode rows the triggers take away, and that they take no others |
| `TalkReads.InitializeKeepsUnread` | src/backend/lib/talk-read-receipts.ts:131-184 | Switching rules leaves the unread set as it was exactly when no earlier receipt covers a message newer than the timestamp |
| `TalkReads.ReturningReadsAgain` | src/backend/lib/talk-read-receipts.ts:131-184 | A concrete run in which moving to another thread and back changes the unread set |
| `TalkReads.InitializeAgain` | src/backend/lib/talk-read-receipts.ts:131-184 | Repeating it changes nothing |
| `TalkReads.AcknowledgeIsExact` | src/backend/lib/talk-read-receipts.ts:186-203 | An acknowledgement removes exactly the given ids from the unread set, when they are readable and distinct in a current scope, or aborts |
| `TalkReads.CountSaysAll` | src/backend/lib/talk-read-receipts.ts:186-203 | Comparing the row count with the id count tests readability and distinctness of every id |
| `TalkReads.LegacyReadClears` | src/backend/lib/talk-read-receipts.ts:205-232 | The timestamp endpoint leaves nothing of its scope unread but messages dated later |
| `TalkReads.LegacyReadSparesOthers` | src/backend/lib/talk-read-receipts.ts:115-129 | Whatever conversation ids collide, it leaves the badge of every other peer, community and viewer as it was |
| `TalkReads.UnreadUntilRead` | src/backend/lib/talk-read-receipts.ts:284-301 | In every run, with messages, members, actors and communities coming and going, a message without a receipt stays unread until someone reads it by name or its scope whole, or the scope ends |
| `TalkReads.LateMessageIsUnread` | src/backend/lib/talk-read-receipts.ts:284-301 | A message arriving under the receipt rule is unread, whatever its date |
| `TalkReads.TalkStore.InitializeObservedReads` | src/backend/lib/talk-read-receipts.ts:131-184 | The initialization batch, statement by statement |
| `TalkReads.TalkStore.AcknowledgeObservedReads` | src/backend/lib/talk-read-receipts.ts:186-203 | The acknowledgement batch: exact or without a trace |
| `TalkReads.TalkStore.ApplyLegacyTalkRead` | src/backend/lib/talk-read-receipts.ts:220-232 | The timestamp batch, statement by statement |
| `AddressExpansion.ExpandsExactlySpellings` | src/backend/lib/ssrf.ts:73-118 | An input expands to eight numbers exactly when, without case, brackets and zone, it is an allowed spelling of them |
| `AddressExpansion.SpellingExpands` | src/backend/lib/ssrf.ts:73-118 | Every spelling of section 2.2 of RFC 4291 expands to the eight numbers it stands for |
| `AddressExpansion.ExpandedIsEightHextets` | src/backend/lib/ssrf.ts:73-118 | Every accepted input yields eight numbers below 65536 |
| `AddressClass.WrappedSpelling` | src/backend/lib/ssrf.ts:74-76 | Upper case, brackets and a zone do not change what is parsed |
| `AddressClass.EveryAddressIsSpelled` | src/backend/lib/ssrf.ts:73-118 | For all eight hextets, in full or with any run of zeros left out, dotted or not, there is an allowed spelling |
| `AddressClass.PaddedGroup` | src/backend/lib/ssrf.ts:94-102 | A leading zero in a group changes nothing |
| `AddressClass.SpellingsClassifyAlike` | src/backend/lib/ssrf.ts:126-158 | All spellings of one address classify alike |
| `AddressBlocks.PrivateIffBlocked` | src/backend/lib/ssrf.ts:30-62 | An IPv4 address is private exactly when one of thirteen address blocks contains it as a number |
| `AddressBlocks.IPv4TextIffBlocked` | src/backend/lib/ssrf.ts:21-62 | A text is a private IPv4 address exactly when it is four decimal parts of a blocked one |
| `AddressBlocks.PrivateIPv6Iff` | src/backend/lib/ssrf.ts:120-158 | An IPv6 address is private exactly when it is unspecified, loopback, in one of five ranges, or carries a blocked IPv4 address |
| `AddressBlocks.SpellingIffBlocked` | src/backend/lib/ssrf.ts:73-158 | However it is spelled, an IPv6 address is private exactly when the address itself is blocked |
| `AddressClass.MappedClassifiesAsIPv4` | src/backend/lib/ssrf.ts:120-158 | An IPv4-mapped or IPv4-compatible address is private exactly when its IPv4 address is |
| `AddressClass.TranslatedClassifiesAsIPv4` | src/backend/lib/ssrf.ts:120-158 | The same for NAT64 and 6to4 |
| `AddressClass.ParseGroupsByLoop` | src/backend/lib/ssrf.ts:94-102 | The group loop parses all groups or refuses |
| `AddressClass.Expand` | src/backend/lib/ssrf.ts:73-118 | The expansion as it reassigns its working string |
| `BatchInsert.ChunksAreTheRows` | src/db/d1-write.ts:189-239 | For every cost function the chunks concatenate to the rows and each costs at most 90 |
| `BatchInsert.StatementsWithinLimits` | src/db/d1-write.ts:189-251 | At most 50 statements, each within the budget, holding the rows in order |
| `BatchInsert.ShapeErrorIffRow` | src/db/d1-write.ts:220-235 | Under a monotone cost a shape error is reported exactly when some single row is over the budget |
| `BatchInsert.UniformPlan` | src/db/d1-write.ts:211-251 | With rows of equal cost p every chunk but the last has floor(90/p) rows, and the plan is refused exactly above 50 of them |
| `BatchInsert.InsertMany` | src/db/d1-write.ts:189-251 | The outer loop terminates and returns the plan |
| `BatchInsert.NextChunk` | src/db/d1-write.ts:218-235 | The compile-and-shrink loop terminates on the size the plan uses |
| `BatchInsert.Table.ReplaceSet` | src/db/d1-write.ts:260-280 | The set is replaced whole, conflicting rows skipped if so asked, or nothing changed, and exactly when it is refused |
| `BatchInsert.SurvivorsAre` | src/db/d1-write.ts:260-280 | Each row that is not deleted stays, as often as it was there, and no other |
| `BatchInsert.SurvivorsInOrder` | src/db/d1-write.ts:260-280 | They stay in order |
| `BatchInsert.AbsorbMeans` | src/db/d1-write.ts:198-207 | Ignoring conflicts leaves the old rows in place, each new row or one of its key, nothing else, and no two rows of one key |
| `BatchInsert.InsertedConcat` | src/db/d1-write.ts:211-239 | Chunked inserts, conflicts ignored or not, leave what one insert would |
| `BlocklistPurge.PageKeepsCounters` | src/backend/lib/blocklist-purge.ts:187-411 | A page keeps every counter equal to its edges exactly when it removes no accepted follow of a local actor on the purged side |
| `BlocklistPurge.ObjectsAreRecounted` | src/backend/lib/blocklist-purge.ts:187-335 | A page of likes, announces or shares sets the counter of exactly its targets to the rows left, whatever it was before |
| `BlocklistPurge.ActorsAreRecounted` | src/backend/lib/blocklist-purge.ts:336-411 | A page of follows sets the counter of exactly its local targets to the accepted follows left |
| `BlocklistPurge.LocalPurgeDrifts` | src/backend/lib/blocklist-purge.ts:336-411 | A concrete page that breaks the counter of a local purged actor |
| `BlocklistPurge.RunKeepsInv` | src/backend/lib/blocklist-purge.ts:147-411 | With others writing between any two steps and stopped anywhere, counters match and no finished table holds a matching row |
| `BlocklistPurge.PurgeTerminates` | src/backend/lib/blocklist-purge.ts:147-156 | However others interleave, the number of purge steps is bounded by a measure of the start |
| `BlocklistPurge.PurgeNeverStuck` | src/backend/lib/blocklist-purge.ts:147-156 | Until it has finished the purge always has a next step |
| `BlocklistPurge.Purge.DrainAffectedEdges` | src/backend/lib/blocklist-purge.ts:147-156 | One drain removes exactly the matching rows of its table |
| `BlocklistPurge.Purge.PurgeRetainedInteractionEdges` | src/backend/lib/blocklist-purge.ts:187-411 | All eight drains leave no matching row, every other row and follow status, and matching counters |

## Left out

- HTTP routes, sessions, cookies, realtime events and queue transport.
- DNS, Web Push, gateway HTTP exchanges and cryptography: a delivery is an arbitrary answer whose retry ids are a subset of the ids given to it, a lost lease, or an exception.
- Drizzle builder proxies and query compilation: a guarded database is its atomic batch, an insert's cost an arbitrary function of its rows.
- Decoding of stored JSON columns (recipients, pending ids, note patches): lists and patches are already decoded.
- `admitSessionRequest`, which swaps the request's database handle.
- The table list torn down by `teardownActor`: apart from upload attempts and media, a target's teardown is one step that goes through or fails.
- The purge of media blobs, posts and activities of a blocked actor, and the scan for alias spellings: the actor predicate of the drains is arbitrary.
- Database triggers, except the push job's insert and removal with its inbox row, the cleanup of talk receipts and modes, and the removal of a claimed upload's row.
- The SQL and JavaScript normal forms of actor URLs: identity classes and block lists are abstract, and nothing says the two forms agree.
- Row order within a page or a batch where the result does not depend on it.
- Timing of push dispatch: recovery may reset a live lease, so writes are fenced and network sends are not.
- Case folding beyond ASCII in addresses: no other character folds to a digit, a colon or a dot.
- Unknown row keys in `insertMany`, which are refused before chunking.
- Archiving a conversation, which writes only to the archive tables.
- What a Create handler rewrites in an existing note before folding: any change is allowed and recorded.
- ActorFetchLedger.ClaimsAreSpaced: the exception is stated on the record step, where `UntimelyRecordBreaksSpacing` gives its exact condition.
- AccountDeletionWorker.Worker.RunOperation: one uninterrupted worker whose clock reading passes its guards; interruption and takeover are in `AccountDeletion`. Whether a key is claimable when its owner's turn comes, and whether the other deletes of a teardown go through, are inputs.
