# Register verification model

A Dafny model of an expense register: a FastAPI service over MongoDB and the desktop client
that talks to it. The model follows the service's own parts.

- **Stored badges** (`Badges`, `BadgeStore`, `Coverage`, `Composite`, `Lifecycle`,
  `Register`, `Runs`, `Indexes`, `Patching`, `Reapproval`, `Moves`, `Writes`, `Gate`,
  `Journeys`, `Unadjusted`): one document with six global counts and per-cashier draft and parked
  counts, adjusted by deltas around the writes of some twenty-eight handlers. The class
  `Register` holds the collection and the document and is updated in place; the whole-run
  theorem says the document equals a full recount after any sequence of handler calls. Where
  a handler does not keep that, the exact condition is stated instead. `Writes` says row by
  row and field by field what each handler stores, `Gate` what approval asks of a row.
- **Creating rows** (`Creation`, `Retries`, `Register`): bulk create refines one-at-a-time creates
  under an enforced unique index and one prefetch.
- **Pending edits** (`RoundTrip`): clone, edit any number of times, re-approve, compared
  with one direct edit.
- **Imports** (`Words`, `Layout`, `Imports`, `DailyImport`, `Payloads`, `MasterImport`):
  batches, duplicates, payee backfill and runs that die anywhere; what is stored is read off
  the payloads.
- **Catalog** (`Catalog`, `Snapshots`, `Decimal`): writers, API processes and clients as interleaved
  steps cut at each await.
- **Sessions and leases** (`Tokens`, `Reuse`, `Lease`): refresh rotation on server and
  client, cancelled refreshes included, and the database lease around the first user, as
  interleaved steps.
- **Queries, labels, amounts, charts** (`MasterQuery`, `Filters`, `Search`, `Spread`, `Plates`,
  `Amounts`, `Charts`): dictionaries with a meaning, the search box, the plate sort key,
  printing and reading amounts, and the chart loops.

`Mongo` is the part of MongoDB used: documents as maps from field to scalar, with missing
and null kept apart, query dictionaries with a denotation, and the writes.

## How the model reads the code

- Each badge handler is one atomic step: load, write, adjust. What `find` may choose (the
  open clone it returns, the order it lists rows in) is a parameter of the call.
- `Runs.Allowed` is what a call must bring: new ids are new, register documents carry no
  import keys, a bulk patch notes each row once or has distinct ids and no silent arrivals.
  Writes of arbitrary fields must leave rows that obey the two laws of `Runs.RowLaw`, and
  writes of indexed fields are ones that MongoDB accepts; the unique indexes themselves are
  an invariant of the run.
- Properties found false of the code, each with its exact condition for all inputs:
  re-approving rows that are their own originals (`Composite.ReApproveExact`,
  `Reapproval.CascadesExact`), restoring discarded rows
  (`Unadjusted.RestoreDiscardedExact`), a bulk patch with silent moves or repeated ids
  (`Patching.PatchExact`, `Patching.DistinctPatchExact`, `Patching.RepeatedIdExact`), an
  aborted resubmit (`Unadjusted.LostResubmitExact`), the five handlers that never adjust
  (`Register`), a daily import without an upload id (`DailyImport.RepeatInsertsNothing`,
  `DailyImport.Importer.CommitUntilDone`), a stale mark set while a request is in flight
  (`Catalog.MarkIsLostExactlyWhenBehind`), a refresh cancelled in flight
  (`Reuse.ReuseExactly`, `Reuse.CancellationEndangers`, `Reuse.CancellationResends`), a
  second first user (`Lease.SecondUserExactly`), plate numbers of eleven digits and more
  (`Plates.KeysAgreeWithNumbers`).
- The docstring of `commit_daily_to_master` promises that a retry of the same upload cannot
  duplicate rows; the code keeps that exactly when the first kept row names the upload, and
  the model follows the code.
- Money is in integer minor units and time in whole seconds.

## Model

| member | source | states |
|---|---|---|
| `Badges.MembershipIsCountQuery` | backend/app/badge_counters.py:55-111 | for every document, with fields missing, null, false, true or anything else, each in-process badge predicate holds exactly when the Mongo count query of the same badge matches |
| `Badges.InboxMeaning` | backend/app/accountant_ops.py:47-60 | the inbox and edited count queries select exactly the Verify and Edited rows |
| `Badges.DraftOrParkedIsOpenStage` | backend/app/transaction_ops.py:12-38 | the draft-or-parked query selects exactly the union of open drafts and open parked rows |
| `Badges.BadgePartsAreDisjoint` | backend/app/badge_counters.py:55-111 | Verify, deletion-request and restore-request rows are pairwise disjoint, Edited lies inside Verify, Drafts and Parked are disjoint |
| `Badges.TallyIsCountDocuments` | backend/app/badge_counters.py:369-412 | the recount of a badge by predicate is the number of documents its query matches |
| `Badges.ShelfMeans` | backend/app/badge_counters.py:112-147 | a shelf counts an open row for the account its cashier field holds, and a row whose cashier is missing or null for nobody |
| `Badges.NotedFollowsRecount` | backend/app/badge_counters.py:308-322 | noting one faithful change per touched row, over any set of rows, moves every counter exactly as a full recount moves |
| `Badges.NotedIgnoresOrder` | backend/app/badge_counters.py:308-322 | a batch of changes may be noted in any order |
| `Badges.DeltasTelescope` | backend/app/badge_counters.py:120-147 | the deltas along a row's whole history add up to what its last version counts, zero or one, never less |
| `BadgeStore.TransitionDelta` | backend/app/badge_counters.py:120-147 | the totals and per-cashier dictionaries hold only non-zero entries and equal the change of every counter |
| `BadgeStore.IncDocument` | backend/app/badge_counters.py:269-296 | the `$inc` document carries exactly the non-zero amounts of every total and every cashier shelf |
| `BadgeStore.CashierBuckets` | backend/app/badge_counters.py:415-440 | one pass over the open rows counts every cashier's drafts and parked rows |
| `BadgeStore.ListingCountsRows` | backend/app/badge_counters.py:415-440 | counting any duplicate-free listing of the rows gives the set recount |
| `Register.Register.AdjustBadges` | backend/app/badge_counters.py:269-296 | every stored counter moves by its own delta and no other moves |
| `Register.Register.NoteTransition` | backend/app/badge_counters.py:299-305 | one row change moves every counter by after minus before |
| `Register.Register.NoteMany` | backend/app/badge_counters.py:308-322 | one accumulated `$inc` moves every counter as noting each change in turn would |
| `Register.Register.ApplyRemembered` | backend/app/badge_counters.py:354-366 | an unmodified write adjusts nothing, any other notes every remembered row |
| `Register.Register.Repair` | backend/app/badge_counters.py:369-412 | after a repair every counter equals its recount |
| `Coverage.NothingModified` | backend/app/badge_counters.py:354-366 | the `modified == 0` skip is sound: such an update left every row as it was |
| `Coverage.RememberedUpdateTracks` | backend/app/badge_counters.py:325-366 | noting all picked rows with the handler's short change list follows the recount of the real write, whether or not each row was modified |
| `Coverage.RememberedDeleteTracks` | backend/app/badge_counters.py:354-366 | noting the remembered rows as removed follows the recount of a delete |
| `Coverage.SameCountedCovers` | backend/app/badge_counters.py:338-366 | a change list that repeats the counted fields of a write counts every document like the real write, projection included |
| `Register.Register.Patch` | backend/app/transactions_api.py:2331-2354 | a patch stores the values and moves every counter as its recount |
| `Register.Register.Delete` | backend/app/transactions_api.py:2358-2376 | a delete removes the row and moves every counter as its recount |
| `Register.Register.SubmitDay` | backend/app/transactions_api.py:1466-1512 | submitting a day changes exactly the selected rows and keeps counters and recount in step |
| `Register.Register.DiscardDrafts` | backend/app/transactions_api.py:1409-1434 | discarding drafts by id removes exactly the selected rows and keeps counters and recount in step |
| `Register.Register.DiscardDay` | backend/app/transactions_api.py:1438-1462 | the same for a whole day, where the day's `$or` is merged into the draft query |
| `Register.Register.Resubmit` | backend/app/transactions_api.py:1185-1235 | any list of entries, repeated ids included, is written and noted in step with the recount, and each row that was rejected is counted once in the answer; when a later entry cannot be coerced the earlier writes stay, nothing is noted, and the counters are right exactly when that abort is harmless |
| `Unadjusted.LostResubmitExact` | backend/app/transactions_api.py:1199-1225 | an abort after any list of entries, carrying any fields, leaves the counters right exactly when no entry brings a row back to an open list and in each request queue as many of the rows arrive as leave |
| `Unadjusted.ResubmitDrift` | backend/app/transactions_api.py:1199-1225 | the drift an abort leaves in each counter is the rows that entered it minus the rows that left it, entry by entry |
| `Unadjusted.QuietAbortExact` | backend/app/transactions_api.py:1199-1225 | when no entry carries a counted flag, an abort is harmless exactly when no entry brings a row back to an open list |
| `Register.Register.BulkPatch` | backend/app/transactions_api.py:2157-2215 | a bulk patch of any list applies all edits and notes edits of counted flags from the rows before the request; the counters stay right exactly when nothing is misnoted, which for distinct ids means exactly that no shelf of a cashier has silent arrivals, and which holds whenever no row has two edits of counted flags and no other edit names a cashier |
| `Patching.NotedOnceFollows` | backend/app/transactions_api.py:2170-2201 | any list in which no row has two edits of counted flags and no other edit names a cashier, rows repeated or not, leaves all counters right |
| `Patching.PatchDrift` | backend/app/transactions_api.py:2170-2201 | for any list, repeated ids included, the drift of each counter is what each edit really changed minus what was noted for it |
| `Patching.PatchExact` | backend/app/transactions_api.py:2170-2201 | for any list, the counters stay right exactly when no counter is misnoted |
| `Patching.DistinctPatchExact` | backend/app/transactions_api.py:2170-2201 | distinct rows: right exactly when for every cashier and shelf as many open rows silently arrive as leave |
| `Patching.DistinctPatchDrift` | backend/app/transactions_api.py:2170-2201 | distinct rows: totals never drift, and each cashier's shelf drifts by its silent arrivals |
| `Patching.SettledPatchFollows` | backend/app/transactions_api.py:2170-2201 | distinct rows: right whenever no edit without counted flags hands an open draft or parked row to another cashier |
| `Patching.OneHandOverIsWrong` | backend/app/transactions_api.py:2170-2201 | and wrong as soon as exactly one does |
| `Patching.RepeatedIdExact` | backend/app/transactions_api.py:2170-2201 | any number of edits of one row: right exactly when, counter by counter, the notes taken from its first version add up to the whole change |
| `Patching.SamePatchAgainExact` | backend/app/transactions_api.py:2170-2201 | the same edit of counted flags sent two or more times: right exactly when it leaves the row counted as before |
| `Register.Register.RequestDelete` | backend/app/transactions_api.py:2380-2487 | a clone is deleted, an unverified row trashed, a verified row queued, with counters in step in every branch |
| `Register.Register.RequestRestore` | backend/app/transactions_api.py:2491-2534 | a restore request on the cashier's verified trash is stored once and noted |
| `Register.Register.CancelRestore` | backend/app/transactions_api.py:2538-2573 | withdrawing a restore request keeps counters and recount in step |
| `Register.Register.RestoreOwnTrash` | backend/app/transactions_api.py:2063-2114 | restoring own unverified trash keeps counters and recount in step |
| `Register.Register.PurgeOwnTrash` | backend/app/transactions_api.py:2118-2149 | purging own unverified trash keeps counters and recount in step |
| `Register.Register.Discard` | backend/app/transactions_api.py:1098-1124 | discarding rejected rows adjusts no counter and no recount moves |
| `Register.Register.RestoreDiscarded` | backend/app/transactions_api.py:1128-1153 | restoring discarded rows adjusts no counter, which is right exactly when no restored row comes back to a draft or parked shelf |
| `Unadjusted.RestoreDiscardedExact` | backend/app/transactions_api.py:1139-1146 | clearing `discarded` without a note is right exactly when no row it clears becomes an open draft or parked row |
| `Register.Register.Approve` | backend/app/accountant_actions_api.py:117-154 | approval writes nothing when a row asked for has a missing, null or blank payee, or a blank item (a missing or empty one gives way to the category name); otherwise it takes the unverified rows and keeps counters and recount in step |
| `Register.Register.Reject` | backend/app/accountant_actions_api.py:157-193 | rejection keeps counters and recount in step |
| `Register.Register.ReturnToInbox` | backend/app/accountant_actions_api.py:431-446 | returning a rejected row keeps counters and recount in step |
| `Register.Register.ReApproveOne` | backend/app/accountant_actions_api.py:339-417 | cascade or simple re-approval: the rows it leaves and the notes it applies |
| `Register.Register.ReApprove` | backend/app/accountant_actions_api.py:421-427 | single re-approval writes nothing for a row without item or payee; it keeps counters and recount in step exactly when it is refused or the row is not an open one that names itself as its original |
| `Register.Register.BulkReApprove` | backend/app/accountant_actions_api.py:197-240 | nothing is written when any row asked for lacks item or payee; else cascades in the listed order and one write for the rest; counters and recount stay in step exactly when it is refused or no cascaded row, at its turn, is an open one that names itself as its original |
| `Gate.RefusedMeans` | backend/app/accountant_actions_api.py:91-113 | approval and re-approval are refused exactly when some row asked for has a missing, null or blank payee, or a blank item, where a missing or empty item gives way to the category name |
| `Gate.ApprovedWasComplete` | backend/app/accountant_actions_api.py:117-154 | a row that approval verifies was asked for, had a payee and an item or category, and still has them |
| `Gate.ReApprovedWasComplete` | backend/app/accountant_actions_api.py:339-427 | a row that re-approval verifies was complete itself, or takes the payee of its complete clone |
| `Gate.BulkReApprovedWasComplete` | backend/app/accountant_actions_api.py:197-240 | in bulk, every row verified is a complete one that was asked for, or the original of one |
| `Reapproval.CascadesExact` | backend/app/accountant_actions_api.py:210-217 | a list of cascades leaves every counter right exactly when no entry is deducted twice at its turn |
| `Reapproval.TwiceIsTooLow` | backend/app/accountant_actions_api.py:339-389 | a row deducted twice leaves each counter of open rows too low by what the row counted there |
| `Composite.ReApproveExact` | backend/app/accountant_actions_api.py:339-389 | re-approval leaves the counters right exactly unless an unverified row that is its own original is counted as open, which is deducted twice |
| `Register.Register.ConfirmDeletion` | backend/app/accountant_deletions_api.py:304-360 | clones go, the row moves to trash, counters and recount stay in step over both writes; the answer is ok exactly when the row is there and was trashed |
| `Register.Register.RestoreDeletion` | backend/app/accountant_deletions_api.py:364-386 | taking a deletion request back keeps counters and recount in step |
| `Register.Register.ConfirmRestore` | backend/app/accountant_restores_api.py:243-317 | granting restore requests, single or bulk, keeps counters and recount in step |
| `Register.Register.RejectRestore` | backend/app/accountant_restores_api.py:270-341 | refusing restore requests, single or bulk, keeps counters and recount in step |
| `Register.Register.RestoreFromTrash` | backend/app/accountant_trash_api.py:156-236 | restoring from trash, single or bulk, keeps counters and recount in step |
| `Register.Register.PurgeTrash` | backend/app/accountant_trash_api.py:188-257 | purging trash, single or bulk, keeps counters and recount in step |
| `Register.Register.DeleteDiscarded` | backend/app/transactions_api.py:1157-1181 | never adjusts: right exactly when no deleted row was counted |
| `Register.Register.DeleteDailyUpload` | backend/app/imports_api.py:239-278 | never adjusts: right exactly when no deleted row was counted |
| `Register.Register.BulkRestoreDeletions` | backend/app/accountant_deletions_api.py:280-300 | never adjusts: right exactly when nothing was restored |
| `Register.Register.BulkConfirmDeletions` | backend/app/accountant_deletions_api.py:240-276 | never adjusts: right exactly when no counted clone was deleted and nothing was trashed |
| `Register.Register.BulkRequestRestore` | backend/app/transactions_api.py:2021-2059 | never adjusts: right exactly when nothing was asked for |
| `Unadjusted.AnsweredDrift` | backend/app/accountant_deletions_api.py:280-300 | answering deletion requests without a note leaves their badge too high by the number of rows answered |
| `Unadjusted.QuietDeleteExact` | backend/app/transactions_api.py:1165-1171 | deleting without a note is right exactly when every deleted row is counted nowhere |
| `Unadjusted.ImportsNeedNoNote` | backend/app/import_ops.py:123-206 | imported rows are counted nowhere, so inserting them without a note is right |
| `Runs.Run` | backend/app/badge_counters.py:269-366 | any sequence of the handlers, from any lawful register, moves every counter as its recount and keeps the unique indexes; from a repaired document all counters stay equal to the recount and non-negative |
| `Runs.WorkflowKeepsLaw` | backend/app/accountant_actions_api.py:156-446 | every workflow step keeps 'discarded implies rejected or verified' and makes no row its own original; only arbitrary-field writes are excluded |
| `Writes.TruthyMeans` | backend/app/transactions_api.py:2398 | what counts as set in a row: present and neither null, false, zero nor the empty text |
| `Writes.SubmitWrites` | backend/app/transactions_api.py:1466-1512 | submitting a day stores the submitted status on exactly the rows of the day, and nothing else |
| `Writes.ApproveWrites` | backend/app/accountant_actions_api.py:117-154 | approval picks rows stored as not verified, stores six fields, drops the mark of a duplicate, and changes no other field or row |
| `Writes.RejectWrites` | backend/app/accountant_actions_api.py:157-193 | rejection stores four fields on whatever rows are asked for |
| `Writes.ReturnWrites` | backend/app/accountant_actions_api.py:431-446 | a return picks a rejected row and clears rejection, reason and discard |
| `Writes.ResubmitWrites` | backend/app/transactions_api.py:1185-1225 | an entry is stored on the cashier's own rejected row that is not discarded, with the marks of an open row and its editor |
| `Writes.DiscardWrites` | backend/app/transactions_api.py:1098-1124 | discarding marks the cashier's own rejected rows among the ids |
| `Writes.DiscardedWrites` | backend/app/transactions_api.py:1128-1181 | the cashier's own discarded rows among the ids come back or go for good |
| `Writes.RequestDeleteWrites` | backend/app/transactions_api.py:2380-2487 | an unverified row that is an edit of another is removed; any other unverified row is trashed unless it is in trash; a verified one is marked, each with its fields |
| `Writes.ConfirmWrites` | backend/app/accountant_deletions_api.py:304-345 | a confirmed deletion removes every row that points at the row and stores the trash fields on it; without a request nothing changes |
| `Writes.RestoreDeletionWrites` | backend/app/accountant_deletions_api.py:364-386 | taking a request back clears its three fields on that row |
| `Writes.BulkDeletionWrites` | backend/app/accountant_deletions_api.py:240-300 | the bulk forms: requests cleared, and edits of any row named removed before the requested rows are trashed |
| `Writes.UploadRemoves` | backend/app/imports_api.py:239-278 | exactly the rows that carry the upload id are removed |
| `Writes.TrashWrites` | backend/app/accountant_trash_api.py:156-257 | trash among the ids comes back with six fields cleared, or is removed |
| `Writes.OwnTrashWrites` | backend/app/transactions_api.py:2063-2149 | the same for unverified rows that the cashier owns or trashed |
| `Writes.AskRestoreWrites` | backend/app/transactions_api.py:2491-2534 | a request is stored on the cashier's verified trash when it has none yet |
| `Writes.CancelRestoreWrites` | backend/app/transactions_api.py:2538-2573 | withdrawing clears the three fields of the request |
| `Writes.BulkAskWrites` | backend/app/transactions_api.py:2021-2059 | in bulk, rows already asked for are left alone |
| `Writes.AnswerRestoreWrites` | backend/app/accountant_restores_api.py:243-341 | granting clears trash and request, refusing clears the request, on exactly the trashed rows asked for |
| `Writes.PendingEditWrites` | backend/app/transactions_api.py:2578-2651 | an edit lands on the open edit row, or on a copy of the original without its five key fields and with a date of its own, with ten audit fields |
| `Writes.OpenEdits` | backend/app/transactions_api.py:2606-2614 | an open edit is an unverified, edited and unrejected row that points at the original |
| `Writes.ReApproveWrites` | backend/app/accountant_actions_api.py:391-417 | re-approval of a row that is no edit stores six fields |
| `Writes.EditReApproveWrites` | backend/app/accountant_actions_api.py:339-389 | re-approval of an edit gives its twenty-three content fields to the row it points at, with the verification and the last editor, and removes it; nothing happens when that row is gone or would stay as it is |
| `Indexes.StepKeepsIndexes` | backend/app/import_ops.py:299-341 | every step of every handler keeps the unique indexes, unless the caller writes an indexed field by hand |
| `Indexes.CloneHasNoEntries` | backend/app/transactions_api.py:2637-2651 | an edited clone has no entry in any unique index |
| `Indexes.CreateAllKeepsIndexes` | backend/app/transactions_api.py:1703-1754 | creates, one request at a time, keep the unique indexes they meet |
| `Indexes.ReApprovalKeepsEntries` | backend/app/accountant_actions_api.py:339-417 | re-approval leaves every remaining row with the index entries it had |
| `Journeys.DraftIsApproved` | backend/app/accountant_actions_api.py:266-299 | a complete draft of the day is in the inbox after the day is submitted, and verified and counted nowhere after approval |
| `Journeys.RejectedComesBack` | backend/app/transactions_api.py:1199-1223 | a rejected inbox row that its cashier resubmits is back in the inbox |
| `Journeys.RejectedIsReApproved` | backend/app/accountant_actions_api.py:391-417 | a rejected, complete row that is no clone ends verified and in no open list when it is re-approved |
| `Journeys.DeletedAndRestored` | backend/app/accountant_restores_api.py:297-317 | a verified row whose deletion is asked for and confirmed and whose restore is asked for and granted ends live and counted nowhere; its clones are gone and every other row is untouched |
| `Journeys.ConfirmedAndTakenBack` | backend/app/accountant_trash_api.py:212-236 | a confirmed deletion taken back out of trash leaves the row verified and counted nowhere |
| `Composite.DiscardKeepsTallies` | backend/app/transactions_api.py:1098-1124 | setting discarded on rejected rows changes no recount |
| `Composite.RestoreDiscardedKeepsTallies` | backend/app/transactions_api.py:1128-1153 | clearing discarded changes no recount wherever the discard law holds |
| `Runs.VerifyBadgeCountsRows` | backend/app/badge_counters.py:150-172 | with an exact document the Verify badge is the number of distinct rows awaiting the accountant |
| `Runs.NewBadgeCountsUnedited` | backend/app/badge_counters.py:159-172 | 'new' is the number of unedited inbox rows and is never clamped |
| `Runs.DraftBadgeCountsRows` | backend/app/badge_counters.py:217-226 | the draft badge counts distinct open draft and parked rows |
| `Runs.CashierBadgeCountsRows` | backend/app/badge_counters.py:217-226 | a cashier's draft badge counts that cashier's distinct open rows |
| `Moves.SubmitSelectorMeans` | backend/app/transactions_api.py:1466-1500 | the submit query selects exactly the day's rows that are neither verified, rejected nor discarded and are draft or have no status |
| `Moves.RegisterDayMeans` | backend/app/transaction_ops.py:64-82 | the register-day clause selects rows by primary import date, or by own date when there is none |
| `Moves.DraftSelectorsMean` | backend/app/transactions_api.py:1409-1450 | both draft discards select exactly counted drafts in scope, by id or by day |
| `Moves.OwnTrashMeans` | backend/app/transactions_api.py:1968-1971 | the trash scope selects trashed rows the cashier owns or trashed |
| `Moves.SubmitMoves` | backend/app/transactions_api.py:1466-1512 | a submitted row leaves the drafts and enters the inbox exactly when it is unverified, live and not queued for deletion; no other row changes |
| `Moves.RejectThenReturn` | backend/app/accountant_actions_api.py:303-446 | rejecting closes an inbox row and returning it undoes that up to the cleared reason |
| `Moves.AskThenTakeBack` | backend/app/transactions_api.py:2466-2487 | asking for a deletion queues a verified row and taking it back leaves it counted as before |
| `Moves.ConfirmMoves` | backend/app/accountant_deletions_api.py:304-345 | a confirmed deletion removes exactly the row's clones, trashes the row and leaves every other row alone |
| `Moves.RestoreRequestAnswered` | backend/app/accountant_restores_api.py:297-341 | a restore request is queued, and either answer takes it out, back live or still in trash |
| `Moves.DiscardThenRestore` | backend/app/transactions_api.py:1098-1153 | restoring the discarded rows undoes a discard, row by row |
| `Moves.OwnUnverifiedMeans` | backend/app/transactions_api.py:2063-2085 | own trash actions pick exactly the cashier's unverified trash among the ids |
| `Moves.RestoreSelectorsMean` | backend/app/transactions_api.py:2491-2552 | restore requests pick the cashier's verified trash, withdrawals the cashier's queued trash |
| `Moves.TrashThenRestoreOwn` | backend/app/transactions_api.py:2430-2465 | deleting an unverified row trashes it, counted nowhere, and restoring it leaves it counted as before |
| `Moves.ResubmitMoves` | backend/app/transactions_api.py:1199-1223 | a resubmitted row is no longer rejected and enters the inbox exactly when it was live, submitted and unverified |
| `Register.Register.CreateOne` | backend/app/transactions_api.py:1703-1754 | a document with a client row id and a cashier is answered as already existing, with that row, exactly when a row with both is stored, and created exactly when none is; rows and counters stay in step |
| `Register.Register.BulkCreate` | backend/app/transactions_api.py:1792-1965 | the same rows, the same answer per index and the same badge movement as creating the items one request at a time; the second of two items with one cashier and client row id is answered as already existing with a stored row of that pair; every slot is filled and the unique indexes hold afterwards |
| `Register.Register.PlanInserts` | backend/app/transactions_api.py:1808-1838 | errors and prefetched rows are answered as one-at-a-time creation would answer, and exactly the rest is planned for insertion |
| `Creation.ClashMeansSameClientRow` | backend/app/transactions_api.py:1712-1741 | for register documents the unique index refuses exactly what the lookup by cashier and client row finds |
| `Creation.PrepareStep` | backend/app/transactions_api.py:1822-1838 | skipping a prefetched key, or inserting anything else, ends in the rows of one more single create |
| `Creation.LateLookupFindsTheSameRow` | backend/app/transactions_api.py:1840-1862 | the row found after the batch is the row the document clashed with |
| `Creation.InsertAllKeepsIndexes` | backend/app/transactions_api.py:1865-1900 | an unordered insert under enforced indexes keeps every unique index |
| `Creation.OutcomesAddUp` | backend/app/transactions_api.py:1926-1928 | created, already existing and failed add up to the number of items |
| `Retries.RetryIsRecognised` | backend/app/transactions_api.py:1712-1762 | said of the stored fields: a document with a non-empty client row id and a cashier is answered as already existing exactly when some row has both, and created exactly when none has |
| `Retries.OtherCreatesFail` | backend/app/transactions_api.py:1712-1741 | any other register document is never already existing; it fails exactly when a row has its cashier and its client row id, which the index compares even when they are empty or null |
| `Retries.SecondIsRecognised` | backend/app/transactions_api.py:1808-1900 | in one bulk request, the second of two items with one pair is answered with the row that holds the pair: the first item's own, when nothing before had it |
| `Register.Register.PendingEdit` | backend/app/transactions_api.py:2578-2663 | an edit lands on the open clone or on a new one, with counters and recount in step; inserting a new clone never clashes with a unique index |
| `RoundTrip.EditsBuildOneClone` | backend/app/transactions_api.py:2606-2658 | any number of edits among calls that touch other rows leaves the original untouched and one clone with the merged updates and the last editor's stamp |
| `RoundTrip.NextEditFindsTheClone` | backend/app/transactions_api.py:2608-2623 | after the first edit, as long as nobody else opens one, exactly one open clone exists, so each further edit has no choice |
| `RoundTrip.EditThenReApprove` | backend/app/accountant_actions_api.py:339-427 | pending edits among calls that touch other rows, then re-approval of the clone: one direct edit of the original, the clone gone, every other row what the other calls made of it; refused exactly when the edited row lacks item or payee, and only one that changes nothing leaves the clone |
| `RoundTrip.DirectEditField` | backend/app/accountant_ops.py:449-475 | each cascade field ends at the last update given or its original value, and no field outside the cascade and audit sets moves |
| `Words.NormalizeIsIdempotent` | backend/app/import_ops.py:63-70 | normalising a payee twice is normalising it once, so the backfill writes the text the insert stored |
| `Layout.NormalizeMeans` | backend/app/import_ops.py:63-70 | for words laid out with any blanks before, between and after them, the payee stored is the words in capitals, one blank apart |
| `Layout.TrimmedIsStrip` | backend/app/import_ops.py:63-70 | stripping a text leaves what lies between the blanks at its ends, and that alone |
| `Imports.BatchIsAbsorb` | backend/app/import_ops.py:344-413 | inserting a batch and then backfilling from it equals absorbing its rows one at a time |
| `Imports.NoDuplicatesNoFill` | backend/app/import_ops.py:706-719 | running the backfill only when a batch had duplicates loses nothing |
| `Imports.AbsorbSettles` | backend/app/import_ops.py:653-729 | per key a complete commit leaves the stored or first pushed row, a blank payee filled by the first non-blank one pushed |
| `Imports.CutOffConverges` | backend/app/import_ops.py:653-729 | wherever a commit of keyed rows was cut off, a later complete commit ends in the same rows as if it had never been tried |
| `DailyImport.Importer.InsertMany` | backend/app/import_ops.py:344-370 | inserts and duplicates are counted exactly and together make up the batch |
| `DailyImport.Importer.Backfill` | backend/app/import_ops.py:373-413 | blank stored payees take the first pushed one and nothing else changes |
| `DailyImport.Importer.CommitDaily` | backend/app/import_ops.py:654-729 | for any batch size a completed commit absorbs the payloads, and inserted + duplicates + skipped is their number; a dead one stops at a cut-off state |
| `DailyImport.Importer.CommitUntilDone` | backend/app/import_ops.py:654-729 | any number of runs dying anywhere, each with its own batch size and minted id, and one complete run: with a named upload the rows of a single complete run; without one exactly when no dead run got to store a row, and otherwise every dead run leaves the rows it stored under an upload of its own |
| `DailyImport.SizeOfDead` | backend/app/import_ops.py:653-729 | a run adds exactly the new ones among the documents it reached, wherever it died |
| `DailyImport.RepeatInsertsNothing` | backend/app/import_ops.py:678-704 | a repeat inserts nothing exactly when nothing was kept or the first kept row's upload id is not blank |
| `DailyImport.PayeesSurvive` | backend/app/import_ops.py:373-413 | after a commit a payee is blank only if it was blank before and no pushed row had one; a payee that was there is never overwritten |
| `Payloads.CommitStores` | backend/app/import_ops.py:654-729 | read off the payloads: under a named upload, rows are stored afterwards exactly under the keys there were and under (stripped upload id, digest) for the digests of the rows with an item; inserted is the number of those digests that were not there |
| `Payloads.NewRowSays` | backend/app/import_ops.py:654-729 | a new row has the content and the place of the first kept payload with its digest, and the normalised payee of the first one that names a payee, or none |
| `Payloads.OldRowSays` | backend/app/import_ops.py:373-413 | a row that was there keeps content and place; only a blank payee is filled, by the first kept payload with its digest that names one |
| `Payloads.BlankUploadStoresAll` | backend/app/import_ops.py:678-704 | under an upload id of blanks every row with an item is stored, in order, whatever was stored before |
| `MasterImport.MasterImporter.Commit` | backend/app/import_ops.py:733-805 | with or without the prefetch, and for any batch size, the same rows are stored and the same counts reported; inserted + duplicates is the number of rows |
| `MasterImport.FirstCopyWins` | backend/app/import_ops.py:771-799 | a serial not stored before ends with the first sheet row that carries it |
| `MasterImport.KeepsSerials` | backend/app/import_ops.py:771-799 | a stored serial is never overwritten |
| `MasterImport.LooseRowsAreStored` | backend/app/import_ops.py:771-799 | every row without a serial is stored behind the old ones, in the order of the sheet, and nothing else is added there |
| `MasterImport.StoredSerials` | backend/app/import_ops.py:771-799 | afterwards a serial is stored for a source exactly when it was, or when the sheet is of that source and has a row with it |
| `MasterImport.InsertedIs` | backend/app/import_ops.py:771-805 | as many rows are inserted as have no serial, plus the different serials that were not stored |
| `Catalog.EtagRoundTrip` | backend/app/catalog_snapshot.py:44-56 | a tag matches exactly the version it was issued for |
| `Catalog.WeakEtagRoundTrip` | backend/app/catalog_snapshot.py:48-56 | the same for a tag weakened on the way |
| `Catalog.EtagExactly` | backend/app/catalog_snapshot.py:48-56 | which headers match a version: the first entry, trimmed, and after a weak mark trimmed again, is the number in decimal, quoted or not |
| `Catalog.ReadVersionIsFresh` | backend/app/catalog_snapshot.py:142-153 | matching the header or the process cache right after the version read yields an answer that reflects that version |
| `Catalog.ReadPartIsFresh` | backend/app/catalog_snapshot.py:99-139 | a part read after the version holds every write bumped by then |
| `Catalog.StepKeeps` | backend/app/catalog_snapshot.py:73-157 | every interleaved step of writers, processes and clients keeps the freshness invariant |
| `Catalog.StampedBodiesAreComplete` | backend/app/catalog_snapshot.py:142-157 | under every interleaving a body stamped v, sent or cached, reflects every write whose bump produced a version of at most v |
| `Catalog.ClientsMissNothing` | tahmeed/services/catalog_service.py:31-57 | whatever a client is answered, afterwards it holds every write whose bump was stored when the server read the version |
| `Catalog.OwedIsFixed` | backend/app/catalog_snapshot.py:142-146 | what a request is owed is every write bumped at its version read, and the version it read is the one of that moment, through any further run |
| `Catalog.NotModifiedFindsABody` | tahmeed/services/catalog_service.py:45-51 | a 304 always finds a body at the client |
| `Catalog.MarkIsLostExactlyWhenBehind` | tahmeed/services/catalog_service.py:18-57 | a stale mark set in any reachable state, before any further run: the next body received is tagged below the version at the mark exactly when it answers the request that was in flight then and had already read an older version; otherwise it holds every write bumped by the mark |
| `Catalog.MarkInFlightIsLost` | tahmeed/services/catalog_service.py:18-57 | the losing case is reachable |
| `Snapshots.NothingIsInvented` | backend/app/catalog_snapshot.py:73-157 | on every run whatever a client, a process cache or an answer holds was written before, and the version is the number of bumps |
| `Snapshots.VersionDecides` | backend/app/catalog_snapshot.py:142-153 | a request that carries the tag of the version read is answered with 304, any other with the body the process has of that version, and a new one is built only when it has none |
| `Snapshots.StaleGetsABody` | tahmeed/services/catalog_service.py:37-51 | a client that knows it is stale, or has nothing yet, is never answered with 304, however the run goes on |
| `Snapshots.OneRequestAtATime` | tahmeed/services/catalog_service.py:33-45 | a client waits for one request at a time; a lost reply ends the wait and changes nothing else |
| `Tokens.ServerStepKeeps` | backend/app/api.py:379-431 | spent secrets are never stored again and never spent twice |
| `Tokens.EachSecretWinsOnce` | backend/app/api.py:387-416 | whatever tokens are sent and however handlers interleave, each secret is exchanged by at most one refresh |
| `Tokens.EveryWinWasLive` | backend/app/api.py:409-416 | for every secret ever exchanged there is a moment of the run at which its session is stored with that secret and is not revoked, and the exchange is the next step |
| `Tokens.RevokedStays` | backend/app/api.py:434-449 | a revoked session stays revoked through any run |
| `Tokens.SwapExactly` | backend/app/api.py:409-416 | an exchange is answered with a token exactly when the session is stored with the secret it carries and is not revoked |
| `Tokens.ReuseRevokes` | backend/app/api.py:387-405 | which calls are judged theft on reading, and that exactly the session the token names is revoked for it |
| `Tokens.RevokedGrantsNothing` | backend/app/api.py:387-416 | once a session is revoked, whatever refreshes were on their way, no further run exchanges a secret of it or grants a token of it |
| `Tokens.StepKeeps` | tahmeed/services/api_client.py:120-140 | every step but a cancellation, of the client under its lock, of logins and of the server, keeps each live token its session's current one, and no session with two |
| `Tokens.OneTokenAlways` | tahmeed/services/api_client.py:120-140 | so on every run without cancellation |
| `Tokens.OneTokenMeans` | tahmeed/services/api_client.py:120-140 | said of the fields: a stored token, when no post is in flight, and any token granted but not yet received are what their sessions hold, and they are of different sessions |
| `Tokens.ClientSteps` | tahmeed/services/api_client.py:120-140 | a network failure drops the tokens of the refreshing client and touches no session; a login is issued one session, and nothing else issues any |
| `Reuse.CallsStep` | tahmeed/services/api_client.py:120-140 | every step, cancellations included, keeps each call one post, and each exchange by a posted call that is past its swap |
| `Reuse.TokensStep` | backend/app/api.py:387-431 | every step, cancellations included, keeps every token anywhere either its session's current one or spent by an exchange |
| `Reuse.ReuseExactly` | backend/app/api.py:391-405 | at any step of any run, whatever is cancelled: a request is judged theft exactly when it reads a session that is neither revoked nor expired and another call has exchanged the secret it carries |
| `Reuse.PostedAgain` | tahmeed/services/api_client.py:120-140 | a token is posted a second time only after the earlier post was cancelled while the token was still stored |
| `Reuse.NeverSentTwice` | tahmeed/services/api_client.py:120-140 | with any tasks, logins, logouts, network failures and revocations the client never sends the same refresh token twice as long as no post is cancelled |
| `Reuse.ReuseIsNeverDetected` | backend/app/api.py:391-405 | so client and server together never reach the reuse revocation |
| `Reuse.CancellationLooksLikeTheft` | tahmeed/services/api_client.py:120-140 | on any run with one cancellation and any client steps around it, of the two calls that carry one token either one is judged theft exactly when it has yet to read its session, the other has exchanged the secret, and the session is neither revoked nor expired |
| `Reuse.CancellationEndangers` | tahmeed/services/api_client.py:120-140 | read off the moment before a cancellation: some further run without another one ends in detected reuse exactly when the token in flight is still stored, its call can still exchange it or has, and its session is neither revoked nor expired |
| `Reuse.CancellationResends` | tahmeed/services/api_client.py:120-140 | some further run posts a token twice exactly when the token in flight is still stored |
| `Reuse.CancellationWithoutLeftover` | tahmeed/services/api_client.py:120-140 | a cancellation that leaves no posted token behind is harmless for good |
| `Reuse.ExchangedButUnanswered` | tahmeed/services/api_client.py:120-140 | a granted and unanswered post is reachable after one login and one refresh |
| `Reuse.AbandonedCallIsJudged` | backend/app/api.py:391-405 | the abandoned call itself can be the one judged theft, and then revokes the session whose new token the other call was just granted |
| `Lease.LeasedStep` | backend/app/api.py:173-196 | on every run a process whose lease has not run out is the one owner in the database |
| `Lease.StepKeeps` | backend/app/api.py:332-376 | while users are created in time, the users an unexpired holder counted are still all there are |
| `Lease.OneHolder` | backend/app/api.py:173-196 | at most one process holds an unexpired lease |
| `Lease.OneFirstUser` | backend/app/api.py:332-376 | however bootstraps interleave, at most one first user is created when each creation happens within the creator's lease |
| `Lease.RunInTimeMeans` | backend/app/api.py:332-376 | a run is in time exactly when each of its steps is |
| `Lease.ReleaseMeans` | backend/app/api.py:195-196 | leaving a bootstrap ends it and gives up the process's own lease, and no other |
| `Lease.NextProcess` | backend/app/api.py:173-196 | a new process gets the lease exactly when there is none or it has run out, with sixty seconds on it |
| `Lease.AfterRelease` | backend/app/api.py:373-376 | once the owner has left, the next process gets the lease at once |
| `Lease.SecondUserWithin` | backend/app/api.py:332-376 | from any state, creations alone can lead to a second user exactly when the users there are and the processes that have counted make two |
| `Lease.SecondUserExactly` | backend/app/api.py:332-376 | on every run, whatever the timing, a second first user becomes possible exactly when at some moment two processes have counted no users and the lease of one has run out |
| `Lease.TwoUsersWereOvertaken` | backend/app/api.py:332-376 | a run that ends with two users went through such a moment |
| `Lease.LateCreationBreaksIt` | backend/app/api.py:332-376 | such a run exists |
| `MasterQuery.MergeDenotes` | backend/app/accountant_master_ops.py:184-196 | in every branch, the inlining shortcut included, the merged dictionary denotes the query and all the clauses |
| `Filters.MergeField` | backend/app/accountant_master_ops.py:184-196 | a single one-entry clause whose key is new goes straight into a query without `$and` and `$or` |
| `Filters.MergeStacks` | backend/app/accountant_master_ops.py:184-196 | every other list of clauses is put behind those of the query's `$and` |
| `MasterQuery.ExcludeDenotes` | backend/app/accountant_master_ops.py:407-422 | excluding suppliers is one more conjunct whatever the query already holds |
| `Filters.SupplierExcluded` | backend/app/accountant_master_ops.py:407-422 | the rows excluded are those whose category in small letters is one of the names; a row without one counts as the empty name |
| `Search.SearchClauseMeans` | backend/app/accountant_master_ops.py:310-344 | the search clause finds exactly the labels that begin with the number or plate as it reads without blanks and then end or go on as a plate may, or the rows that hold the text |
| `Search.PlateSearchExact` | backend/app/accountant_master_ops.py:327-338 | searching a plate, however typed, finds a row labelled with a plate, however written, exactly when digits and suffix are the same |
| `Filters.SearchMeans` | backend/app/accountant_master_ops.py:314-344 | what a search finds, by its trimmed text in capitals: all rows when there is none, labels with the number when it reads as one, labels with the plate when it reads as one, else rows that have the text in label or description |
| `Filters.NumberFindsPlate` | backend/app/accountant_master_ops.py:319-327 | a number finds a label with a plate, however written, exactly when the plate has that number |
| `Spread.PatternMeans` | backend/app/accountant_master_ops.py:310-336 | the pattern with blanks spread between its characters finds exactly the labels that begin as its body reads |
| `Spread.PlateEndMeans` | backend/app/accountant_master_ops.py:319-336 | what may follow a searched plate: the end, or, after any blanks, a slash, or after a bare number a letter |
| `MasterQuery.AppendColumnFilters` | backend/app/accountant_master_ops.py:199-307 | rows pass the extended list exactly when they pass the list that was there and every filter; a filter whose texts name nothing asks nothing |
| `Filters.OneReceipt` | backend/app/accountant_master_ops.py:155-170 | a row passes a receipt filter of one text exactly when the text, between blanks, in any case and with underscores for blanks, says received or pending and the status is that word, or says missing or no receipt and the status is missing or no_receipt, or says none of the four |
| `Filters.ReceiptFilter` | backend/app/accountant_master_ops.py:155-170 | any list of texts: the status is asked for by one of them, or none of them asks for any |
| `Filters.TzsFilter` | backend/app/accountant_master_ops.py:246-261 | an amount filter in shillings: the currency is one of the six codes and the amount is named by a text, or no text names one |
| `Filters.UsdFilter` | backend/app/accountant_master_ops.py:262-275 | the same for dollars with their two codes |
| `Filters.DateFilter` | backend/app/accountant_master_ops.py:214-230 | a date filter: the time lies in a named day, to its last second, or no text names a day |
| `Filters.TextFilter` | backend/app/accountant_master_ops.py:173-181 | a text filter: the stored text is one of the texts sent, trimmed and in any case; empty texts and the dash do not count |
| `Filters.ItemFilter` | backend/app/accountant_master_ops.py:231-240 | an item may also be found in the category name |
| `Filters.RefFloatFilter` | backend/app/accountant_master_ops.py:276-300 | the phrase REFUND TO FLOAT also finds flagged rows |
| `MasterQuery.ExactEntries` | backend/app/accountant_master_ops.py:369-396 | no exact filter overwrites another dictionary entry |
| `MasterQuery.BuildMasterQuery` | backend/app/accountant_master_ops.py:347-422 | a row matches exactly when it is live, verified, in both date ranges, found by the search box, passes every filter supplied and is no supplier payment |
| `Filters.RangeOfDays` | backend/app/accountant_master_ops.py:361-367 | the range is the asked period cut to the midnight of the first day and the last second of the last |
| `Filters.LiveMeans` | backend/app/accountant_master_ops.py:63-69 | live rows are verified, not asked to be deleted and not in trash |
| `MasterQuery.AndNotTrashedDenotes` | backend/app/feed_ops.py:433-445 | a query silent about trash keeps its meaning and loses trashed rows, any other is unchanged |
| `MasterQuery.InjectNotTrashedDenotes` | backend/app/feed_ops.py:448-457 | the same for the first stage of a pipeline |
| `Filters.LiveFeed` | backend/app/feed_ops.py:433-445 | what a feed query becomes: the one entry for trash when it is empty, itself when it says something about trash, else both under `$and`; `trashed: null` says nothing at the top and something under `$and` |
| `Filters.LivePipeline` | backend/app/feed_ops.py:448-457 | what the first stage becomes |
| `Plates.SpacingAndCase` | backend/app/accountant_master_ops.py:509-520 | every way of writing a plate, in any case and spacing, has the key of its number and suffix |
| `Plates.CanonicalIsLoose` | backend/app/accountant_master_ops.py:513-519 | whatever the canonical pattern finds the loose pattern finds too, with the same parts |
| `Plates.LabelKey` | backend/app/accountant_master_ops.py:509-520 | the key of any label by its words in capitals: that of its number and suffix when they read as T, digits and two or three letters, else the words themselves, or the key of blanks |
| `Plates.PlatesInOrder` | backend/app/accountant_master_ops.py:509-520 | for numbers below ten to the tenth, keys sort as number, then suffix |
| `Plates.KeyOrderOfNumbers` | backend/app/accountant_master_ops.py:509-520 | for numbers of any length, the smaller sorts first exactly when it is below the leading digits of the larger, as many as its own key has; otherwise the larger one does |
| `Plates.KeysAgreeWithNumbers` | backend/app/accountant_master_ops.py:509-520 | keys and numbers agree exactly when both keys are equally wide or the shorter number is below the leading digits of the longer |
| `Plates.ElevenDigitsAreOutOfOrder` | backend/app/accountant_master_ops.py:515-519 | they do disagree from eleven digits on |
| `Plates.RanksInOrder` | backend/app/accountant_master_ops.py:509-520 | plates sort before other labels, and those before blanks |
| `Amounts.MasterReadsBack` | backend/app/accountant_master_ops.py:141-152 | every whole amount and every amount in cents is read back exactly as it was printed |
| `Amounts.DieselReadsBack` | backend/app/feed_ops.py:1396-1415 | the same through every comma and point branch of the diesel parser |
| `Amounts.CommasResolve` | backend/app/feed_ops.py:1404-1411 | on printed amounts each comma rule only drops separators |
| `Amounts.GroupedDigits` | backend/app/accountant_master_ops.py:527-530 | taking the separators out of a grouped number leaves the number |
| `Amounts.GroupedCommas` | backend/app/accountant_master_ops.py:527-530 | a grouped number with exactly one comma has exactly three digits after it |
| `Amounts.CodedReadsBack` | backend/app/accountant_master_ops.py:141-152 | a currency code in any case, then blanks and a printed amount, with any blanks around, is read as that amount |
| `Amounts.LoneComma` | backend/app/feed_ops.py:1404-1415 | a comma alone in a number separates when three digits follow it, and is the decimal point otherwise |
| `Amounts.ManyCommas` | backend/app/feed_ops.py:1404-1408 | two commas are separators |
| `Amounts.PointedCommas` | backend/app/feed_ops.py:1404-1406 | and so is a comma beside a point |
| `Amounts.DieselTrims` | backend/app/feed_ops.py:1401-1404 | blanks around a text do not matter |
| `Amounts.DieselPercent` | backend/app/feed_ops.py:1401-1415 | a printed amount followed by spaces and a per cent sign is read as the amount |
| `Amounts.FloatExactly` | backend/app/feed_ops.py:1411-1415 | a text is read as a number exactly when it is digits with at most one point, signed or not |
| `Charts.FillBuckets` | backend/app/cashier_overview_ops.py:144-174 | one pass leaves per item, day, payee and payee-day exactly the money and counts of the charted documents |
| `Charts.CurrencyMeans` | backend/app/cashier_overview_ops.py:48-53 | the currency a document counts in, by its trimmed text in any case: shillings when empty, and none when it is no code |
| `Charts.ChartedMeans` | backend/app/cashier_overview_ops.py:144-154 | a document is charted when it is dated in the year, neither in trash nor discarded, and has an amount of either sign in a known currency |
| `Charts.LabelsMean` | backend/app/cashier_overview_ops.py:20-27 | the item, or else the category, and the payee a document counts under, trimmed, or the word for none |
| `Charts.Ranked` | backend/app/cashier_overview_ops.py:85-89 | all entries, each once, highest first, with nothing lost from the sums |
| `Charts.TopBreakdown` | backend/app/cashier_overview_ops.py:80-118 | at most the asked number of names, each ranking at least as high as anything pooled, and per currency the slices add up to everything |
| `Charts.PayeeSeries` | backend/app/cashier_overview_ops.py:178-197 | each named payee's days add up to that payee's money, and no payee left out ranks higher |
| `Charts.ComputeOverviewCharts` | backend/app/cashier_overview_ops.py:121-204 | per currency item slices and daily totals add up to the same money, daily counts to the documents charted, payee days to the payee; named slices carry their own totals, highest first, and at most the asked number of payees is listed, highest first and all with money |

## Left out

- Interleaving between a handler's load and its write: badge handlers are atomic steps.
- Field values that are arrays or sub-documents; `str(cashier_id)` is taken as injective, so counters are keyed by the id itself.
- Single and bulk forms of approve, reject, trash and restore share one method over a set of ids; one clock reading serves a whole bulk re-approval.
- Updates of indexed fields that MongoDB would refuse because they collide (a patch that sets another row's client row id); such a write is not part of a run.
- Other errors than duplicate keys in bulk inserts, audit events, the `updated_at` stamp, badge ETags and the wake-up of waiting requests.
- Role checks, HTTP routing, listing and report endpoints, attachments, backups, reconciliation.
- Other writers of the collection, such as description mappings and bulk categories, which write no counted field.
- Runs.Run: aborted resubmits, and the five handlers that never adjust, are not steps of a run; their exact conditions are stated on their own.
- Register.Register.CreateOne: covers documents without import keys, which is all that register creation builds.
- RoundTrip.EditThenReApprove: approval of a clone and un-rejecting a clone beside an open one are outside the round trip, and so are calls between the edits that touch the row or its clone; the sort key of the truck is not a cascade field and keeps its old value.
- Import payloads: dates, categories and amounts are one opaque content, the SHA-256 row key is given with the row and never blank, a row with an invalid date ends the commit like any other cut-off; the source file name that later rows inherit is not modelled.
- DailyImport.Importer.CommitDaily: time stamps of stored rows are not modelled, so rows are compared up to them.
- MasterImport.MasterImporter.Commit: rows are valid, and the upload id is not part of a row.
- The order of equals in chart rankings, which Python takes from dictionary order, is left open.
- Charts: dates are given as day numbers, and amounts as integers, so rounding of floats is not modelled.
- MasterQuery.BuildMasterQuery: `strptime` and `float` on filter texts are parameters, and so are the accounts that the cashier names of a filter stand for and the first and last second of the asked month or year.
- `float` on texts with exponents, underscores, infinities or not-a-number is read as no number.
- Plates: text is ASCII, and upper-casing folds like the case-insensitive patterns.
- Catalog: a swallowed failure of the version bump, malformed responses and catalog writes that never bump are not modelled; a write is one step.
- Tokens, Reuse: secrets are fresh values and hashing is injective; session expiry is a step of the environment; a login reply that never arrives is one that never takes its last step.
- `prepare_master_updates`, `filter_pending_edit_clones`, the inbox and browse query builders and the daily upload pipelines, which would add easier members of the same kinds.
