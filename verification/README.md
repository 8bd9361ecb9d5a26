# A verified model of the Flashpoint submission system

This project models the stateful core of the Flashpoint submission system in Dafny and proves what
that core is for. `dafny verify dfyconfig.toml` checks everything.

- **Read cache.** Cached reads are fenced by database commits: a writer bumps a generation and
  invalidates before and after its commit, a reader hits, waits for pending commits, or loads and
  publishes only if the generation is unchanged. `CommitFence` is the protocol as a state machine
  and proves reads linearizable; `CacheUses` says when a lookup hits, what stays cached and what an
  undisturbed Get does; `ReadCache` is the LRU with its two limits; `RecencyList` is the recency order
  all of them are specified by.
- **Review.** Comments and files form a submission's history; a cache row summarises it; a guard
  reads the row to accept or refuse the next action. `ReviewHistory` proves the row equal to a
  chronological replay, `ReviewMachine`, `ReviewRuns` and `ReviewPeople` prove what holds in every
  run, `ReviewLimits` proves step by step where it stops holding, `ReviewApart` and `ReviewImport`
  say exactly which runs keep it, and `ReviewScenes` and `ReviewRoleScenes` have runs that do not.
  `ReviewDesk` holds the writers and the batch receiver as objects, and `ReviewTransactions`
  interleaves transactions under snapshot isolation. `ReviewScripts` has the writers statement by
  statement and connects the two. `ReviewRoles` reads every writer as an update of the reviewer sets,
  and `ReviewRecord` has the rows, the verdict and the flags each step leaves.
- **Locks.** `SubmissionLocks` is the sorted, deduplicated lock acquisition and the walk over all
  submissions that rebuilds their rows.
- **Resumable upload.** `ChunkStore` is the chunk directory, `ChunkReader` the reader that
  reassembles a file on the fly, `UploadJobs` the registry and the receipt of one chunk as objects,
  and `UploadProtocol` any number of requests and workers interleaved.
- **Search.** `Sql` is a fragment of SQL with three-valued logic and positional arguments;
  `SearchFilter` compiles the filter record, `SearchText` is the scan of the conditions' text for
  table names, `SearchJoins` prunes the join list by it, `SearchQuery` assembles both queries,
  `SearchPages` orders, pages and counts, and `SearchStatus` says what a search by review status finds
  in terms of the review.
- **Game redirects.** `GameRedirects` is a one-hop table kept under deletion, restoration and unlocked
  adds; `RedirectChain` compares it with the chain of deletions it stands for, and
  `RedirectTargets` says when a game leads to one other at most.
- **Notifications.** `Notifications` is a wake-up channel that holds one token, and
  `NotificationDelivery` follows the notifications from their commit until they are sent.

Objects whose methods change fields are classes here (the LRU cache and its coordinator, the
submission record, the comment desk, the chunk directory and reader, the upload job and registry,
the redirect tables, the notification queue); each method is proved against a function of the old
state, and the theorems are about those functions. Protocols are state machines whose steps are
the mutex-held sections, database commits and database reads of the code.

## Assumptions

- A loader reads the committed database, and a commit that changes what a loader would return
  declares one of the dependencies recorded with that load (`CommitFence.Declared`). Values with an
  expiry may drift without a commit.
- Every transaction reads a clock later than all timestamps stored for the submission, including the
  offsets of one to four microseconds the writers add (`ReviewMachine.Timed`).
- The chunk file name's SHA-256 digest is injective.
- The database is read on one snapshot per search; for a submission with several cache or metadata
  rows, the sort value taken for it is the same on every page. Submission ids are distinct, and so
  are the uuids of legacy games (`SearchPages.WellKeyed`).
- Comments, files, jobs, producers and workers get ids that were not used before.

## Where the code and its documentation differ

Each property below fails in the code. The first member named says exactly when it holds, the second
is a run or an input on which it does not.

- `appcache/cache.go:196-198` returns a resident entry to a waiting flight without its expiry, so an
  expiring value can be returned after it has expired: `CommitFence.AcceptedExpiry`,
  `CommitFence.ExpiredValueReturned`. Values without an expiry are not affected.
- `service/comments_action_validator.go:175-182` refuses an upload after a rejection, but the upload
  receiver never asks it: `ReviewLimits.UploadIgnoresRejection`, `ReviewScenes.RejectedTakesUpload`.
- Deleting a withdrawal can give its author a second role, and deleting a rejection can give one to
  anybody: `ReviewLimits.DeletionKeepsDisjoint`, `ReviewScenes.DeletingUnassignmentRevivesAssignment`,
  `ReviewRoleScenes.DeletingRejectionRevivesRoles`; `ReviewApart.RolesDisjointExactly` is about whole
  runs, Force steps included (`ReviewRoleScenes.ForcedApproverStaysTester`).
- Meta edits, Force steps and deletions can let a submission be imported without three people behind
  it: `ReviewImport.ReviewsCompleteExactly`, `ReviewRoleScenes.OnePersonImports`,
  `ReviewRoleScenes.MetaEditCarriesOwnApproval`, `ReviewRoleScenes.DeletedApprovalStillImports`.
- Deleting the newest file can make an approver the newest uploader: `ReviewLimits.DeletingNewestFile`,
  `ReviewScenes.DeletingNewestFileMakesApproverUploader`.
- A comment batch looks its submissions up by a search that returns a hundred rows, so a larger batch
  is refused as "not found": `ReviewDesk.ReceivedExactly`, `ReviewDesk.BatchesFitOnePage`.
- A `Read` that fails on a missing chunk has already advanced, so the next `Read` goes on with the
  chunk after it: `ChunkReader.ReadsStayInOrder`, `ChunkReader.MissingChunkIsSkipped`.
- The upload registry lives in memory and the chunk files do not, so after a restart an old chunk
  passes for a new upload's own: `UploadProtocol.NewJobsFindNothing`,
  `UploadProtocol.LeftoverChunksPassAsNew`.
- Adding a redirect takes no lock, unlike deletion and restoration: `GameRedirects.RedirectsStayOneHop`,
  `GameRedirects.RacingAddBreaksOneHop`.
- A restoration leaves redirects that have skipped the restored game as they are:
  `RedirectChain.TableAnswersChainInForce`, `RedirectChain.RestorationLeavesShortcut`.
- A game that is deleted again, or gets a second redirect, leads to two others, and the lookup may
  answer either: `RedirectTargets.OneTargetExactly`, `RedirectTargets.DeletedTwiceLeadsToBoth`.
- A notification consumer whose read fails gives its token up, and a producer whose commit reports a
  failure announces nothing: `Notifications.WakeupLostExactly`, `Notifications.LostWakeup`,
  `Notifications.UnheardCommit`.

## Model

| member | source | states |
|---|---|---|
| `CommitFence.LinearizableReads` | appcache/cache.go:159-257 | over every interleaving of commits (also ones that fail after committing), loads and lookups, a never-expiring value returned by Get equals what the loader would have read at some moment between call and return |
| `CommitFence.StepKeepsInv` | appcache/cache.go:41-74 | every step keeps: resident entries are current and depend on nothing pending, captured generations are quiet, flights of the current generation hold current values, channels match the pending count |
| `CommitFence.RunKeepsInv` | appcache/cache.go:27-74 | the invariant holds in every state of every run |
| `CommitFence.FenceKeepsInv` | appcache/cache.go:49-58 | the section before the commit keeps the invariant, with the entries it touches gone from every cache |
| `CommitFence.SettleKeepsInv` | appcache/cache.go:61-72 | the section after the commit keeps the invariant, whether or not the commit reported success |
| `CommitFence.EndKeepsInv` | appcache/cache.go:213-232 | publishing only on an unchanged generation keeps every resident entry current |
| `CommitFence.StartKeepsInv` | appcache/cache.go:190-201 | the re-check at the start of a shared load keeps the invariant on all its branches |
| `CommitFence.JoinKeepsInv` | appcache/cache.go:190-190 | callers of one generation and key may share a load without breaking the invariant |
| `CommitFence.ReturnIsCurrent` | appcache/cache.go:181-189 | the step by which a call returns a never-expiring value does so while that value is current |
| `CommitFence.SettledReadersWake` | appcache/cache.go:171-179 | once nothing is pending every waiting reader can go on, and a reader on an open channel has a writer still to settle |
| `CommitFence.SettleClosesOpenChannel` | appcache/cache.go:68-71 | settling always finds a pending commit, and the last one closes a channel that is still open |
| `CommitFence.AcceptedExpiry` | appcache/cache.go:190-254 | over every run: a lookup never returns an expired value, and the check at the end of a Get does so exactly if nothing was committed since its flight's generation and that flight, when it started, hit a resident entry whose expiry has passed by now |
| `CommitFence.ExpiredValueReturned` | appcache/cache.go:196-199 | a run in which an expired value is returned |
| `CacheUses.LookupExactly` | appcache/cache.go:164-189 | a lookup returns exactly if the value is resident and not expired, and then that value; otherwise it waits on the newest channel if a commit is pending and goes to load if none is |
| `CacheUses.QuietGet` | appcache/cache.go:159-257 | with nothing pending, a Get of a value that is not resident, left alone, takes seven steps, returns what the database has, and leaves it resident if it fits |
| `CacheUses.InvalidationExactly` | appcache/cache.go:121-131 | an invalidation removes from each cache exactly the entries that depend on something changed |
| `CacheUses.LookupKeepsRecent` | appcache/cache.go:132-144 | the order is by last use, newest first: a hit makes its entry the latest used, a miss uses nothing |
| `CacheUses.PublishKeepsRecent` | appcache/cache.go:220-231 | a publish makes its entry the latest used, and what it evicts was last used before everything it keeps |
| `RecencyList.EvictionKeepsLongestPrefix` | appcache/cache.go:227-230 | evicting from the back leaves the longest prefix of the recency order that meets both limits |
| `RecencyList.PublishKeepsNewest` | appcache/cache.go:220-231 | after a publish both limits hold and the published entry survives, at the front |
| `RecencyList.LinkedRemove` | appcache/cache.go:115-120 | removing an element from map and list keeps them in bijection |
| `RecencyList.LinkedPush` | appcache/cache.go:224-225 | pushing a new element in front keeps map and list in bijection |
| `RecencyList.LinkedTouch` | appcache/cache.go:142-142 | moving an element to the front keeps map and list in bijection |
| `RecencyList.LinkedCount` | appcache/cache.go:149-149 | the map has as many entries as the list |
| `RecencyList.PurgedAll` | appcache/cache.go:121-131 | visiting every key, in any order, removes exactly the entries with a changed dependency |
| `ReadCache.Cache.Remove` | appcache/cache.go:115-120 | the element leaves map, list and byte count together |
| `ReadCache.Cache.Invalidate` | appcache/cache.go:121-131 | the order becomes the entries without a changed dependency, in place, and nothing else |
| `ReadCache.Cache.Lookup` | appcache/cache.go:132-144 | a live entry is returned and moved to the front, an expired one is removed, a missing one changes nothing |
| `ReadCache.Cache.Publish` | appcache/cache.go:220-231 | the entry replaces its key, goes to the front, and the longest fitting prefix survives |
| `ReadCache.Cache.Evict` | appcache/cache.go:227-230 | the eviction loop ends with exactly the longest fitting prefix and the right byte count |
| `ReadCache.Coordinator.InvalidateAll` | appcache/cache.go:55-57 | every registered cache loses its touched entries and no other |
| `ReadCache.Coordinator.Fence` | appcache/cache.go:49-58 | one more pending commit, a new generation, every cache invalidated |
| `ReadCache.Coordinator.Settle` | appcache/cache.go:61-72 | one pending commit less, a new generation, every cache invalidated again |
| `ReviewHistory.ReplayMatchesDerivation` | database/caching.go:13-212 | for every history the derived row equals the one a reader arrives at by replaying the live comments in (created_at, id) order, with the newest-file cut applied after ranking and any rejection suppressing all reviewers |
| `ReviewHistory.EnabledMeansLeftOn` | database/caching.go:116-201 | a user's latest enabler beats the latest disabler, ties broken by id, exactly if some enabling comment past the cut has no disabling one after it |
| `ReviewHistory.ToggledMeansLeftOn` | database/caching.go:187-199 | replaying one reviewer set leaves in it exactly the users with such a comment |
| `ReviewHistory.BotMatches` | database/caching.go:251-275 | the stored bot action is the last validator action of the replay |
| `ReviewHistory.EveryHistoryReplays` | database/caching.go:116-201 | every history has a chronological order, and its replay gives the row |
| `ReviewHistory.NewestFile` | database/caching.go:18-25 | the newest live file by (created_at, id), or none only if no file is live |
| `ReviewRoles.SaidUpdatesRoles` | database/mysqldal.go:456-476 | a comment newer than everything stored switches its author's role and changes nobody else's |
| `ReviewRoles.StoredClearsReviews` | database/caching.go:45-52 | a new version makes all approvals and verifications lapse and nothing else |
| `ReviewRoles.EnabledWithOneMore` | database/caching.go:126-199 | what one more comment does to a reviewer set as the ranking queries compute it |
| `ReviewMachine.PostUpdatesRoles` | service/siteservice_comments.go:157-275 | a post with its automatic unassignment and autofreeze note moves only its author between the reviewer sets |
| `ReviewMachine.VersionUpdatesRoles` | service/siteservice_submissionreceiver.go:157-350 | a new version with its comment, notes and verdict clears the reviews and keeps the assignments |
| `ReviewMachine.CarryOverUpdatesRoles` | service/siteservice_submissionreceiver.go:352-387 | a meta edit re-approves for the first approver and, only with an approver, re-verifies for the first verifier |
| `ReviewRecord.VerdictShown` | service/siteservice_submissionreceiver.go:888-925 | after an unrefused upload or meta edit the row's bot action is request-changes if the validation failed and approve if it passed; after an override it is approve; posts and Force steps of others, freezing and refused steps leave it |
| `ReviewRecord.PostRecord` | service/siteservice_comments.go:157-275 | the rows of an accepted post, in order: the comment, the automatic unassignment, the note of the automatic freeze |
| `ReviewRecord.UploadRecord` | service/siteservice_submissionreceiver.go:157-350 | the rows of an upload: one live file, its comment, the notes in order, the verdict |
| `ReviewRecord.MetaEditRecord` | service/siteservice_submissionreceiver.go:157-390 | the same for a meta edit, with the approval and then the verification it carries over behind them |
| `ReviewRecord.SingleRecord` | service/siteservice.go:1636-1690 | an override, and likewise each Force step, writes exactly one row |
| `ReviewRecord.DeletionRecord` | database/mysqldal.go:541-642 | deletions remove no row: they mark one comment, one file, or everything, and leave the rest as it was |
| `ReviewRecord.FlagsFollow` | service/siteservice_comments.go:240-276 | an accepted verification freezes a submission marked for it, a new version stores its own mark, freezing and thawing set the flag, and nothing else changes a flag |
| `ReviewRecord.FrozenRefuses` | service/submission_locks.go:22-36 | while it is frozen uploads, meta edits, overrides, deletions and posts of those who may not freeze change nothing |
| `ReviewRecord.FrozenUntilThawed` | service/submission_locks.go:22-36 | in every run, from freezing until thawing no version is added or deleted |
| `ReviewRecord.VerificationFreezes` | service/siteservice_comments.go:240-276 | after an accepted verification of a version marked for freezing, uploads, meta edits and file deletions are refused |
| `ReviewRecord.DeletedIsFinal` | database/submission_locks.go:17-21 | in every run a deleted submission never changes again |
| `ReviewRecord.SomeVersionStays` | database/mysqldal.go:541-556 | in every run, once there is a live version there is one until the submission is deleted |
| `ReviewRecord.RefusedLeaves` | service/siteservice.go:1431-1635 | whatever is refused changes nothing at all |
| `ReviewScripts.StatementsMakeTheStep` | service/siteservice_submissionreceiver.go:170-390 | each writer's statements, one by one, turn the history into that of the machine's step, and the row of their last recompute is its derivation |
| `ReviewScripts.CommitIsMachineStep` | service/siteservice_comments.go:172-280 | what a committed writer leaves in the database is the machine's next state: history, the one cache row, and whether the submission is gone |
| `ReviewScripts.WritersAreRounded` | service/siteservice_comments.go:277-280 | every writer's statements are none at all or end in a recompute |
| `ReviewScripts.ScriptsPass` | service/submission_locks.go:12-36 | every script, for any list of submissions or a new one, passes the check of the discipline from its own text: lock before reading, write and recompute only what is locked, nothing stale at the commit |
| `ReviewScripts.ScriptsAreDisciplined` | database/submission_locks.go:8-12 | in every interleaving the database allows, transactions that follow such scripts, giving up anywhere, keep the discipline |
| `ReviewScripts.WritersKeepRowsDerived` | database/submission_locks.go:8-12 | so the writers as they are leave one derived cache row per submission in every committed state |
| `ReviewMachine.GuardIsEntitlement` | service/comments_action_validator.go:20-185 | the chain of checks accepts an action exactly under the rules for that action: who may assign, approve, verify, request changes, reject, import or upload, in which state |
| `ReviewRecord.RefusalIsTrue` | service/comments_action_validator.go:20-185 | every reason the chain of checks gives is true of the stored row |
| `ReviewRuns.RejectionIsAbsorbing` | service/comments_action_validator.go:126-173 | in every run, deletions, Force steps and meta edits included: never a live reject with a live mark-added, and while a reject is live all sets are empty and approve, verify, assign-verification, mark-added and reject are refused |
| `ReviewRuns.RolesStayDisjoint` | service/comments_action_validator.go:65-157 | in every run of posts, uploads, meta edits, bot overrides and freezes the four reviewer sets stay pairwise disjoint |
| `ReviewRuns.StepAdds` | service/siteservice_comments.go:178-275 | a rejection or an import mark appears only by an accepted post of it, and only deletions take any action away |
| `ReviewRuns.AcceptedFacts` | service/comments_action_validator.go:20-185 | what an accepted action says about the stored row |
| `ReviewPeople.ImportTakesThreePeople` | service/comments_action_validator.go:43-62 | in every run of posts and uploads, whenever mark-added is accepted the newest version was approved and later verified by two further people, both after that version |
| `ReviewPeople.VerificationCompletesReview` | service/comments_action_validator.go:120-146 | an accepted verification of a version comes with an earlier approval of that version by someone else |
| `ReviewLimits.DeletionMovesRoles` | database/caching.go:69-84 | what deleting a comment does to the stored sets: empty before and after while another rejection is live; everyone's roles back with the last live rejection; otherwise only the author moves, and comes back into a role only by a withdrawal |
| `ReviewLimits.BuriedRegains` | database/mysqldal.go:613-642 | after a deletion its author has a role if and only if, among the other comments, an enabling one past the cut is later than all disabling ones |
| `ReviewLimits.DeletionKeepsDisjoint` | service/siteservice.go:1562-1635 | the stored sets are disjoint after a deletion if and only if another rejection is live or nobody has two roles going by the comments that remain; if they were disjoint before: for the last live rejection if and only if the sets it suppressed are, for a withdrawal if and only if its author is left with at most one role, for any other comment always |
| `ReviewScenes.DeletingUnassignmentRevivesAssignment` | service/siteservice.go:1562-1635 | a run of upload, assignment, approval and a deletion that leaves one user approver and assigned tester at once |
| `ReviewLimits.DeletingNewestFile` | database/mysqldal.go:541-575 | after the newest file is deleted the next newest one's uploader is an approver (verifier) of it if and only if nothing is rejected and one of their approvals (verifications) is later than that file and than all their requests for changes |
| `ReviewLimits.DeletingOlderFile` | database/mysqldal.go:541-575 | deleting another file moves neither the latest uploader nor a review |
| `ReviewLimits.FileDeletionKeepsDisjoint` | database/mysqldal.go:541-575 | the stored sets are disjoint after the newest file is deleted if and only if a rejection is live or no reviewer revived with the older version has another role |
| `ReviewScenes.DeletingNewestFileMakesApproverUploader` | database/mysqldal.go:541-575 | a run of two uploads, an assignment, an approval and the deletion of the newest file that makes the approver the newest uploader |
| `ReviewLimits.MetaEditOwnApproval` | service/siteservice_submissionreceiver.go:352-387 | after a meta edit the editor counts as approver of their own version exactly if the carried approver is the editor |
| `ReviewLimits.ForceKeepsDisjoint` | service/siteservice.go:2402-2538 | the stored sets are disjoint after a Force step if and only if a rejection is live, or they were before and its author is neither assigned nor the other kind of reviewer, unless the review does not count at all |
| `ReviewApart.RolesDisjointExactly` | service/siteservice.go:1431-1635 | in every run, with any deletions, meta edits and Force steps, the four stored sets are disjoint all along if and only if each deletion and Force step meets its condition, told from the submission before it |
| `ReviewApart.StepApart` | database/caching.go:69-84 | one step of any kind keeps disjoint sets disjoint if and only if it meets that condition |
| `ReviewImport.ReviewsCompleteExactly` | service/siteservice_submissionreceiver.go:352-387 | in every run, all along nobody counts as approver of their own newest version and every counted verification follows an approval of that version by another person, if and only if each meta edit, Force step and deletion meets its condition |
| `ReviewImport.StepComplete` | service/siteservice.go:2402-2538 | one step keeps that if and only if it meets its condition: a meta edit by neither of the reviewers it carries over, who are two people; a forced approval not by the uploader; a forced verification by another than uploader and approver; a deletion after which the remaining reviews fit together |
| `ReviewImport.ImportAfterAnySteps` | service/comments_action_validator.go:43-62 | after any run whose steps meet these conditions, whenever mark-added is accepted three people are behind the newest version |
| `ReviewRoleScenes.DeletingRejectionRevivesRoles` | service/siteservice.go:1562-1635 | a run in which nobody has a role and deleting another user's rejection leaves one user approver and assigned tester |
| `ReviewRoleScenes.ForcedApproverStaysTester` | service/siteservice.go:2402-2469 | a run in which the assigned tester approves by force and stays assigned |
| `ReviewRoleScenes.OnePersonImports` | service/siteservice.go:2402-2538 | a run in which the uploader alone, by two Force steps, reaches an accepted mark-added |
| `ReviewRoleScenes.MetaEditCarriesOwnApproval` | service/siteservice_submissionreceiver.go:352-387 | a run in which an approver's meta edit carries over their own approval and mark-added is accepted without a third person |
| `ReviewRoleScenes.DeletedApprovalStillImports` | service/siteservice.go:1562-1635 | a run in which the approval is deleted after the verification and mark-added is still accepted |
| `ReviewLimits.UploadIgnoresRejection` | service/siteservice_submissionreceiver.go:548-883 | whether or not a rejection is live, an upload adds a version if and only if the submission is not frozen, and changes nothing if it is; the guard would refuse it exactly under a live rejection |
| `ReviewScenes.RejectedTakesUpload` | service/siteservice_submissionreceiver.go:548-883 | a run in which a rejected submission takes an upload |
| `ReviewDesk.SubmissionRecord.UpdateSubmissionCacheTable` | database/caching.go:13-114 | the two updates and the rejection loop leave exactly the derived row |
| `ReviewDesk.SubmissionRecord.StoreComment` | database/mysqldal.go:456-476 | one live comment with a fresh id is appended |
| `ReviewDesk.SubmissionRecord.StoreSubmissionFile` | database/mysqldal.go:290-315 | one live file with a fresh id is appended |
| `ReviewDesk.SubmissionRecord.SoftDeleteComment` | database/mysqldal.go:613-642 | the comment is no longer live and the row is derived anew |
| `ReviewDesk.SubmissionRecord.SoftDeleteSubmissionFile` | database/mysqldal.go:541-575 | refused for the last live file; otherwise the file is no longer live and the row is derived anew |
| `ReviewDesk.CommentDesk.ReceiveComments` | service/siteservice_comments.go:17-301 | the reply, one of eight in the order of the checks, and the submissions afterwards are those of `ReviewDesk.ReplyTo`: all of the batch is committed or nothing is |
| `ReviewDesk.BatchIsCommitted` | service/siteservice_comments.go:108-301 | about reply and submissions before and after: a request that is not received leaves all of them as they were; one that is has given exactly one accepted post to each listed submission that takes it, skipped the others as duplicates, left the rest alone, and counted the submissions posted to |
| `ReviewDesk.RefusedExactly` | service/siteservice_comments.go:17-137 | which error a refused batch is answered with, in the order of the checks, and from what request |
| `ReviewDesk.ReceivedExactly` | service/siteservice_comments.go:17-143 | a batch is received if and only if it is not empty, its action is known and has its message, there is one submission where the action asks for that, there are at most a hundred different ones, all live, and each of them as it was before is open to this user and accepts the action or may be skipped |
| `ReviewDesk.BatchStopsAtFirstProblem` | service/siteservice_comments.go:110-137 | a batch stops at the first submission that had a problem before the batch, with that problem; posts to the others never make or cure one |
| `ReviewDesk.BatchesFitOnePage` | service/siteservice_comments.go:89-106 | the search behind a batch finds all of it exactly if it has at most a hundred different submissions |
| `ReviewDesk.BatchIsSteps` | service/siteservice_comments.go:110-283 | a committed batch is one step of the review machine per listed submission, refusals are skipped only under "ignore duplicates", others are untouched, and the count is of the posts made |
| `ReviewTransactions.EveryCommittedRowIsDerived` | database/submission_locks.go:8-23 | in every committed state of every interleaving each submission has exactly one cache row and it is the derivation of its history |
| `ReviewTransactions.CoherenceLasts` | database/submission_locks.go:8-12 | a submission whose row is right stays right through every interleaving |
| `ReviewTransactions.HoldersReadCommitted` | service/submission_locks.go:22-36 | whoever holds a parent lock reads the committed submission through its snapshot, and nobody else is writing it |
| `ReviewTransactions.CommitMakesCoherent` | database/cache_rebuild.go:30-47 | a commit that recomputed makes the row right even if it was wrong or missing |
| `ReviewTransactions.RebuildSubmissionCacheTable` | database/cache_rebuild.go:30-47 | the repair takes the protocol's steps, refuses several rows, and otherwise leaves exactly one right row and all other submissions alone |
| `ReviewTransactions.StepKeepsInv` | service/submission_locks.go:38-60 | every disciplined step keeps locks exclusive and views of held submissions current |
| `ReviewTransactions.LateLockLosesUpdate` | database/submission_locks.go:9-11 | a run in which one lock is taken after the snapshot, and the stored row misses a committed approval |
| `SubmissionLocks.LockSubmissions` | database/submission_locks.go:13-23 | each requested id is locked once, in ascending order; the smallest id without a live submission ends the call with everything smaller locked |
| `SubmissionLocks.LockOrderIsStrict` | database/submission_locks.go:14-16 | the order is strictly ascending and has the requested ids |
| `SubmissionLocks.NoDeadlock` | database/submission_locks.go:8-23 | for any number of transactions locking arbitrary lists, every reachable state with an unfinished one has one that is not blocked |
| `SubmissionLocks.RunsAreBounded` | service/siteservice_comments.go:81-86 | every step leaves strictly less to do, so all of them end |
| `SubmissionLocks.UnsortedListsDeadlock` | database/submission_locks.go:11-12 | without sorting two transactions can wait for each other |
| `SubmissionLocks.ListSubmissionIDsForCacheRebuild` | database/cache_rebuild.go:7-25 | the next live ids in ascending order up to the limit, an error for a limit below one |
| `SubmissionLocks.RecomputeAll` | service/submission_cache_rebuild.go:20-66 | for every batch size the live ids are rebuilt in ascending order, each once, up to the first failure |
| `ChunkStore.Directory.PutChunk` | resumableuploadservice/resumableuploadservice.go:41-58 | a chunk appears complete or not at all, however the write or the rename fails |
| `ChunkStore.Directory.TestChunk` | resumableuploadservice/resumableuploadservice.go:60-82 | true exactly if the chunk is there with the given size |
| `ChunkStore.Directory.IsUploadFinished` | resumableuploadservice/resumableuploadservice.go:84-108 | true exactly if all chunks are there and their content has the expected size |
| `ChunkStore.Directory.DeleteFile` | resumableuploadservice/resumableuploadservice.go:110-125 | removes what can be removed of this upload and nothing else, and succeeds exactly if nothing of it is left |
| `ChunkStore.ContentDependsOnOwn` | resumableuploadservice/resumableuploadservice.go:19-23 | an upload's content depends only on its own chunks |
| `ChunkStore.ByteInPlace` | resumableuploadservice/resumableuploadservice.go:84-108 | every byte of every chunk stands in the content behind the bytes of all chunks before it |
| `ChunkReader.FileReader.Read` | resumableuploadservice/resumableuploadservice.go:166-226 | the loop terminates, fills the front of the buffer as specified and leaves the rest of it untouched |
| `ChunkReader.FillDelivers` | resumableuploadservice/resumableuploadservice.go:176-225 | one pass delivers the next bytes, as many as the buffer holds, falling short only at the end or at a missing chunk |
| `ChunkReader.ReaderReassembles` | resumableuploadservice/resumableuploadservice.go:166-226 | for every chunk list and all buffer sizes the Reads deliver the chunks in order, and EOF comes exactly when more was asked for than was left |
| `ChunkReader.FinishedUploadHasItsSize` | service/siteservice_resumablereceiver.go:55-61 | an upload accepted as finished is delivered with exactly the announced size |
| `ChunkReader.ReadsUpToTheGap` | resumableuploadservice/resumableuploadservice.go:207-217 | with a chunk missing, Reads are served from the chunks before it and the first one past it fails |
| `ChunkReader.ReadAfterFailureSkips` | resumableuploadservice/resumableuploadservice.go:166-226 | a Read fails if and only if a chunk is missing further on and it wants more than comes before; the Read after it goes on behind the missing chunk |
| `ChunkReader.ReadsStayInOrder` | resumableuploadservice/resumableuploadservice.go:166-226 | for all buffer sizes, and also after failed Reads, only a prefix of the chunks before the first missing one is delivered, if and only if no chunk with bytes in it follows a missing one |
| `ChunkReader.MissingChunkIsSkipped` | resumableuploadservice/resumableuploadservice.go:207-217 | with the second of three chunks missing, two Reads deliver the first and the third |
| `UploadJobs.UploadJob.Receive` | service/siteservice_resumablereceiver.go:32-70 | the section under the job's mutex, branch by branch: mismatch, retry rule, tracking, storing, completion |
| `UploadJobs.StartedMeansComplete` | service/siteservice_resumablereceiver.go:38-69 | a worker starts only for a complete upload of the announced size, from a receiving job or as the very next attempt of a retryable failed one |
| `UploadJobs.EachReplyExactly` | service/siteservice_resumablereceiver.go:32-70 | when each reply is due, told from job and post: mismatch, bad retry, unsafe retry, tracking, store error; a matching chunk for a receiving job, or for a retryable failed one at the next attempt, that is stored cleanly and readably is accepted, or starts the worker exactly if the upload is then complete, with a ticket given before kept |
| `UploadJobs.EachReplyLeaves` | service/siteservice_resumablereceiver.go:32-70 | what each reply leaves of job and files: refusals change no file, a stored chunk is there, all others are as before |
| `UploadJobs.PinIsGivenBack` | service/siteservice_resumablereceiver.go:27-31 | whatever becomes of a chunk, the pin taken for it is given back |
| `UploadJobs.CleanupForgets` | service/upload_jobs.go:102-109 | a successful upload leaves none of its files behind that could be removed, so the same upload starts from nothing, and no other upload's content changes |
| `UploadJobs.PinExactly` | service/upload_jobs.go:65-81 | when an acquisition succeeds and when the registry is full, and that it changes no other job |
| `UploadJobs.PinnedJobIs` | service/upload_jobs.go:65-81 | the pinned job is the one of the key with one more pin, or a new one that has received nothing |
| `UploadJobs.SweepExactly` | service/upload_jobs.go:47-64 | the sweep removes exactly the removable files of the jobs that nobody holds, processes or has touched for a day, and forgets those of which no file is left |
| `UploadJobs.Registry.Sweep` | service/upload_jobs.go:47-64 | in any iteration order the sweep removes the files of the doomed jobs and forgets exactly those of which no file is left |
| `UploadJobs.Registry.Acquire` | service/upload_jobs.go:37-81 | validation, sweep, and then pinning the job of the key or registering a new one if there is room |
| `UploadJobs.Registry.Release` | service/upload_jobs.go:79-79 | one reference less and nothing else |
| `UploadJobs.Registry.IsChunkReceived` | service/siteservice_resumablereceiver.go:91-139 | answers from the files of a receiving job and leaves the registry as it was |
| `UploadJobs.Registry.ReceiveSubmissionChunk` | service/siteservice_resumablereceiver.go:18-71 | every outcome of a posted chunk, from the refusals that change nothing to the section of the pinned job, with the pin given back |
| `UploadJobs.UploadJob.BeforeCommit` | service/upload_jobs.go:113-113 | the job is no longer retryable and nothing else changes |
| `UploadJobs.UploadJob.Finish` | service/upload_jobs.go:87-112 | success removes the upload's own files, failure keeps them, a panic also makes the job unretryable |
| `UploadProtocol.UploadCommitsAtMostOnce` | service/upload_jobs.go:85-114 | over all interleavings, retries, failures, panics and ambiguous commits a job has at most one worker at a time and at most one attempt reaches the commit point |
| `UploadProtocol.NothingRestartsAfterCommit` | service/siteservice_resumablereceiver.go:38-51 | after the commit point no chunk starts a worker or writes a file |
| `UploadProtocol.PinnedJobsStayRegistered` | service/upload_jobs.go:48-80 | a pinned or processing job stays the registered owner of its key, and the registry stays within its limit |
| `UploadProtocol.WorkersReadTheirUpload` | service/upload_jobs.go:85-114 | Reads made at any moments of a worker's life, with any buffers and anything going on in between, deliver in order exactly the upload of the announced size it was started on, and report its end exactly |
| `UploadProtocol.NewJobsFindLeftovers` | service/upload_jobs.go:43-77 | from any files at the start, a newly registered job finds under its key exactly the files that were there at the start and have never been gone since, with their old bytes, and nothing another job has received |
| `UploadProtocol.NewJobsFindNothing` | service/upload_jobs.go:43-77 | it finds nothing if and only if each file of its key at the start has been gone at some moment |
| `UploadProtocol.RemovedByItsUpload` | service/upload_jobs.go:47-112 | a file goes in exactly these cases: swept with its own expired job, cleaned up by its own finished worker, or a partial file renamed into place |
| `UploadProtocol.AcquireIsPin` | service/upload_jobs.go:37-81 | the protocol's acquisition is, seen through the registry, what the registry object does |
| `UploadProtocol.StepKeepsInv` | service/upload_jobs.go:37-114 | every locked section keeps counts, ownership, files and worker state consistent |
| `UploadProtocol.LeftoverChunksPassAsNew` | service/upload_jobs.go:43-46 | a run from a directory with an old second chunk in which a worker is started on the one chunk the client has posted followed by the old one |
| `Sql.PlainLikeIsContains` | utils/utils.go:67-69 | a text without wildcards is matched by LIKE '%text%' exactly where it occurs |
| `Sql.WhereDependsOnMentions` | database/submission_search_query.go:5-14 | a WHERE list has the same truth value on rows that agree on the tables it mentions |
| `SearchText.ScanFindsMentioned` | database/submission_search_query.go:7-14 | the scan for qualified names in the text of the conditions finds every table they mention, and no other as long as no column name has a dot in it |
| `SearchJoins.SubmissionSearchFrom` | database/submission_search_query.go:7-47 | the joins emitted are, in order, exactly those needed for the tables whose qualified names occur in the text |
| `SearchJoins.PruningKeepsSelection` | database/submission_search_query.go:5-47 | for any conditions the pruned list selects the same submissions as joining everything, even with duplicate cache or metadata rows |
| `SearchJoins.PrerequisitesComeFirst` | database/submission_search_query.go:30-46 | every joined table comes after the one it hangs on |
| `SearchJoins.NeededIsLeast` | database/submission_search_query.go:8-14 | no smaller set of tables covers the mentioned ones and can be joined |
| `SearchFilter.Validate` | types/types.go:239-372 | returns the request with every field set to an empty text or to zero unset, and nothing else changed, exactly if that passes every check |
| `SearchFilter.UnzeroedIsCleaned` | types/types.go:222-237 | the filter validation works on is the request cleaned in exactly that sense; a request with nothing to clean is itself |
| `SearchFilter.CleansOneWay` | types/types.go:222-237 | the description leaves no field open |
| `SearchFilter.CheckedMeans` | types/types.go:239-372 | the checks: positive ids and pages, at most a thousand results, listed values only, and nobody's statuses without saying whose |
| `SearchFilter.Compile` | database/searchmonster.go:31-395 | for every validated filter placeholders and arguments agree in number, and with the arguments in place the conditions are true of exactly the submission and legacy rows the filter means, under NULL logic |
| `SearchFilter.CompileIdentity` | database/searchmonster.go:39-77 | the id, submitter, title, username, platform and library fields, for submissions and legacy games |
| `SearchFilter.CompileTexts` | database/searchmonster.go:78-108 | the loop over the metadata columns adds each set field on both sides, and curation notes exclude legacy games |
| `SearchFilter.CompileContents` | database/searchmonster.go:78-157 | metadata, tags, applications, file names, checksums, bot actions and levels |
| `SearchFilter.CompileAnyone` | database/searchmonster.go:169-208 | the status filters: NULL lists mean nobody |
| `SearchFilter.CompileReviewer` | database/searchmonster.go:209-299 | the status filters for one user: absence from a NULL list counts as absence |
| `SearchFilter.CompileHistory` | database/searchmonster.go:301-338 | extreme, distinct actions, launch command and the not-me filters |
| `SearchFilter.CompileRest` | database/searchmonster.go:362-395 | subscription, legacy exclusion, updater, content change and frozen |
| `SearchFilter.AddMultifilter` | database/searchmonster.go:572-625 | a comma list selects rows matching some wanted term, if there are any, and none of the unwanted ones; NULL matches neither |
| `SearchFilter.Sift` | database/searchmonster.go:573-589 | the wanted and unwanted terms are the trimmed nonempty items without and with "!" |
| `SearchFilter.SplitExactly` | database/searchmonster.go:573-573 | the items of a comma list are exactly the texts without a comma that make it up with commas between them |
| `SearchFilter.TrimExactly` | database/searchmonster.go:574-575 | trimming takes the white space off both ends and nothing else |
| `SearchFilter.FoundMeansPartOfAnAction` | database/searchmonster.go:307-320 | the distinct-action filter finds exactly the submissions one of whose action names contains the text |
| `SearchFilter.UnassignedIsFoundAsAssigned` | database/searchmonster.go:307-313 | asking for "assign-testing" finds "unassign-testing" |
| `SearchStatus.ActionSearchFinds` | database/searchmonster.go:307-320 | asking for one action finds a submission if and only if a live comment has that action, or is the withdrawal of it where the action is an assignment |
| `SearchStatus.ReviewSearchFinds` | database/searchmonster.go:169-300 | a filter on review fields finds exactly the submissions in that state of review: reviewers as derived from the history, validator verdict, frozen, and the uploaders of the newest and the oldest file |
| `SearchFilter.PlainTextMeansContains` | utils/utils.go:67-69 | a plain text filter selects the rows that contain it, and never a NULL |
| `SearchFilter.ValidateTwice` | types/types.go:222-237 | unzeroing an unzeroed filter changes nothing |
| `SearchQuery.BuildQueries` | database/searchmonster.go:13-432 | page and count query find exactly the meant rows with the comment argument first, then the submission and the legacy arguments, then limit and offset; limit and offset are those of the page asked for, page one of a hundred if nothing is said; the sort column's table is joined |
| `SearchQuery.CoreFindsTheMeant` | database/searchmonster.go:398-432 | each part of the query text receives its own arguments, and the pruned joins do not change what is found |
| `SearchPages.PrecedesIsStrictTotal` | database/submission_search_query.go:82-82 | sort value, submission id and uuid order all rows strictly, NULLs included |
| `SearchPages.OrderIsUnique` | database/submission_search_query.go:82-82 | a set of rows has only one ordered listing |
| `SearchPages.ListingIsOfTheMeant` | database/submission_search_query.go:75-82 | what the page query matches, before LIMIT, is ordered and has exactly one entry for each submission and legacy game that the filter means |
| `SearchPages.PageNumberKeepsListing` | database/searchmonster.go:159-168 | requests for different pages of one search see the same listing |
| `SearchPages.PagesAreThePrefix` | database/searchmonster.go:159-168 | the first n pages together are the first n times limit entries of the listing |
| `SearchPages.PagesOfSearch` | database/searchmonster.go:159-168 | asking for pages one to n of one search in turn returns together the first n times limit entries of its listing |
| `SearchPages.ListingIsSortedBy` | database/submission_search_query.go:51-82 | for each column that can be ordered by, and for none, what neighbouring rows of the listing are compared by, on submissions and on legacy games |
| `SearchPages.EachMatchOnOnePage` | database/searchmonster.go:159-168 | each submission and each legacy game in the database is on exactly one page if the filter means it and on none otherwise |
| `SearchPages.CountsAgree` | database/searchmonster.go:428-432 | the count query, counting distinct submission ids over its fewer joins, counts exactly the rows the filter means |
| `SearchPages.SearchSubmissions` | database/searchmonster.go:434-569 | the rows are the page of the listing that was asked for and the total is the number of rows the filter means, on all branches |
| `GameRedirects.RedirectsStayOneHop` | service/siteservice.go:251-352 | in every run of deletions and restorations with unlocked adds running through them, each target is live and each source is not, all along, if and only if each row is timely when inserted: its destination still live and its source still not, also once the transaction under way commits |
| `GameRedirects.MoveKeepsSafe` | database/postgresdal.go:1835-1864 | one move of such a run keeps that if and only if it inserts no untimely row |
| `GameRedirects.QuietWindowIsTimely` | service/siteservice.go:3324-3349 | a row that is timely at its check, which takes that no deletion of its destination or restoration of its source is under way then, is timely at its insert if none begins in between |
| `GameRedirects.OneHopAnswersTheChain` | service/siteservice.go:274-296 | over deletions of live games the table answers what following the whole chain of deletions would, none included |
| `GameRedirects.CreationKeepsOneHop` | database/postgresdal.go:1835-1844 | a new game keeps the table one hop exactly if no redirect has its id as source |
| `GameRedirects.RacingAddBreaksOneHop` | service/siteservice.go:3324-3349 | three runs that break it: a deletion of the destination or a restoration of the source between check and insert, and a deletion still uncommitted at the check |
| `RedirectTargets.OneTargetExactly` | database/postgresdal.go:1835-1903 | in every run of deletions, restorations and unlocked adds no source ever has two targets, so that looking one up has one answer, if and only if no row is inserted for a source that has one and no game that leads somewhere is deleted in favour of another |
| `RedirectTargets.MoveKeepsSingle` | database/postgresdal.go:1835-1903 | one move of such a run keeps that if and only if it meets its condition |
| `RedirectTargets.DeletedTwiceLeadsToBoth` | service/siteservice.go:251-309 | a run in which a game deleted twice leads to both its successors |
| `RedirectTargets.AdditionExactly` | database/postgresdal.go:1835-1864 | when a redirect is added, and that it is then the one row more |
| `RedirectTargets.DeletionExactly` | service/siteservice.go:251-309 | when a deletion goes through, told from the tables before it, and which rows there are then: the deleted game leads to the other one and so does whatever led to it |
| `RedirectTargets.RestorationExactly` | service/siteservice.go:312-352 | any game there is can be restored: it is live and leads nowhere, and nothing else changes |
| `RedirectChain.RestorationKeepsAnswers` | service/siteservice.go:312-340 | a restoration keeps the table in agreement with the chain of the deletions still in force if and only if no earlier deletion led to the restored game when it was deleted |
| `RedirectChain.TableAnswersChainInForce` | service/siteservice.go:251-352 | in every run of deletions and restorations the table answers that chain all along if and only if every restoration is of such a game |
| `RedirectChain.RestorationLeavesShortcut` | service/siteservice.go:327-340 | a run after which the table leads past the restored game |
| `GameRedirects.Metadata.AddGameRedirect` | database/postgresdal.go:1835-1864 | refused for a live source, a missing or deleted destination or an existing row; otherwise one row more |
| `GameRedirects.Metadata.UpdateGameRedirects` | database/postgresdal.go:1884-1903 | all redirects to the old game lead to the new one, unless the destination is not live or a key would repeat |
| `GameRedirects.Metadata.DeleteGame` | service/siteservice.go:251-309 | the whole transaction or nothing |
| `GameRedirects.Metadata.RestoreGame` | service/siteservice.go:312-352 | the game is live again and redirects nowhere |
| `GameRedirects.Metadata.GetGameRedirectTo` | database/postgresdal.go:1806-1813 | a row of this source if there is one |
| `Notifications.WakeupsAreNotLost` | service/notificationconsumer.go:21-109 | while reads succeed and commits report what they did, every committed unsent notification has a token waiting, a consumer on its way to a read or an announcement, or a producer yet to announce it |
| `Notifications.WakeupLostExactly` | service/notificationconsumer.go:21-109 | at any moment of any run, failing reads, unheard commits and restarts included, that holds if and only if every read that failed without a new token, with something announced unsent, and every commit that stored notifications but reported a failure to a producer while the consumer was idle, has been followed by an announcement or a restart |
| `Notifications.IdleMeansDrained` | service/notificationconsumer.go:25-31 | when the consumer waits without a token, whatever is unsent is still to be announced, if and only if no wake-up is lost in that sense |
| `Notifications.StepLosesWakeup` | service/notificationconsumer.go:42-67 | one step: a wake-up is lost by such a read or commit only, and only an announcement or a restart brings it back |
| `Notifications.LostWakeup` | service/notificationconsumer.go:42-67 | a run in which a notification is committed and announced, the read fails and it stays unsent with the consumer waiting |
| `Notifications.UnheardCommit` | service/siteservice_comments.go:286-298 | a run in which a commit takes effect but reports a failure, nothing is announced, and the notification stays unsent with the consumer waiting |
| `Notifications.Queue.ConsumeUntilIdle` | service/notificationconsumer.go:26-100 | one token is enough to send everything, oldest first |
| `Notifications.Queue.Consume` | service/notificationconsumer.go:41-98 | one notification is sent and marked or none is, and the token is renewed unless the queue was empty |
| `NotificationDelivery.QueuedUntilSent` | service/notificationconsumer.go:41-98 | in every run, restarts and failures included, a committed notification stays in the queue until it is sent |
| `NotificationDelivery.QueuedWasCommitted` | service/notificationconsumer.go:41-98 | in every run what is queued was there from the start or was committed by the transaction that stored it |
| `NotificationDelivery.TokenDrainsQueue` | service/notificationconsumer.go:25-98 | with a token there the consumer alone, while nothing fails, sends everything and goes idle |

## Left out

- HTTP routing, templates, scripts, Discord bots, the validator, hashing, image and pack files, OAuth and sessions: foreign calls, user interface and I/O.
- JSON encoding, statistics counters, timeouts and the integer width of the generation: a Get may give up at any moment, and the generation never wraps.
- Entries with an expiry may be stale by design; for them only the check at the end of Get is modelled.
- File name and checksum sequences of the cache row, metadata values, notifications, subscriptions and events written by the review transactions.
- The database's own enforcement of locks and snapshots is assumed as `ReviewTransactions.Possible` states it; other locks, such as the one on submission creation, are not modelled.
- `ReviewDesk.CommentDesk.ReceiveComments`: importing into Flashpoint on mark-added, and the errors of the databases, are not modelled.
- `SubmissionLocks.RecomputeAll`: the table does not change during the walk.
- `ReadCache.Cache.Publish`: the caller's test of generation, expiry and size is modelled in `CommitFence.EndStep`.
- `ChunkStore.Directory.PutChunk`: what a crash of the machine leaves behind is not modelled.
- `UploadProtocol.UploadCommitsAtMostOnce`: within one process; the two database commits of an attempt count as one commit point.
- `SearchText.ScanFindsMentioned`: texts are as in the query up to spaces and parentheses around combined conditions.
- `Sql.PlainLikeIsContains`: collations are not modelled, so text compares character by character; lower case in comment search is ASCII only.
- `SearchFilter.FoundMeansPartOfAnAction`: action names are taken to contain no character special to REGEXP.
- `SearchFilter.Sift`: white space is blank, tab, line feed and carriage return.
- The display joins of the page query, which run after LIMIT on the rows already chosen, and the cache columns carried to them.
- `ReviewRuns.RolesStayDisjoint`: deletions and Force steps are outside its runs; `ReviewApart.RolesDisjointExactly` covers every run.
- `ReviewPeople.ImportTakesThreePeople`: meta edits, deletions and Force steps are outside its runs; `ReviewImport.ImportAfterAnySteps` covers every run whose steps meet their conditions.
- `SearchPages.SearchSubmissions`: decoding of the rows and overflow of page times limit are not modelled.
- `GameRedirects.RedirectsStayOneHop`: the creation of games, which has its own lemma, and the import of a whole database by developers, which leaves redirects alone, are not part of the runs.
- `Notifications.WakeupsAreNotLost`: writers that never announce, such as meta edits and reminders, are kept apart as silent.
