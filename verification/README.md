# onCode: propose, approve, apply

A Dafny model of the parts of onCode that carry its one rule, *propose, approve, apply*, and proofs
of what they guarantee. Run `dafny verify dfyconfig.toml` to check the project.

## What is modelled

* **Local change pipeline** (Local Agent). `LineDiff` is the line diff, its table filled in place
  and walked as in the program; `UnifiedDiff` the printer with a reader for it; `ContentChange` the
  test whether a diff changes anything. `Changes` and `Proposing` turn a change list into a plan and
  a diff text; `ProposeLaws` and `ExecutionLaws` say what acceptance means and what a plan does,
  `ReviewLaws` what a diff tells about the plan behind it. `ActualDiff` is the second diff builder.
  `ProposalStore` and `StoreRuns` are the claim protocol, alone and with any number of interleaved
  threads. `DiskApply`, `Applying` and `ApplyLaws` are the transaction that changes the disk. `Hub`
  decides, from server events, when it runs; `HubRuns` and `HubReviews` follow it through all runs,
  `HubMessages` says what it tells whom.
* **Workflow and approval engine** (server). `Workflow` holds states, rows and the atomic effect of
  each operation, with every row that was read as a parameter. `WorkflowRuns` lets any number of
  servers run transactions on rows read from any earlier commit and proves the invariant of all
  runs; `WorkflowLaws` and `WorkflowMarks` draw the consequences. `WorkflowEngine` is the engine as
  it updates its tables, proved against those functions, with the drive loops.
* **Approval intake** (server). `Intake` binds the diff hash that the agent computed and checks
  decisions against it; `IntakeRuns` follows bindings through all serialised runs, and `IntakeLaws`
  says exactly when a request is accepted.
* **Tool calls** (server). `ToolSession` has the stream session and the gateway's memory,
  `ToolRuns` every interleaving of calls, answers, time-outs and disconnects.
* **Codecs**. `Json` is the writer with a recursive-descent reader, `StringFields` the scanner of
  model output, `Ids` the typed identifiers on a UUID of version 7 (section 5.7 of RFC 9562) in both
  languages.
* `Samples` and `IntakeSamples` hold concrete hosts, disks and runs for the exceptions below.

The disk of a workspace is a mutable map from paths to texts in the class `LiveWorkspace`. Every
operating-system call on it may fail at any moment, and a failed write may leave any text at its
own path. Ghost fields remember the failures that guarantees depend on: `missed`, the files that a
backup probe wrongly reported as missing, `lookFault`, an incomplete look at the disk, `undoFault`,
a failed roll-back or clean-up, and `fault`, any failure. An approval, the clock, random bytes,
SHA-256 and path cleaning are parameters; a lemma that needs SHA-256 to be injective says so.

## What the proofs found

Where a claim that the code or its comments suggest is false, the project proves when exactly it
holds, or gives the input that breaks it.

* Unless the roll-back itself fails, a failed apply has lost exactly the files at the staging paths
  (planned path plus `.oncode-tmp`) that it had used and the files that its backup probes missed
  (`DiskApply.ApplyPaths`), so it restored the disk exactly when there were none of either
  (`Applying.FailedApplyRestoresIff`). A backup probe that fails for another reason than a missing
  file is taken for "did not exist". `DiskApply.StagingFileIsLost` and
  `DiskApply.MissedFileIsDeleted` are an instance of each loss.
* A success is the executed change list exactly when no foreign file sat at a staging path and no
  missed file was to be deleted (`ApplyLaws.AppliedIsExecuted`); a missed one stays and is reported
  as deleted (`ApplyLaws.MissedDeleteStays`).
* Once a change set is accepted again, the second hash comparison cannot fail: base hashes and
  existence checks catch every change on disk (`ApplyLaws.AcceptedAgainMeansSameDiff`).
* The conflict check alone lets a rename be followed by a change of its target; only the disk checks
  refuse it (`ProposeLaws.ConflictCheckIsNotEnough`).
* The diff text does not fix a final newline, and says nothing about an empty file
  (`UnifiedDiff.DiffTextPins`).
* The content test overlooks added lines that begin with `++` and deleted ones that begin with `--`
  (`ContentChange.ChangedIffVisibleEdit` is the exact condition), and it cannot see a final newline or
  an empty file that is created, deleted or renamed. A plan that would change the disk is overlooked
  exactly when its list does more than rewrite files as they are and no path has a visible edit
  (`ReviewLaws.OverlookedIff`). The Hub then reports an approved change as applied and never writes
  it (`HubReviews.OverlookedIsReported`, in every run; `Samples.EmptyFileIsNotWritten` creates an
  empty file).
* The Hub does not match the work item of a progress event: the apply stage of any work item writes
  the pending proposal (`HubRuns.ReviewedChangeCanBeWritten`).
* A proposal shown without an approval id replaces the stored one of the same id without being
  remembered. What is written always has the reviewed diff text (`HubRuns.WrittenIsReviewed`), and it
  is the reviewed plan exactly if the last Put under that id brought the same plan
  (`HubRuns.WrittenIsTheLastPut`); in `Samples.UnapprovedPlanIsWritten` it did not. In any case the
  written texts are the reviewed ones up to final newlines, an empty file counting as none
  (`HubReviews.WrittenTextsAreReviewed`).
* A Put under the id of a proposal that is being applied lets two threads change the disk, each after
  it has revalidated (`StoreRuns.RePutBreaksFinish`, `Samples.TwoThreadsChangeTheDisk`).
* A bind request that is not serialised with the decision replaces the approved hash exactly when it
  read the approval while that was open (`IntakeRuns.LateBindIff`,
  `IntakeSamples.ApprovedHashIsReplaced`).
* A work item is completed only by a reported apply; a plain transition to `COMPLETED`, which the
  engine allows, leaves it open (`WorkflowMarks.ItemCompletedIff`).
* The gateway's memory does not help calls that overlap: both are sent
  (`ToolRuns.TwinCallsAreBothSent`).
* The field scanner reads back exactly the non-empty maps whose keys are non-empty and free of
  quotes and backslashes (`StringFields.FlatMapReadsBackIff`).
* `UnifiedFile` trims one leading slash, so `//x` is shown as `/x`.

## Model

| member | source | states |
|---|---|---|
| LineDiff.FillTable | local-agent/internal/diff/unified.go:100-115 | the table filled from the end holds, at every pair of positions, the longest-common-subsequence length of the two suffixes |
| LineDiff.LcsOps | local-agent/internal/diff/unified.go:99-140 | table and walk together give the edit script that the diff laws are about |
| LineDiff.LcsIsLongest | local-agent/internal/diff/unified.go:100-115 | that number is the length of some common subsequence and no common subsequence is longer |
| LineDiff.ScriptTransforms | local-agent/internal/diff/unified.go:116-139 | without additions the script is the old lines, without deletions the new lines |
| LineDiff.KeptIsCommon | local-agent/internal/diff/unified.go:116-139 | the kept lines are a common subsequence of both sides, of the maximal length |
| LineDiff.ScriptIsMinimal | local-agent/internal/diff/unified.go:99-140 | no edit script between the two sides has fewer additions and deletions |
| LineDiff.ScriptDeletesFirst | local-agent/internal/diff/unified.go:105-138 | an addition is never directly followed by a deletion: the script is canonical |
| LineDiff.NoEditsIffEqual | local-agent/internal/diff/unified.go:99-140 | the script has no edit exactly when both sides are equal |
| UnifiedDiff.LinesReadBack | local-agent/internal/diff/unified.go:87-97 | newline-free lines joined with final newlines split into themselves |
| UnifiedDiff.SameLinesIff | local-agent/internal/diff/unified.go:87-97 | two texts have the same lines exactly when they agree after a missing final newline is added |
| UnifiedDiff.UnifiedFile | local-agent/internal/diff/unified.go:10-57 | the builder loop prints the header lines, the counted hunk line and one line per script step, or nothing for a file blank on both sides |
| UnifiedDiff.WriteLines | local-agent/internal/diff/unified.go:40-55 | the marked script lines are appended to the builder in order |
| UnifiedDiff.UnifiedJoin | local-agent/internal/diff/unified.go:60-72 | non-empty parts are concatenated, each ending in a newline |
| UnifiedDiff.DiffReadsBack | local-agent/internal/diff/unified.go:10-72 | a reader driven by the hunk counts recovers every printed file, whatever its content lines look like, with ranges that start at 0 exactly for an empty side and at 1 otherwise |
| UnifiedDiff.RecordsHoldTexts | local-agent/internal/diff/unified.go:10-97 | what is read back determines path and both texts up to their final newline |
| UnifiedDiff.DiffTextPins | local-agent/internal/diff/unified.go:10-97 | two change lists have the same diff text exactly when the printed files agree up to final newlines |
| ContentChange.DiffHasContentChange | local-agent/internal/idesession/hub.go:337-347 | the scan answers whether some line is an edit line and not a header line |
| ContentChange.ChangedIffVisibleEdit | local-agent/internal/idesession/hub.go:337-347 | the exact condition: true exactly when some script has an addition not starting with "++" or a deletion not starting with "--" |
| ContentChange.ChangedIsRight | local-agent/internal/idesession/hub.go:337-347 | true implies that some file differs beyond its final newline |
| ContentChange.HeaderFreeVerdictIsDiffers | local-agent/internal/idesession/hub.go:337-347 | without lines that look like headers the answer is whether some text differs beyond its final newline; final newlines and empty files never show |
| ReviewLaws.PlanChangesNothingIff | local-agent/internal/workspace/propose.go:168-221 | the plan of an accepted list leaves the disk as it is exactly when every change rewrites a file with its own text |
| ReviewLaws.ProposalShowsEditIff | local-agent/internal/idesession/hub.go:337-347 | for one-line paths an accepted proposal passes the content test exactly when some touched path has a visible edit |
| ReviewLaws.DiffShowsExecution | local-agent/internal/workspace/propose.go:168-229 | every printed file shows the text before and the text after the changes were executed in order, and every path that the execution changed is printed |
| ReviewLaws.OverlookedIff | local-agent/internal/idesession/hub.go:337-347 | for one-line paths the test overlooks a plan that would change the disk exactly when the list does more than rewrite files as they are and no path has a visible edit |
| ReviewLaws.SameDiffSameTexts | local-agent/internal/workspace/propose.go:223-229 | for relative one-line paths proposals with the same diff print the same files and leave the same texts up to final newlines, an empty file counting as none |
| ContentChange.UnchangedCanBeWrong | local-agent/internal/idesession/hub.go:337-347 | a deleted line "--x" is reported as no change |
| Applying.PlanPathsUnique | local-agent/internal/workspace/apply.go:104-108 | two ascending lists of the same paths are equal, so a plan has one list of paths |
| Proposing.ValidateChangeConflicts | local-agent/internal/workspace/propose.go:278-311 | accepts exactly the lists without the order-dependent conflicts |
| Proposing.NoTargetCreated | local-agent/internal/workspace/propose.go:301-309 | the second pass refuses exactly a rename onto a path that the list creates |
| Proposing.ReadExistingForChange | local-agent/internal/workspace/propose.go:245-254 | reads the file and compares its hash with the given base hash |
| Proposing.Collect | local-agent/internal/workspace/propose.go:168-221 | the loop over the changes gives the diff parts and the plan of the specification, or the first error |
| Proposing.Propose | local-agent/internal/workspace/propose.go:135-243 | result and error of a proposal as one specification: validation, staleness, conflicts, entries, diff text, hash, plan |
| ProposeLaws.ProposedIff | local-agent/internal/workspace/propose.go:135-243 | a proposal is made exactly for a well-formed change set, addressed to this workspace at its present revision, with distinct paths, whose changes fit the disk one by one, all of it spelled out |
| ProposeLaws.StaleIsRefused | local-agent/internal/workspace/propose.go:147-155 | a well-formed change set is refused as stale exactly if it names another base revision, whatever it changes |
| ProposeLaws.RequestCodes | local-agent/internal/workspace/propose.go:135-163 | which code refuses a malformed, misaddressed or conflicting change set |
| ProposeLaws.ReadCodes | local-agent/internal/workspace/read.go:32-95 | which code refuses a file that is outside, missing, too large or no text |
| ProposeLaws.ChangedBaseIsRefused | local-agent/internal/workspace/propose.go:245-254 | a readable file with another hash than the base hash is refused for that, and nothing else is |
| ProposeLaws.AcceptedIff | local-agent/internal/workspace/propose.go:157-229 | conflict check and disk checks together accept exactly the lists whose changes are acceptable one by one and whose paths are all distinct |
| ProposeLaws.ConflictCheckIsNotEnough | local-agent/internal/workspace/propose.go:278-311 | the conflict check alone accepts a rename followed by a change of its target |
| ProposeLaws.SortSorts | local-agent/internal/workspace/propose.go:223-228 | sorting the parts gives an ordered permutation of them |
| ProposeLaws.SortedUnique | local-agent/internal/workspace/propose.go:223-228 | parts with distinct paths have only one sorted order |
| ProposeLaws.ProposeIgnoresOrder | local-agent/internal/workspace/propose.go:135-243 | success, plan and diff text are the same for every permutation of the change list |
| ExecutionLaws.PlanIsExecution | local-agent/internal/workspace/propose.go:168-221 | applying the plan is executing the accepted changes one at a time in list order |
| ExecutionLaws.ProposalMeansExecution | local-agent/internal/workspace/propose.go:135-243 | the plan of a successful proposal means its change list on the disk it was made from |
| ExecutionLaws.RevalidatedPlan | local-agent/internal/workspace/apply.go:92-102 | a change set that is accepted again has the same diff, and its stored plan is right for the present disk |
| ExecutionLaws.AcceptanceSeesDisk | local-agent/internal/workspace/propose.go:168-221 | acceptance implies base files with the given hashes and free places for new files |
| ActualDiff.FromProposed | local-agent/internal/actualdiff/actualdiff.go:34-84 | the second diff builder prints the sorted parts of all changes |
| ActualDiff.BuildersAgree | local-agent/internal/actualdiff/actualdiff.go:46-77 | both builders print the same text for every list with clean paths that a proposal accepts |
| ProposalStore.Store.Put | local-agent/internal/workspace/propose.go:44-54 | the entry is replaced under its id and nothing else changes |
| ProposalStore.Store.ClaimForApply | local-agent/internal/workspace/propose.go:88-109 | claims exactly an entry that is neither applied nor being applied |
| ProposalStore.Store.AbortApply | local-agent/internal/workspace/propose.go:111-117 | releases the claim of an entry that is not applied |
| ProposalStore.Store.FinishApply | local-agent/internal/workspace/propose.go:72-121 | marks an entry applied unless it is missing or already applied |
| StoreRuns.RunsKeepInv | local-agent/internal/workspace/propose.go:44-121 | the claim flag stands for exactly one thread, and the flags for the number of successes, in every interleaving |
| StoreRuns.AtMostOneSuccessPerPut | local-agent/internal/workspace/apply.go:72-81 | each Put is followed by at most one successful apply, and both flags are never set together |
| StoreRuns.FinishSucceedsWithoutOverlap | local-agent/internal/workspace/apply.go:201-205 | without a Put in between, finishing after the disk change cannot fail and no other thread holds the claim |
| StoreRuns.OnlyTheHolderReleases | local-agent/internal/workspace/apply.go:76-81 | no step of another thread takes a claim from its holder |
| StoreRuns.RePutBreaksFinish | local-agent/internal/workspace/apply.go:201-205 | with a second proposal put under the id of one being applied, two threads both revalidate and change the disk, and once one has finished the other cannot |
| Samples.TwoThreadsChangeTheDisk | local-agent/internal/workspace/apply.go:201-205 | an instance: creating one file while the creation of another is put under the same id |
| DiskApply.Rollback | local-agent/internal/workspace/apply.go:112-122 | going back through the backups restores the disk unless an undo operation fails |
| DiskApply.LiveWorkspace.WriteFile | local-agent/internal/workspace/apply.go:160-164 | a failed write may leave any text at its own path and nowhere else |
| DiskApply.ReplaceFile | local-agent/internal/workspace/apply.go:210-215 | removes the destination and moves the staged file there; a failure is reported |
| DiskApply.StageAndReplace | local-agent/internal/workspace/apply.go:155-170 | a text is staged and moved into place, or everything done so far is undone |
| DiskApply.PutInPlace | local-agent/internal/workspace/apply.go:146-170 | one path reaches its planned state, or everything done so far is undone |
| DiskApply.ApplyOnePath | local-agent/internal/workspace/apply.go:124-170 | one round keeps backups and disk in step, or rolls everything back |
| DiskApply.ApplyPaths | local-agent/internal/workspace/apply.go:110-177 | all planned paths are handled, or, unless an undo operation fails, exactly the files at the staging paths of some first paths and the files that the probes missed are lost; without a failing call it stops exactly where failAfter says |
| DiskApply.RestoredIsOriginal | local-agent/internal/workspace/apply.go:112-122 | restoring the backups undoes every change within their paths |
| DiskApply.RestoredIff | local-agent/internal/workspace/apply.go:112-122 | going back through the backups gives the original disk exactly when every backup told the truth about it |
| DiskApply.MissedFileIsDeleted | local-agent/internal/workspace/apply.go:130-142 | a stopped apply of one file deletes it exactly when its backup probe missed it, unless the roll-back fails |
| DiskApply.MissedDeleteIsSkipped | local-agent/internal/workspace/apply.go:145-151 | a finished apply of one delete leaves the file exactly when its backup probe missed it |
| DiskApply.GiveUp | local-agent/internal/workspace/apply.go:112-142 | unless an undo operation fails, giving up after k paths has lost exactly the files at their staging paths and those their probes missed |
| DiskApply.RestoredIffNothingInTheWay | local-agent/internal/workspace/apply.go:112-170 | what a failed apply left is the original disk exactly when no file sat at a staging path it had used and no probe missed a file |
| DiskApply.RollbackExactIff | local-agent/internal/workspace/apply.go:112-177 | with true probes every possible outcome of a failed apply is the original disk exactly when no file sits at any staging path; the outcome after the last path decides it alone |
| DiskApply.StagingFileIsLost | local-agent/internal/workspace/apply.go:159-176 | a forced stop after one path loses the file that sat at its staging path |
| Applying.SortedPaths | local-agent/internal/workspace/apply.go:104-108 | the planned paths, each once, in ascending order |
| Applying.ProgressIsPlan | local-agent/internal/workspace/apply.go:124-170 | handling the paths one after the other is applying the plan, without deletes of missed files, to the disk without staging files |
| Applying.WholePlanIff | local-agent/internal/workspace/apply.go:145-151 | a success has put the whole plan in place exactly when no missed file was to be deleted |
| Applying.StagingHarmlessIff | local-agent/internal/workspace/apply.go:159-169 | the staging files make no difference exactly when no foreign file sits at one of them |
| Applying.ListFiles | local-agent/internal/workspace/apply.go:179-187 | the result lists every planned path once, in order, with the hash of what was written |
| Applying.PutPlan | local-agent/internal/workspace/apply.go:104-177 | on success the plan but the deletes of missed files is on the disk; on failure, unless an undo operation fails, exactly the staging files of the first n paths and the missed files are gone; without a failing call the result is determined |
| Applying.FailedApplyRestoresIff | local-agent/internal/workspace/apply.go:112-177 | a failed apply of n paths restored the disk exactly when no probe missed a file and none sat at the staging path of a written one of them |
| Applying.ApplyProposal | local-agent/internal/workspace/apply.go:91-197 | revalidation on what was seen, apply and revision step under the lock, with every failure; nothing is written if the revalidation fails, and without a failing call the answer and the disk are determined |
| Applying.ApplyChanges | local-agent/internal/workspace/apply.go:52-206 | all or nothing: on an error store, revision and other workspaces are as before and, unless an undo operation fails, the disk lost exactly used staging files and missed files; on success the revision rises by one and the plan is applied but for deletes of missed files |
| Applying.NotRefusedIff | local-agent/internal/workspace/apply.go:52-96 | a request gets as far as the disk exactly with an unobjected approval, an unclaimed proposal of the same workspace and hash, and a registered workspace |
| Applying.RefusalCodes | local-agent/internal/workspace/apply.go:65-96 | which check answers with which code, in their order |
| ApplyLaws.ChangedFileAnswer | local-agent/internal/workspace/apply.go:92-99 | "the workspace file changed" is answered exactly for a base file without its hash; other refusals are passed on |
| ApplyLaws.OneApplyPerRevision | local-agent/internal/workspace/propose.go:147-155 | an apply that names a base revision ran on it, and no proposal for that revision can be applied afterwards |
| ApplyLaws.AppliedIsExecuted | local-agent/internal/workspace/apply.go:91-206 | the disk after a success whose revalidation saw the whole disk is the change list executed in its own order, exactly when no foreign staging file was there and no missed file was to be deleted |
| ApplyLaws.MissedDeleteStays | local-agent/internal/workspace/apply.go:145-187 | a missed file that the plan deletes stays and is listed as deleted |
| ApplyLaws.AppliedOnUnchangedBase | local-agent/internal/workspace/apply.go:92-102 | a success implies unchanged base files, whatever the revalidation overlooked, and places for new files that were free as far as it saw |
| ApplyLaws.AcceptedAgainMeansSameDiff | local-agent/internal/workspace/apply.go:92-102 | once the change set is accepted again the second hash comparison cannot fail |
| ApplyLaws.AppliedTouchesNamedPathsOnly | local-agent/internal/workspace/apply.go:124-177 | paths that the change list does not name keep their content |
| ApplyLaws.StagingFileIsLostOnSuccess | local-agent/internal/workspace/apply.go:159-169 | a successful apply loses the file at a staging path that the plan does not write |
| ApplyLaws.StagingLossExample | local-agent/internal/workspace/apply.go:159-169 | such a disk and plan exist |
| Hub.Session.RememberApplyFor | local-agent/internal/idesession/apply.go:129-143 | only a complete proposal replaces the pending one |
| Hub.Session.TakePending | local-agent/internal/idesession/apply.go:232-241 | the pending apply is handed out once |
| Hub.Session.FillDrafts | local-agent/internal/idesession/apply.go:100-126 | base hashes are taken from the disk, the first failing read ends it |
| Hub.Session.PrepareStoredProposal | local-agent/internal/idesession/apply.go:70-96 | the proposal is made on the registered workspace and put into the store; the disks stay |
| Hub.Session.PushDiffReview | local-agent/internal/idesession/hub.go:275-334 | what a change.proposed event leaves pending, stores, binds and shows |
| Hub.Session.RunApply | local-agent/internal/idesession/apply.go:184-195 | the apply runs under the bound approval with the contract of ApplyChanges |
| Hub.Session.ApplyIfAuthorized | local-agent/internal/idesession/apply.go:146-211 | rejection clears, the apply stage uses the pending proposal up whatever comes of it |
| Hub.Session.ForwardServerEvent | local-agent/internal/idesession/hub.go:221-273 | state and messages after one server event, for every kind of event |
| HubRuns.WriteIsAuthorized | local-agent/internal/idesession/apply.go:146-195 | the disk changes only in stage APPLYING_CHANGE and for a pending proposal, which is used up |
| HubRuns.PendingIsLastReview | local-agent/internal/idesession/apply.go:129-143 | what is pending is always the latest remembered review |
| HubRuns.NoWriteWithoutReview | local-agent/internal/idesession/apply.go:146-241 | with nothing pending the disk stays until a review is remembered |
| HubRuns.OneWritePerReview | local-agent/internal/idesession/apply.go:232-241 | between two writes a new review was remembered |
| HubRuns.NoWriteAfterTheEnd | local-agent/internal/idesession/hub.go:263-272 | after REJECTED or COMPLETED nothing is written until a new review is remembered |
| HubRuns.WrittenIsReviewed | local-agent/internal/idesession/hub.go:306-333 | what is written is a stored proposal with exactly the diff and hash of the latest remembered review |
| HubRuns.ReviewIsPushed | local-agent/internal/idesession/hub.go:312-323 | every shown review sends one bind, with the hash, approval, work item, workspace and resource of what it shows, those of the event |
| HubMessages.WriteIsApproved | local-agent/internal/idesession/apply.go:146-195 | what is written had been remembered with an approval, and is the unclaimed stored proposal with that id, workspace and hash |
| HubMessages.CoversIff | local-agent/internal/idesession/apply.go:35-45 | the apply runs only under the very approval, change set and hash that were remembered |
| HubMessages.ApplyIsAnswered | local-agent/internal/idesession/apply.go:146-230 | an apply stage is answered once: applied exactly if nothing was to be written or the workspace got its next revision, and the server is told of exactly these |
| HubMessages.NoViewAllowsAnApply | local-agent/internal/idesession/hub.go:249-308 | no view of a design or a diff allows an apply |
| HubMessages.RefusedReviewChangesNothing | local-agent/internal/idesession/hub.go:275-301 | a proposal that cannot be read or made is refused and changes nothing |
| HubMessages.ShownHashIsOfShownDiff | local-agent/internal/idesession/hub.go:302-323 | the hash shown and pushed is that of the diff shown, stored or not |
| HubMessages.UnregisteredView | local-agent/internal/idesession/hub.go:281-307 | without a registered workspace the view names the change set and workspace of the event or their defaults |
| HubMessages.ReviewKeepsItsId | local-agent/internal/idesession/apply.go:70-82 | a proposal keeps a valid id and gets a new one otherwise |
| HubMessages.PendingIsComplete | local-agent/internal/idesession/apply.go:129-143 | only a review with change set, workspace, approval and hash is ever pending |
| HubMessages.PendingIsAsShown | local-agent/internal/idesession/hub.go:324-333 | what is pending is what was shown, for the approval and work item of the event |
| HubMessages.LastBindIsShown | local-agent/internal/idesession/hub.go:349-366 | the last approval shown is kept for the decision, a design without a hash, until a completion |
| HubMessages.LastWorkItemIs | local-agent/internal/idesession/hub.go:221-236 | the last work item is that of the last event that names one |
| HubMessages.CompletionForgets | local-agent/internal/idesession/hub.go:263-272 | a completed workflow leaves nothing remembered |
| HubMessages.ReviewIsOfTheDrafts | local-agent/internal/idesession/apply.go:100-126 | a stored proposal consists of the drafts of its event with the base hashes of the disk |
| HubRuns.WrittenIsTheLastPut | local-agent/internal/idesession/hub.go:275-334 | in every run what is written is the last proposal put under the id of the latest remembered review, so it is the reviewed plan exactly if that Put brought the same plan |
| HubRuns.WrittenIsTheReviewedPlan | local-agent/internal/idesession/hub.go:275-334 | if nobody puts another proposal under its id, it is the very proposal prepared for that review, whatever happens to disks, claims and other proposals |
| HubRuns.ReplacedPlanIsWritten | local-agent/internal/idesession/hub.go:275-334 | a proposal shown without an approval id, with the same id and diff text, is written under the approval of the first |
| Samples.UnapprovedPlanIsWritten | local-agent/internal/idesession/hub.go:275-334 | an instance: a file approved with its final newline is written without it |
| HubRuns.ReviewedChangeCanBeWritten | local-agent/internal/idesession/apply.go:146-195 | for every proposal with a visible edit, a review and an apply stage reported for any other work item put its plan on the disk |
| HubReviews.OverlookedIsReported | local-agent/internal/idesession/apply.go:146-195 | in every run the Hub answers "applied" without writing exactly if the latest remembered review showed no edit line, and a plan that would have changed the disk meets this exactly under the condition of OverlookedIff |
| HubReviews.OverlookedChangeIsNotWritten | local-agent/internal/idesession/apply.go:166-176 | for every proposal without an edit line there is a run in which it is reviewed, approved, reported as applied and not written |
| Samples.EmptyFileIsNotWritten | local-agent/internal/idesession/apply.go:166-176 | an instance: the approved creation of an empty file |
| HubReviews.WrittenTextsAreReviewed | local-agent/internal/idesession/hub.go:275-334 | in every run, for relative one-line paths, the written texts are those of the latest remembered review up to final newlines, an empty file counting as none |
| Workflow.NextLinear | server/src/main/java/com/oncode/server/workflow/WorkflowTransitions.java:65-78 | a linear successor is allowed and one rank higher; there is none exactly in waiting, terminal and applying states |
| WorkflowEngine.Database.UpdateState | server/src/main/java/com/oncode/server/persistence/WorkflowRepository.java:108-133 | one row is written exactly when the stored revision is the expected one |
| WorkflowEngine.Database.ConsumeIfRequested | server/src/main/java/com/oncode/server/persistence/ApprovalRepository.java:116-139 | a decision is written exactly to an open request |
| WorkflowEngine.Database.MarkExpired | server/src/main/java/com/oncode/server/persistence/ApprovalRepository.java:147-157 | only an open request becomes expired |
| WorkflowEngine.Database.TryAcquireLease | server/src/main/java/com/oncode/server/persistence/WorkflowRepository.java:144-163 | a lease is taken exactly when it is free or has run out |
| WorkflowEngine.ApprovalService.Request | server/src/main/java/com/oncode/server/approval/ApprovalService.java:49-89 | a request is added unless one of its kind is open |
| WorkflowEngine.ApprovalService.RequireUsable | server/src/main/java/com/oncode/server/approval/ApprovalService.java:123-135 | unknown, late and used requests are refused, and a late one is marked |
| WorkflowEngine.ApprovalService.Consume | server/src/main/java/com/oncode/server/approval/ApprovalService.java:142-171 | a usable request is consumed with the decision |
| WorkflowEngine.Engine.ApplyTransition | server/src/main/java/com/oncode/server/workflow/WorkflowEngine.java:364-404 | graph check, compare-and-set, history row and request of a waiting state in one step |
| WorkflowEngine.Engine.Receive | server/src/main/java/com/oncode/server/workflow/WorkflowEngine.java:125-160 | a new work item, its workflow and the first history row |
| WorkflowEngine.Engine.Transition | server/src/main/java/com/oncode/server/workflow/WorkflowEngine.java:171-179 | one allowed step out of a state that does not wait, or no change |
| WorkflowEngine.Engine.TargetAfterDecision | server/src/main/java/com/oncode/server/workflow/WorkflowEngine.java:435-458 | the target for kind, state, resource and decision, or a mismatch |
| WorkflowEngine.Engine.Decide | server/src/main/java/com/oncode/server/workflow/WorkflowEngine.java:192-201 | approval and workflow move together or not at all |
| WorkflowEngine.Engine.CompleteAfterApply | server/src/main/java/com/oncode/server/workflow/WorkflowEngine.java:257-273 | only an applying workflow completes, and its work item with it |
| WorkflowEngine.Engine.DriveLinearTo | server/src/main/java/com/oncode/server/agentruntime/AgentWorkflowLoop.java:112-123 | the loop follows the linear path to the target; it ends by the rank of the state |
| WorkflowEngine.Engine.ReceiveAndDriveToWaitingDesignApproval | server/src/main/java/com/oncode/server/workflow/WorkflowEngine.java:211-222 | reaches the design gate with an open request, or leaves no trace |
| WorkflowEngine.Engine.DriveToWaitingCodeApproval | server/src/main/java/com/oncode/server/workflow/WorkflowEngine.java:231-246 | reaches the code gate exactly from IMPLEMENTING, or leaves no trace |
| WorkflowEngine.DriveReachesGate | server/src/main/java/com/oncode/server/agentruntime/AgentWorkflowLoop.java:112-123 | in a consistent state the drive loop cannot fail before the next gate |
| WorkflowRuns.PerformKeeps | server/src/main/java/com/oncode/server/workflow/WorkflowEngine.java:364-404 | every operation, with rows read from any earlier state, keeps the tables consistent and only extends them |
| WorkflowRuns.RunsAreConsistent | server/src/main/java/com/oncode/server/persistence/WorkflowRepository.java:108-133 | every state of every run of any number of servers is consistent and extends all earlier ones |
| WorkflowLaws.HistoryIsTheState | server/src/main/java/com/oncode/server/workflow/WorkflowEngine.java:364-404 | each history is one gap-free allowed path, and row, previous state and revision are its end; done means completed, failed rejected, waiting one of the two gates |
| WorkflowLaws.HistoryIsLinear | server/src/main/java/com/oncode/server/workflow/WorkflowTransitions.java:14-36 | every history is a beginning of the one linear path of eleven states, departing from it only by a final rejection |
| WorkflowLaws.RevisionIsRank | server/src/main/java/com/oncode/server/workflow/WorkflowTransitions.java:14-36 | the revision is the rank of the state, or 5 or 9 when rejected |
| WorkflowLaws.HistoryOnlyGrows | server/src/main/java/com/oncode/server/workflow/WorkflowEngine.java:473-492 | committed history is never rewritten |
| WorkflowLaws.ConsumedIffNamedOnce | server/src/main/java/com/oncode/server/approval/ApprovalService.java:142-171 | an approval is consumed exactly if one history row names it, and then only one does |
| WorkflowLaws.StatesAreGated | server/src/main/java/com/oncode/server/workflow/WorkflowEngine.java:435-458 | implementation and later states imply the one design approval, applying and completion also the one code approval |
| WorkflowLaws.RejectionHasItsApproval | server/src/main/java/com/oncode/server/workflow/WorkflowEngine.java:192-201 | a rejected workflow ends with the decision that rejected it, its only rejected approval |
| WorkflowLaws.OneApprovalPerKind | server/src/main/java/com/oncode/server/workflow/WorkflowEngine.java:407-432 | a workflow opens at most one approval of each kind |
| WorkflowLaws.ExpiredWaitIsFinal | server/src/main/java/com/oncode/server/approval/ApprovalService.java:123-135 | once its request has expired a waiting workflow stays there in every continuation |
| WorkflowLaws.DecisionIsFinal | server/src/main/java/com/oncode/server/persistence/ApprovalRepository.java:116-139 | a decided approval never changes |
| WorkflowMarks.ItemCompletedIff | server/src/main/java/com/oncode/server/workflow/WorkflowEngine.java:257-273 | a work item is completed exactly when its workflow was completed after an apply; a plain transition to the same state leaves it open |
| WorkflowMarks.ResumeIsLastGate | server/src/main/java/com/oncode/server/workflow/WorkflowEngine.java:364-404 | the resume column names the gate entered last |
| WorkflowMarks.DecisionsAreTheUsers | server/src/main/java/com/oncode/server/workflow/WorkflowEngine.java:473-492 | exactly the decisions are marked as the user's in the history, and they name their approval |
| WorkflowMarks.ConsumedInTime | server/src/main/java/com/oncode/server/approval/ApprovalService.java:123-171 | every request has a deadline and is consumed before it, while open, with the decision asked for |
| WorkflowMarks.LateRequestExpires | server/src/main/java/com/oncode/server/approval/ApprovalService.java:123-135 | a request out of time is refused as expired and marked while open; nothing else changes |
| WorkflowMarks.RequestIsAlone | server/src/main/java/com/oncode/server/approval/ApprovalService.java:49-89 | a new request is the only open one of its kind, for the resource of its work item |
| WorkflowMarks.MismatchIff | server/src/main/java/com/oncode/server/workflow/WorkflowEngine.java:435-458 | a decision is a mismatch unless the workflow waits for this kind on this resource |
| WorkflowMarks.LeaseAfterStep | server/src/main/java/com/oncode/server/workflow/WorkflowEngine.java:364-404 | a waiting or ended workflow is left without a lease, any other step takes one |
| WorkflowMarks.LeaseTakenIff | server/src/main/java/com/oncode/server/persistence/WorkflowRepository.java:144-163 | a lease is taken exactly when it is free or has run out |
| Intake.ApprovalIntake.RememberWorkspace | server/src/main/java/com/oncode/server/api/ApprovalIntake.java:72-79 | the first workspace of a work item stays |
| Intake.ApprovalIntake.BindAgentDiff | server/src/main/java/com/oncode/server/api/ApprovalIntake.java:169-207 | a hash is bound exactly to an open code approval of that work item, resource and workspace |
| Intake.ApprovalIntake.Settle | server/src/main/java/com/oncode/server/api/ApprovalIntake.java:258-283 | the decision is consumed and an approved design driven on, or nothing is committed |
| Intake.ApprovalIntake.DecideApproval | server/src/main/java/com/oncode/server/api/ApprovalIntake.java:215-284 | checks in order, then settles; a late request is only marked |
| Intake.ApprovalIntake.CompleteApply | server/src/main/java/com/oncode/server/api/ApprovalIntake.java:102-135 | the reported apply completes an applying workflow and is idempotent after that |
| IntakeRuns.StoredIsLastBound | server/src/main/java/com/oncode/server/api/ApprovalIntake.java:169-207 | the stored binding is that of the last accepted bind request |
| IntakeRuns.NewlyConsumed | server/src/main/java/com/oncode/server/api/ApprovalIntake.java:215-284 | a code approval is consumed only by a decision that names it and repeats the bound hash, be it approval or rejection |
| IntakeRuns.DesignNewlyConsumed | server/src/main/java/com/oncode/server/api/ApprovalIntake.java:215-284 | a decision that consumes a design approval is addressed to it and repeats the identity of the design stored then |
| IntakeLaws.ConsumedAsShown | server/src/main/java/com/oncode/server/api/ApprovalIntake.java:241-251 | in every run a consumed design approval was decided by such a request or by the server's own loop |
| IntakeLaws.DecisionAcceptedIff | server/src/main/java/com/oncode/server/api/ApprovalIntake.java:215-284 | the exact condition under which a decision is accepted, where approval and workflow are then, and that a refusal leaves at most a mark of expiry |
| IntakeLaws.BindAcceptedIff | server/src/main/java/com/oncode/server/api/ApprovalIntake.java:169-207 | the exact condition under which a bind is accepted; it then binds this hash to this approval and resource alone |
| IntakeLaws.CompletionAcceptedIff | server/src/main/java/com/oncode/server/api/ApprovalIntake.java:102-135 | the exact condition under which a reported apply is accepted, and the completed workflow and work item |
| IntakeLaws.UnknownItemIsRefused | server/src/main/java/com/oncode/server/api/ApprovalIntake.java:110-113 | a report about a work item without a workflow changes nothing |
| IntakeLaws.NewlyRemembered | server/src/main/java/com/oncode/server/api/ApprovalIntake.java:72-79 | a workspace is remembered exactly for a known work item that has none |
| IntakeLaws.WorkspaceIsFinal | server/src/main/java/com/oncode/server/api/ApprovalIntake.java:72-79 | in every run the first workspace of a work item stays |
| IntakeRuns.BindingStays | server/src/main/java/com/oncode/server/api/ApprovalIntake.java:183-190 | nothing can be bound to a work item whose code approval is consumed |
| IntakeRuns.BindingIsFinal | server/src/main/java/com/oncode/server/api/ApprovalIntake.java:169-207 | in every run the binding never changes after the decision |
| IntakeRuns.ConsumedUnderBoundHash | server/src/main/java/com/oncode/server/api/ApprovalIntake.java:340-356 | a consumed code approval was decided under the hash that is still bound |
| IntakeRuns.AppliesTheApprovedHash | server/src/main/java/com/oncode/server/api/ApprovalIntake.java:215-284 | while applying and after completion the bound hash is the approved one |
| IntakeRuns.LateBindIff | server/src/main/java/com/oncode/server/api/ApprovalIntake.java:169-207 | after the decision a bind request is accepted, and replaces the approved hash, exactly when it read the approval while that was open |
| IntakeSamples.ApprovedHashIsReplaced | server/src/main/java/com/oncode/server/api/ApprovalIntake.java:169-207 | a run from the first request on in which a late bind replaces the approved hash |
| ToolSession.Future.Complete | server/src/main/java/com/oncode/server/api/grpc/GrpcToolSession.java:143-157 | the first value stays |
| ToolSession.Session.Detach | server/src/main/java/com/oncode/server/api/grpc/GrpcToolSession.java:47-61 | every waiting call fails, keeps a value it has, and nobody waits any more |
| ToolSession.Session.Complete | server/src/main/java/com/oncode/server/api/grpc/GrpcToolSession.java:143-157 | a response goes to the call that waits for its wire id and to no other |
| ToolSession.Session.Withdraw | server/src/main/java/com/oncode/server/api/grpc/GrpcToolSession.java:112-132 | a call that gives up stops waiting |
| ToolSession.Gateway.Begin | server/src/main/java/com/oncode/server/toolgateway/DefaultToolGateway.java:55-88 | refusal of agents that apply, and the remembered answer of a call with side effects |
| ToolSession.Gateway.RememberSideEffect | server/src/main/java/com/oncode/server/toolgateway/DefaultToolGateway.java:133-137 | a result is remembered only if there is none |
| ToolRuns.StepKeeps | server/src/main/java/com/oncode/server/api/grpc/GrpcToolSession.java:97-157 | every step of every thread keeps wire ids apart and answers with their calls |
| ToolRuns.OneCallPerResponse | server/src/main/java/com/oncode/server/api/grpc/GrpcToolSession.java:97-157 | a response reaches at most one call, the one that issued its wire id |
| ToolRuns.ResultsKeepTheirCallId | server/src/main/java/com/oncode/server/toolgateway/DefaultToolGateway.java:94-104 | every result carries the call id of the gateway call |
| ToolRuns.AgentsNeverApply | server/src/main/java/com/oncode/server/toolgateway/DefaultToolGateway.java:69-81 | in every run an agent's call to apply changes has the refusal as its result, no wire id, and nothing sent for it |
| ToolRuns.AnswerReachesTheCaller | server/src/main/java/com/oncode/server/api/grpc/GrpcToolSession.java:97-157 | the answer to a waiting call comes back to its caller under the caller's id |
| ToolRuns.DisconnectReachesTheCaller | server/src/main/java/com/oncode/server/api/grpc/GrpcToolSession.java:47-61 | when the stream ends a waiting call comes back with that |
| ToolRuns.GivenUpGetsNothing | server/src/main/java/com/oncode/server/api/grpc/GrpcToolSession.java:112-157 | what comes for a call that gave up reaches nobody |
| ToolRuns.UnconnectedComesBack | server/src/main/java/com/oncode/server/api/grpc/GrpcToolSession.java:97-111 | without a stream a call comes back at once and nothing is sent |
| ToolRuns.ReturnRemembers | server/src/main/java/com/oncode/server/toolgateway/DefaultToolGateway.java:94-118 | a call with side effects that returns or times out is remembered, if it is the first of its id |
| ToolRuns.OnlyThroughCallsAreRemembered | server/src/main/java/com/oncode/server/toolgateway/DefaultToolGateway.java:119-131 | a call that is broken off or only begins is not remembered |
| ToolRuns.RetriesAreAnsweredFromMemory | server/src/main/java/com/oncode/server/toolgateway/DefaultToolGateway.java:83-118 | once a call with side effects is through, every later call of its id returns the result of a call with that id, in every continuation, without the channel |
| ToolRuns.RememberedForever | server/src/main/java/com/oncode/server/toolgateway/DefaultToolGateway.java:133-137 | a remembered result is never replaced |
| ToolRuns.RememberedCallsSkipTheChannel | server/src/main/java/com/oncode/server/toolgateway/DefaultToolGateway.java:83-88 | a call that begins later returns exactly that result and never reaches the channel |
| ToolRuns.TwinCallsAreBothSent | server/src/main/java/com/oncode/server/toolgateway/DefaultToolGateway.java:83-94 | two calls at once with one call id are both sent |
| Json.TwoPassesAreOne | server/src/main/java/com/oncode/server/api/grpc/EventJson.java:62-64 | the two replacement passes are one pass over the characters |
| Json.WriteValue | server/src/main/java/com/oncode/server/api/grpc/EventJson.java:27-60 | the recursive loops append exactly the printed value |
| Json.Write | server/src/main/java/com/oncode/server/api/grpc/EventJson.java:18-25 | the text of the object, or of the empty one for null |
| Json.StringReadsBack | server/src/main/java/com/oncode/server/api/grpc/EventJson.java:62-64 | a quoted string ends at its own closing quote |
| Json.ReadsBack | server/src/main/java/com/oncode/server/api/grpc/EventJson.java:18-64 | whatever is printed is read back unchanged |
| Json.PrintIsInjective | server/src/main/java/com/oncode/server/api/grpc/EventJson.java:18-64 | different values are printed differently |
| StringFields.UnescapeUndoesEscape | server/src/main/java/com/oncode/server/agentruntime/DefaultAgentRuntime.java:146-159 | the two-pass unescape undoes the two-pass escape for all strings |
| StringFields.ReadStringFields | server/src/main/java/com/oncode/server/agentruntime/DefaultAgentRuntime.java:146-159 | the loop over the matches fills the map, later keys win, no match is an error |
| StringFields.MatchAtIffField | server/src/main/java/com/oncode/server/agentruntime/DefaultAgentRuntime.java:27-28 | the matcher agrees with the regular expression, in both directions |
| StringFields.FlatMapReadsBackIff | server/src/main/java/com/oncode/server/agentruntime/DefaultAgentRuntime.java:146-159 | a written flat map is read back exactly when it is not empty and its keys are non-empty without quotes and backslashes |
| Ids.FormatUuid | protocol/ids/ids.go:121-133 | the buffer is filled with the dashed lower-case text |
| Ids.ReadUuid | protocol/ids/ids.go:135-146 | digits in either case at the five places, dashes between, else none |
| Ids.NewV7 | protocol/ids/ids.go:104-119 | time, random bytes, version and variant as laid out |
| Ids.New | protocol/ids/ids.go:44-53 | an identifier of a known kind, valid for it |
| Ids.ParseOfFormat | protocol/ids/ids.go:121-146 | formatted bytes are parsed back |
| Ids.FormatOfParse | protocol/ids/ids.go:121-146 | formatting what was parsed gives its lower-case form |
| Ids.ParseOfId | protocol/ids/ids.go:63-82 | kind and bytes are parsed back exactly when version and variant are right |
| Ids.IdOfParse | protocol/ids/ids.go:63-102 | what parses is, trimmed and in lower case, the identifier of what it parses to |
| Ids.GeneratedIsValid | protocol/ids/ids.go:84-119 | a generated identifier is valid for its kind and for no other |
| Ids.EarlierSortsFirst | protocol/ids/ids.go:104-133 | identifiers of one kind sort by their 48-bit time |
| Ids.SameIdSameParts | protocol/ids/ids.go:104-119 | two identifiers of one kind are equal only if their 48-bit times and their 74 random bits are |
| Ids.OrderTurnsAtTheLimit | protocol/ids/ids.go:104-119 | at 48 bits the order turns around |
| Ids.JavaHex | server/src/main/java/com/oncode/server/api/grpc/ProtocolIds.java:66-73 | signed bytes give the digits of the unsigned ones |
| Ids.JavaUuidV7 | server/src/main/java/com/oncode/server/api/grpc/ProtocolIds.java:38-64 | the Java generator makes the same text from the same clock and random bytes |

## Left out

* Directories, file modes, symbolic links, `MkdirAll` effects and the walk of `ResolvePath`: a path
  is its cleaned form, `Host.inside` says whether it resolves, and different cleaned paths are
  different files. Trimmed names, case folding and link aliases are not part of this model.
* Concurrent edits of the disk by others while `ApplyChanges` holds the registry's lock; between
  server events the Hub runs allow any edit.
* Sizes and hashes count characters of a text, not bytes of its encoding; whether a file is valid
  UTF-8 is the predicate `Host.isText`.
* Blank and null arguments that only raise argument errors (`receive`, `request`, nil registries and
  stores), message texts, and `ProposalStore.MarkApplied` other than through `FinishApply`.
* SQL, gRPC, WebSocket, JSON libraries, Spring transactions other than "all of it or nothing",
  audit, configuration, process and Maven adapters, the VS Code extension.
* An expiry mark that an operation makes before it refuses a late request is a transaction of its
  own (`DoExpire`); the intake commits it with the refusal.
* Lease exclusion between servers: the engine overwrites the lease without checking it, and
  `tryAcquireLease` may take one for a finished workflow, so leases take part in runs but only what a
  single step does to them is claimed.
* Clocks beyond comparing a deadline with now; history is in insertion order, not by time stamp.
* What agents write besides the design text; `implementAndReview` and `startDesignApproval` take the
  transitions of the drive loops, and the agents between them do not touch the modelled tables. The
  design stub of a new design request is not stored.
* Forwarding of IDE messages by the Hub (`submitChat`, `forwardAnswer`, `forwardDecide`, `restore`)
  and reconnection.
* The claim that the hash approved on the server is the hash applied by the agent, end to end: it
  fails when proposals are sent again, so server and agent are separate theorems.
* That every tool call is answered: a request sent while the stream closes may never be, and only
  the gateway's time-out ends it.
* Blank wire ids other than the empty one, the contents of tool responses, and durations.
* `Character.isWhitespace` in Java differs from trimming for a few control characters; blank means
  empty after trimming.
* Control characters in JSON strings: the writer does not escape them, so reading back is proved for
  the reader of this project, not conformance to RFC 8259. Floating-point numbers are not part of
  this model.
* A map handed to the JSON writer is its list of entries in iteration order.
- Proposing.NoTargetCreated: is the second loop of `validateChangeConflicts` as a method of its own, to keep each loop's proof small.
- ToolSession.Session.Register: asks for a wire id that nobody waits under; generated ids are taken to be new.
- Hub.Session.PushDiffReview: the message text that goes with an unchanged review is not part of the view.
- Json.WriteValue: floating-point numbers and objects printed through their string form are not values of the model.
- Ids.NewV7: the random source is taken not to fail, so the error it could return is not modelled.
