# Caliber workbench: verified models

Dafny models of the stateful core of a data-caliber governance system: delivery packages that are
generated, rendered, reviewed and approved; the background workers that produce drafts; the template
versions packages are built from; batch-import confirmation; the browser's session refresh; the env-file
merger of the deployment scripts; the schema history behind the frozen migrations; global search; and the
field graph's reachability. `dafny verify dfyconfig.toml` checks everything.

Each stateful piece has the same shape. A model file defines the state and one function per step (a request,
a worker handler, an event, or a part of one between two commits); an invariants file proves what all runs
keep, and a file of outcomes what each answer of the world leads to; a service file has a class with the
source's fields whose methods do the step in place and are proved equal to the step function. The string and graph algorithms are methods with loops proved against a function
or a predicate, with the laws proved as lemmas about that function.

| files | piece |
|---|---|
| `DeliverableModel`, `DeliverableInvariants`, `DeliverableChecks`, `DeliverableRace`, `DeliverableService` | package lifecycle, approval, and approvals racing each other |
| `GenerationModel`, `GenerationInvariants`, `GenerationFields`, `GenerationStops`, `GenerationHandler`, `GenerationWorker` | the resumable package generation worker |
| `DraftModel`, `DraftOutcomes`, `DraftWorker` | the batch draft worker |
| `TemplateModel`, `TemplateService` | template versions and the packages that use them |
| `EnvText`, `EnvDict`, `EnvMerge`, `EnvArguments`, `EnvMergeScript` | the env-file merger |
| `SchemaHistory`, `SchemaColumns` | diff, plan, freeze and line chunking of the schema history |
| `SessionRefresh`, `SessionOutcomes`, `SessionClient` | single-flight session refresh |
| `SearchPattern`, `SearchRanking` | LIKE escaping; rank, sort, cut and counts of hits |
| `Reachability` | the closure computation of the field graph |
| `BatchImport`, `BatchImportVersions`, `BatchImportExact`, `BatchImportRuns`, `BatchImportService` | confirming, importing and reopening a batch |
| `PrintedKeys` | the printed scope key and the review submission payload |

What the world answers is a parameter of each step: validation results, the bytes storage returns, the
renderer's outcome, whether a job is cancelled, what a generator does, what an editor changes meanwhile.
All runs are quantified over, so every such answer is covered. SHA-256 is taken as injective: a digest is a
value that remembers what was hashed.

## Results that differ from the documented behaviour

The models follow the code. Where a promise of the code or its documentation does not hold, the exact condition
under which it holds is proved, with a run that breaks it.

- A package's number can fall behind its newest version: approving records equal to those of an older
  version goes back to that version's number (deliverables.py:816-834). From then on no new version can be
  cut until the newest version's own records are approved again (`NewestNumberAfterApproval`,
  `BehindStaysBehind`, `ReleaseCanGetStuck`).
- Starting a review commits the pending status before the submission entry is written (workflow.py:205). After
  a crash in between, a pending package names its file exactly if an entry was left from before
  (`InterruptedSubmissionNamesTheFile`, `CrashedSubmissionNamesNothing`). Without one nothing can approve it;
  with one the old review can answer while the new one is still open (`OldReviewAnswers`), which needs
  such a crash over an earlier entry (`NewestReviewAnswers`).
- An approval that loaded or checked a package can approve it after a render cleared its file, by its commit or
  by finding a version of the review (`FileKeptExactly`, `RenderingCanOvertakeApproval`,
  `StaleCheckApprovesWithoutFile`).
- Activating a template version that is not the newest makes every upload of a new file violate the version
  number constraint until the newest one is activated (`UploadOutcome`, `ActivatingAnOlderVersionBlocksUploads`,
  `BehindUntilNewestIsActivated`).
- The draft worker writes a failed scope check over completed items, so "completed stays completed" holds
  exactly for attempts that pass the check or have no completed row (`CompletedItemsStay`).
- A generation attempt can end as generation_failed although fields were completed by earlier attempts,
  because skipped fields do not count as successes (`FailedAttemptMeans`, `PartlyDonePackageFails`).
- The env merger's documentation says every key occurs once; a key set twice in the override stays twice
  (`KeysOccurOnce`, `PortSetTwice`).
- A mapping is generated again for every draft of it that an edit cleared (`DraftsAreGeneratedOnce`,
  `ClearedContentIsGeneratedAgain`).
- Two reopenings of a batch that overlap can take it to the same version twice, which is then confirmed twice
  (`VersionsGrowExactly`, `PreviewsAreFreshExactly`, `TwoReopensConfirmTwice`).
- A reopening while an apply or the import handler is under way can lead to a job for a version nobody
  confirmed, because the apply reads its version again (`ReopenInsideApply`) or because the handler writes its
  status onto the new preview (`HandlerEndsPreview`); and it can leave the job of an earlier version attached
  (`AttachesEarlierJob`). `AllIsConfirmedExactly`, `JobsAreConfirmedExactly`, `AttachedIsCurrentExactly` and
  `StaleMeansMovedOn` are the conditions; it suffices that a reopening takes effect only while no apply, other
  reopening or handler is under way (`ReopeningAtRest`).
- A version has one import job until a finished one is rerun (`OneJobUnlessRerun`, `RerunGivesTwoJobs`).

## Model

| member | source | states |
|---|---|---|
| `DeliverableInvariants.EveryRunIsSafe` | backend/app/api/deliverables.py:403-834 | after any run of requests and handlers, crashed submissions included: file id and digest are set together, generated, pending and approved packages have a file, version numbers are 1..n, no workflow and no snapshot has two versions, every version repeats a submission that was made and approved, the submission entry names the current file and the versions cut from it, and at most one review is open |
| `DeliverableInvariants.NextKeepsInv` | backend/app/api/deliverables.py:403-834 | every single step keeps that invariant |
| `DeliverableInvariants.VersionsOnlyGrow` | backend/app/api/deliverables.py:807-815 | over any run stored versions are never changed or removed |
| `DeliverableInvariants.PendingRunsNameTheFile` | backend/app/api/deliverables.py:663-680 | over every run a pending package names exactly the current file and digest if and only if it has a submission entry; unless a submission crashed it has one, for a workflow without a version |
| `DeliverableInvariants.InterruptedSubmissionNamesTheFile` | backend/app/services/governance/workflow.py:158-207 | a submission cut off after its workflow was committed names the current file exactly when an entry was there before, and without one no approval goes through |
| `DeliverableInvariants.CrashedSubmissionNamesNothing` | backend/app/services/governance/workflow.py:158-207 | a run from a new package that leaves it pending without naming its file |
| `DeliverableInvariants.OldReviewAnswers` | backend/app/api/deliverables.py:803-806 | a run after which an approval is answered by an earlier review while the new one is still open |
| `DeliverableInvariants.NewestReviewAnswers` | backend/app/services/governance/workflow.py:158-207 | over every run a pending package with an entry names its newest review exactly as long as no submission crashes after starting a workflow over an earlier entry; and a package its entry's review can approve has another one open only if the entry is not the newest one's |
| `DeliverableInvariants.CommitOutcome` | backend/alembic/versions/202607200010_caliber_document_production.py:317-324 | a commit with a ticket of any age wins exactly when nothing conflicts and its number is the newest, ends on a stored version exactly when one conflicts, and else raises without effect |
| `DeliverableInvariants.ApprovalOutcome` | backend/app/api/deliverables.py:778-834 | for every package a passed review returns a version exactly when its records have one or the package carries the newest number; it adds one exactly when the records are new; it records the version's approver unless the review already had a version; otherwise it raises and changes nothing |
| `DeliverableInvariants.NewestNumberAfterApproval` | backend/app/api/deliverables.py:807-834 | after an approval the package carries the newest number exactly when its records are not those of an older version and, if new, it carried it before |
| `DeliverableInvariants.NumberIsNewest` | backend/app/api/deliverables.py:807-834 | over every run the numbers are 1..n, and the package carries n all along exactly when no passed review is of records that an older version has |
| `DeliverableInvariants.ApprovingAgain` | backend/app/api/deliverables.py:783-788 | a second approval returns the same version and changes nothing exactly when that version belongs to this review; after a fall-back on another review's it is refused |
| `DeliverableInvariants.BehindStaysBehind` | backend/app/api/deliverables.py:807-834 | over every run a number that is behind stays behind, and no version is added, exactly until a review of the newest version's own records is approved |
| `DeliverableInvariants.ReleaseOutcome` | backend/app/api/deliverables.py:663-834 | render, submit, decide and approve in order: the exact effect on status, number and version list of any settled package |
| `DeliverableInvariants.ReleaseCanGetStuck` | backend/app/api/deliverables.py:816-834 | a run after which a review passes and its approval raises |
| `DeliverableChecks.SubmissionOutcome` | backend/app/api/deliverables.py:663-680 | a submission is accepted exactly if the package is generated, the template valid, no error is left, the row's file is stored and enabled, and the bytes read have the digest that row and file carry; it then names this file, these records and the one open review, and changes nothing else |
| `DeliverableChecks.CrashedSubmissionOutcome` | backend/app/services/governance/workflow.py:158-207 | a submission that crashes after starting its workflow passed the same checks and leaves the pending status with the new workflow only |
| `DeliverableChecks.CheckOutcome` | backend/app/api/deliverables.py:789-806 | with a row of any age the check of an approval refuses exactly what lacks an intact file, an approved review, or a submission of this file and these records; it answers with the stored version of that review, and else carries on exactly what it checked |
| `DeliverableChecks.CommitWrites` | backend/app/api/deliverables.py:807-815 | a commit without conflict writes exactly what was checked: number, file, review, digests and approver of the version, and the submission it was cut from |
| `DeliverableChecks.ApprovalGuards` | backend/app/api/deliverables.py:778-834 | for every package: a pending one is refused exactly under those conditions, an approved one is answered with the version of its review if there is one, any other is refused, and a refusal changes nothing |
| `DeliverableChecks.ApprovedByDecision` | backend/app/services/governance/workflow.py:149-207 | over any run a review is approved exactly by a decision that approves it |
| `DeliverableChecks.VersionsWereDecided` | backend/app/api/deliverables.py:789-815 | over any run every version was cut from a submission whose review was approved by such a decision |
| `DeliverableChecks.GenerationRuns` | backend/app/api/deliverables.py:403-647 | request, handler and return of a generation that nothing disturbs: the status by scope, cancellation and counts, and the rest untouched |
| `DeliverableChecks.GenerationWaits` | backend/app/api/deliverables.py:403-419 | while its handler has not run a requested generation stays generating, whatever older handlers do, until a completed job returns |
| `DeliverableChecks.RenderingRuns` | backend/app/api/deliverables.py:683-773 | request, handler and return of a rendering: generated exactly when the file was saved, with row and file agreeing on its bytes; kept when cancelled, cleared on every other failure |
| `DeliverableChecks.RenderingWaits` | backend/app/api/deliverables.py:683-694 | the same for a rendering, which a completed job settles by the file that is there |
| `DeliverableChecks.OnlyTheLastRequestCounts` | backend/app/api/deliverables.py:415-419 | after any run a handler has an effect only if no other job of its kind was requested after its own |
| `DeliverableChecks.FilesStay` | backend/app/api/deliverables.py:1336-1346 | over any run a stored file keeps its bytes and is enabled exactly until it is disabled |
| `DeliverableRace.EveryInterleavingIsSafe` | backend/app/api/deliverables.py:778-834 | with approvals cut into load, check and commit and all other steps in between: numbering, uniqueness and review of versions hold, each returned version is stored, and file and status agree if no check or commit approves a cleared package, as when nothing clears the file under an approval |
| `DeliverableRace.FileKeptExactly` | backend/app/api/deliverables.py:803-834 | in every interleaving file and status agree after every move if and only if no check that finds a version and no commit that does not raise meets a package whose file was cleared |
| `DeliverableRace.UndisturbedApprovalsKeepTheFile` | backend/app/api/deliverables.py:778-834 | it is enough that no move clears the file while an approval is under way |
| `DeliverableRace.RenderingCanOvertakeApproval` | backend/app/api/deliverables.py:715-729 | an interleaving whose commit leaves an approved package without a file |
| `DeliverableRace.StaleCheckApprovesWithoutFile` | backend/app/api/deliverables.py:803-806 | an interleaving whose last check, with a row loaded earlier, does so without any commit |
| `DeliverableRace.RacingApprovalsAgree` | backend/app/api/deliverables.py:778-834 | any number of approvals racing for any one pending package return one and the same version, add at most one, leave the package approved with its number and, unless the review had a version before, its approver, and raise only if none can succeed |
| `DeliverableService.DeliverablePackage.RequestGeneration` | backend/app/api/deliverables.py:403-408 | in place as the model step, keeping the invariant |
| `DeliverableService.DeliverablePackage.FinishGeneration` | backend/app/api/deliverables.py:415-655 | a stale fingerprint changes nothing; otherwise the status follows cancellation, scope refusal and the counters |
| `DeliverableService.DeliverablePackage.ReturnFromGeneration` | backend/app/api/deliverables.py:409-412 | only a completed job with the package still generating moves it to draft |
| `DeliverableService.DeliverablePackage.ValidatePackage` | backend/app/services/deliverables/validation_service.py:65-68 | the package is unfit for submission after an error, and without one fit exactly if it has a file |
| `DeliverableService.DeliverablePackage.RequestRender` | backend/app/api/deliverables.py:683-690 | the submission entry is dropped with the new fingerprint |
| `DeliverableService.DeliverablePackage.FinishRender` | backend/app/api/deliverables.py:701-768 | file, digest, status and submission for each of the renderer's six outcomes and for a stale job |
| `DeliverableService.DeliverablePackage.Store` | backend/app/api/deliverables.py:913-916 | no stored file is lost or changed, the answer is an enabled file with the bytes, and a file is added exactly if no enabled one had them |
| `DeliverableService.DeliverablePackage.ReturnFromRender` | backend/app/api/deliverables.py:694-696 | only a completed job with the package still generating settles the status by the file |
| `DeliverableService.DeliverablePackage.VerifyRenderedFile` | backend/app/api/deliverables.py:1336-1346 | accepted exactly if the file of the row is stored and enabled and the digest of the bytes read is that of the row and of the file |
| `DeliverableService.DeliverablePackage.SubmitForReview` | backend/app/api/deliverables.py:663-680 | accepted exactly for a generated package with valid template, no errors and an intact file; the new state is the model's, with the invariant kept |
| `DeliverableService.DeliverablePackage.OpenReview` | backend/app/services/governance/workflow.py:149-207 | afterwards the returned workflow is the only open one, and no earlier workflow changed |
| `DeliverableService.DeliverablePackage.DecideReview` | backend/app/services/governance/workflow.py:319-325 | an approved workflow takes no further decision |
| `DeliverableService.DeliverablePackage.ApprovePackage` | backend/app/api/deliverables.py:778-834 | reply and new state of an uninterrupted approval; a pending package is refused exactly if it is not reviewable |
| `DeliverableService.DeliverablePackage.InsertVersion` | backend/app/api/deliverables.py:807-834 | the insert with its integrity-error branch: wins exactly without a conflict and with the newest number, falls back exactly on a conflict, else raises without effect |
| `GenerationInvariants.CountersMatchItems` | backend/app/api/deliverables.py:475-646 | success, failed, blocked and skipped add up to the fields handled, all of them unless cancelled, and each equals the number of handled fields whose item carries that status; later fields keep their items |
| `GenerationInvariants.SharedMappingsAreGeneratedOnce` | backend/app/api/deliverables.py:546-597 | over any attempts and any edits a shared mapping is generated successfully at most once, exactly when its item is completed |
| `GenerationInvariants.DraftsAreGeneratedOnce` | backend/app/api/deliverables.py:497-537 | over any attempts and edits a mapping, shared or not, is generated exactly once for the draft it still holds and once for every draft of it that an edit cleared; at most once while nobody clears content |
| `GenerationInvariants.ClearedContentIsGeneratedAgain` | backend/app/api/deliverables.py:497-515 | a business mapping whose content was cleared is generated a second time by a retry |
| `GenerationInvariants.CompletedFieldsRest` | backend/app/api/deliverables.py:482-490 | over any attempts a completed field stays completed and is never processed again |
| `GenerationInvariants.FailedAttemptMeans` | backend/app/api/deliverables.py:647-647 | an attempt ends in generation_failed exactly when it was not cancelled, a handled field failed and no field became completed in it |
| `GenerationInvariants.PartlyDonePackageFails` | backend/app/api/deliverables.py:647-647 | two attempts at two fields that end in generation_failed with one field completed |
| `GenerationFields.EveryFieldReflectsItsMappings` | backend/app/api/deliverables.py:611-631 | in every attempt of any sequence, a field with a failed mapping failed, one with a blocked mapping is not completed, and a completed one has only drafted or governed mappings |
| `GenerationFields.FinishedFieldMeans` | backend/app/api/deliverables.py:611-630 | the item status of a field processed to its end, from its mappings' items and its readiness |
| `GenerationStops.StopsExactly` | backend/app/api/deliverables.py:484-647 | an attempt stops exactly if one of its questions for a cancellation is answered yes, which is then its last question of any kind; the package ends as cancelled exactly if one of them or the one at the end is |
| `GenerationStops.YesBeforeField` | backend/app/api/deliverables.py:487-488 | a yes before a field: no item, counter or draft is added from there on |
| `GenerationStops.YesAfterStage` | backend/app/api/deliverables.py:516-517 | a yes after a stage: its mappings are as visited, no later stage is visited, and the field's item and the counters are as before the field |
| `GenerationStops.MappingOutcome` | backend/app/api/deliverables.py:547-570 | the item of every mapping of a stage: kept for a shared one that is done, skipped for one with content, and else completed, blocked or failed by the generator's answer |
| `GenerationStops.FieldOutcome` | backend/app/api/deliverables.py:484-646 | a processed field stops the attempt exactly on a yes after one of its stages; else it is failed exactly if reading or assembling it raised or one of its mappings failed, blocked exactly if one is blocked or it is not ready, and completed in all other cases |
| `GenerationStops.ScopeOutcome` | backend/app/api/deliverables.py:420-469 | a failed scope check writes one item and one counter, generates nothing, and decides the package status |
| `GenerationHandler.PackageFollowsTheAttempt` | backend/app/api/deliverables.py:415-655 | a current job sets the package to the attempt's final status and changes nothing else of it, and exactly when that is generation_failed |
| `GenerationWorker.Worker.VisitMappings` | backend/app/api/deliverables.py:547-570 | the loop of one stage is the model's, and keeps every shared mapping generated at most once, exactly when its item is completed |
| `GenerationWorker.Worker.NextField` | backend/app/api/deliverables.py:484-646 | a field is skipped, gets a final status with exactly its counter moved, or stops the attempt with item and counters as they were; if the job is cancelled before it, nothing is generated and no item changes |
| `GenerationWorker.Worker.HandleAll` | backend/app/api/deliverables.py:484-646 | the outer loop is the model's run, and its counters are the item statuses of the handled prefix |
| `GenerationWorker.Worker.RunAttempt` | backend/app/api/deliverables.py:415-655 | the handler with its scope check: final items, counters and package status; it stops exactly if a question for a cancellation is answered yes |
| `DraftModel.CountersMatchItems` | backend/app/api/jobs.py:212-333 | success, blocked and failed are the statuses of the visited rows' items, all rows unless cancelled, with success and the sum too high by exactly the records that were lost |
| `DraftModel.CompletedItemsStay` | backend/app/api/jobs.py:248-278 | an attempt keeps every completed item exactly when its scope check passes or none of its rows was completed |
| `DraftModel.RowsAreGeneratedOnce` | backend/app/api/jobs.py:273-316 | over any attempts the exact number of generations of a row: one, less one while it is not completed, plus one per completed item a failed scope check wrote over and per lost record |
| `DraftModel.FailedScopeGeneratesAgain` | backend/app/api/jobs.py:248-265 | three attempts that generate one row twice |
| `DraftOutcomes.AttemptOutcome` | backend/app/api/jobs.py:273-316 | an attempt drafts its rows without completed item in order up to the first yes to its question whether it is cancelled; each gets the item of the generator's own answer, no other item changes, and it stops exactly if there is a yes |
| `DraftOutcomes.RefusedOutcome` | backend/app/api/jobs.py:248-265 | a failed scope check writes over exactly the rows of the attempt, counts them and drafts none |
| `DraftWorker.DraftHandler.VisitRow` | backend/app/api/jobs.py:273-316 | a visited row has one counter more, the one of its item's status, or two if its record was lost; no other item changes |
| `DraftWorker.DraftHandler.RefuseAll` | backend/app/api/jobs.py:248-265 | a failed scope check rewrites and counts every row |
| `DraftWorker.DraftHandler.GenerateAll` | backend/app/api/jobs.py:273-316 | the loop is the model's run: completed rows first, then the cancellation check |
| `DraftWorker.DraftHandler.RunJob` | backend/app/api/jobs.py:212-333 | one attempt, with the counter law and the items of the generator's answers |
| `TemplateModel.PackagesKeepTheirConfiguration` | backend/app/api/deliverables.py:126-158 | after any requests every package still has the configuration it was created with; versions are numbered 1..n and every configuration names existing sheets once per section and each column once |
| `TemplateModel.FrozenForEver` | backend/app/api/deliverables.py:127-131 | once active or used by a package, a version's mappings never change again |
| `TemplateModel.UploadOutcome` | backend/app/api/deliverables.py:75-80 | a new file becomes the next version exactly when the template's number is the newest, and else fails without effect |
| `TemplateModel.ActivatingAnOlderVersionBlocksUploads` | backend/app/api/deliverables.py:161-172 | the next new file fails exactly when a version other than the newest was activated |
| `TemplateModel.BehindUntilNewestIsActivated` | backend/app/api/deliverables.py:75-80 | from then on the template stays behind, and no run adds a version, exactly until the newest is activated |
| `TemplateModel.ThirdFileFails` | backend/app/api/deliverables.py:75-80 | a run from a new template that gets there |
| `TemplateModel.ActiveByActivation` | backend/app/api/deliverables.py:161-172 | over any run a version is active exactly from its first valid activation on |
| `TemplateModel.ConfiguredByTheLast` | backend/app/api/deliverables.py:126-158 | over any run a version has the configuration of the last request that found it neither active nor used, named sheets of its workbook only and repeated no row |
| `TemplateModel.NumberOfTheLast` | backend/app/api/deliverables.py:63-172 | over any run the template carries the number of the version uploaded or validly activated last |
| `TemplateModel.FreshSheets` | backend/app/api/deliverables.py:63-85 | the configuration of a fresh upload, sheet by sheet |
| `TemplateModel.RefusalOutcome` | backend/app/api/deliverables.py:63-172 | which answer every request gets that adds nothing, and that it changes nothing |
| `TemplateService.TemplateTables.UploadVersion` | backend/app/api/deliverables.py:63-85 | the upload in place, with one disabled mapping per sheet |
| `TemplateService.TemplateTables.ConfigureVersion` | backend/app/api/deliverables.py:126-158 | the five ways a configure request ends |
| `TemplateService.TemplateTables.InsertRows` | backend/app/models/deliverables.py:42-59 | inserting the rows one by one succeeds exactly when both unique constraints hold |
| `TemplateService.TemplateTables.ActivateVersion` | backend/app/api/deliverables.py:161-172 | activation sets the template's number to the version's |
| `TemplateService.TemplateTables.CreatePackage` | backend/app/api/deliverables.py:357-374 | a package is created exactly from an active, usable version, with its configuration |
| `EnvMerge.MergedFileReadsAsTheOverlay` | scripts/deploy/merge-env-files.py:30-97 | the merged file parses as base, overridden by override, overridden by the --set pairs, exactly when every pair has a valid key and a value without line break or trailing white space |
| `EnvMerge.MergedValues` | scripts/deploy/merge-env-files.py:30-97 | for any --set pairs on one line, valid keys or not, what the merged file parses as: the pairs with valid keys win, trailing white space dropped, and the others set nothing |
| `EnvMerge.OverrideLinesStay` | scripts/deploy/merge-env-files.py:73-83 | for any --set pairs on one line override lines keep place and wording unless their key is forced |
| `EnvMerge.MergeIsIdempotent` | scripts/deploy/merge-env-files.py:73-97 | merging again with the output as override reproduces the text |
| `EnvMerge.IdempotentExactly` | scripts/deploy/merge-env-files.py:59-97 | for pairs on one line, that holds exactly when every key is valid |
| `EnvMerge.KeysOccurOnce` | scripts/deploy/merge-env-files.py:73-97 | for any --set pairs on one line the output sets no key twice exactly when the override sets none twice |
| `EnvMerge.ScriptSetsAreSetPairs` | scripts/deploy/merge-env-files.py:59-65 | every list of --set arguments without line breaks that the script accepts gives such pairs |
| `EnvArguments.RefusedExactly` | scripts/deploy/merge-env-files.py:59-65 | the script refuses its arguments exactly if one has no equals sign |
| `EnvArguments.OneMoreArgument` | scripts/deploy/merge-env-files.py:59-65 | one more argument sets its stripped key to what follows its first equals sign; a new key comes last, a known one keeps its place |
| `EnvArguments.ForcedHoldsTheLast` | scripts/deploy/merge-env-files.py:59-65 | the forced dict holds exactly the stripped keys of the arguments, each with the value of its last argument |
| `EnvArguments.MergedFileOfArguments` | scripts/deploy/merge-env-files.py:49-97 | over the arguments: the file parses as base, override and what the arguments set, exactly if the last argument for every key has a valid key and a value without line break or trailing white space |
| `EnvArguments.SetsExactly` | scripts/deploy/merge-env-files.py:38-45 | a line of a key and a value sets that key exactly if it begins with a letter or underscore and goes on with those and digits |
| `EnvArguments.OutputLayout` | scripts/deploy/merge-env-files.py:73-96 | the output line by line: the override, a blank line if it does not end in one, then a block of the arguments' pairs the override does not set and a block of the base's pairs neither sets, each with banner and blank line and only if it has pairs |
| `EnvArguments.KeptInOrder` | scripts/deploy/merge-env-files.py:85-96 | the pairs of a block stand in the order of their dict |
| `EnvMerge.PortSetTwice` | scripts/deploy/merge-env-files.py:73-97 | an override of two lines that both set PORT, and an output that does |
| `EnvMerge.InvalidKeyGrowsTheOutput` | scripts/deploy/merge-env-files.py:59-65 | a forced key the parser rejects makes the output longer than its override every time |
| `EnvText.WrittenTextReadsBack` | scripts/deploy/merge-env-files.py:97-97 | the text written from lines reads back as those lines without the empty ones at the end |
| `EnvText.ReadsOneLine` | scripts/deploy/merge-env-files.py:35-36 | a file is read line by line, every line boundary and every carriage return with line feed counting once |
| `EnvMergeScript.ParseLine` | scripts/deploy/merge-env-files.py:38-45 | what one line sets, if anything; its key is valid, and the pair printed again parses to itself |
| `EnvMergeScript.ParseLines` | scripts/deploy/merge-env-files.py:35-46 | the dict and the list the loop fills |
| `EnvMergeScript.ParseEnv` | scripts/deploy/merge-env-files.py:30-46 | a missing file has no values and no lines |
| `EnvMergeScript.ParseSets` | scripts/deploy/merge-env-files.py:59-65 | the forced dict, or a refusal exactly if an item has no equals sign |
| `EnvMergeScript.ReplaceLines` | scripts/deploy/merge-env-files.py:73-81 | every line as it is written out |
| `EnvMergeScript.MergeFiles` | scripts/deploy/merge-env-files.py:49-97 | the whole merge as the text it writes |
| `SchemaHistory.DiffThenPatch` | scripts/migration/frozen_schema_gen.py:82-113 | patching the previous dump with the diff gives the current table-to-column map |
| `SchemaHistory.DiffListsExactlyTheDifferences` | scripts/migration/frozen_schema_gen.py:82-113 | added, removed and changed tables and columns are exactly those that differ |
| `SchemaColumns.SchemaReads` | scripts/migration/frozen_schema_gen.py:82-87 | the table-to-column map holds exactly the tables and columns of the dump, each column with the text of its last listing in the last table of that name |
| `SchemaColumns.DiffReadsTheDumps` | scripts/migration/frozen_schema_gen.py:86-113 | over the dumps themselves: tables and columns are listed as added or removed exactly if only one dump has them, and columns as changed exactly if both describe them by different texts |
| `SchemaColumns.MutatedExactly` | scripts/migration/frozen_schema_gen.py:92-110 | a table is listed as mutated exactly if both dumps have it and some column of it differs |
| `SchemaColumns.AddedInOrder` | scripts/migration/frozen_schema_gen.py:90-90 | added tables are listed in the order of the dump |
| `SchemaHistory.ReplayReconstructsHistory` | scripts/migration/frozen_schema_gen.py:116-129 | replaying the plan up to k gives the table names of dump k, for every k |
| `SchemaHistory.CreationListsAreDisjoint` | scripts/migration/frozen_schema_gen.py:116-129 | each table is created by one revision only, exactly when no removed table comes back |
| `SchemaHistory.CreationListsCoverHistory` | scripts/migration/frozen_schema_gen.py:116-129 | the creation lists cover exactly the tables ever seen |
| `SchemaHistory.FrozenIsFromTheCreator` | scripts/migration/frozen_schema_gen.py:139-142 | the frozen description of a table is from the first revision that creates it |
| `SchemaHistory.Mutations` | scripts/migration/frozen_schema_gen.py:92-110 | the loop that collects changed tables |
| `SchemaHistory.BuildPlan` | scripts/migration/frozen_schema_gen.py:116-129 | the loop that builds the plan |
| `SchemaHistory.FreezeTables` | scripts/migration/frozen_schema_gen.py:139-142 | the first description of every name is kept |
| `SchemaHistory.Chunks` | scripts/migration/frozen_schema_gen.py:168-175 | the rows of a long creation list hold its names once each in order, none is empty, and a row ends where it first exceeds the limit |
| `SessionRefresh.OneSharedRefresh` | frontend/lib/api.ts:46-93 | in any order of events at most one refresh is outstanding, its waiters share it, and no request fetches more than twice |
| `SessionRefresh.NoRefreshWithReplacedToken` | frontend/lib/api.ts:49-79 | no refresh starts with a token an earlier successful refresh replaced |
| `SessionRefresh.RefreshRecognisedUnlessAnswerLost` | frontend/lib/api.ts:49-66 | the server refuses an outstanding refresh exactly when an answer to an earlier rotation was lost |
| `SessionRefresh.WaitersShareTheResult` | frontend/lib/api.ts:86-93 | over any run, with any steps in between, a settled refresh never changes and every request that waited for it fetches again if it saved a session and ends on its 401 if not, whenever it resumes |
| `SessionRefresh.RequestsOnlyAdvance` | frontend/lib/api.ts:86-93 | over any run each change of a request takes it nearer to its end, so it changes at most four times |
| `SessionOutcomes.ResponseOutcome` | frontend/lib/api.ts:86-93 | after any run: a first 401 with a stored token leaves the request waiting for the refresh in flight, and starts exactly one, with the stored token, if there was none; a second 401 or one without a token ends it and drops the session; any other answer ends it and keeps the session |
| `SessionOutcomes.SettleOutcome` | frontend/lib/api.ts:49-66 | after any run: a granting answer that arrives saves its session; a refusal or failure saves none and leaves the stored one; a granted session is lost exactly if its answer fails |
| `SessionOutcomes.ExpiredSessionIsReplayed` | frontend/lib/api.ts:68-93 | from every reached state without refresh under way or lost answer, a request that meets a 401 is replayed and ends on its second fetch with the new session stored |
| `SessionOutcomes.ReplayedRequest` | frontend/lib/api.ts:86-93 | a run in which a request is replayed |
| `SessionClient.ApiClient.BeginRequest` | frontend/lib/api.ts:95-98 | a new request starts with its first fetch, a known one stays as it is |
| `SessionClient.ApiClient.OnResponse` | frontend/lib/api.ts:86-93 | a first 401 with a stored token leaves the request waiting for the refresh in flight, a new one with that token if there was none; the rest as the model step |
| `SessionClient.ApiClient.RefreshSession` | frontend/lib/api.ts:68-79 | the caller ends up waiting for the refresh in flight, the only one outstanding, with the invariant kept |
| `SessionClient.ApiClient.FinishRefresh` | frontend/lib/api.ts:53-66 | the session is saved exactly when the server's answer arrives and grants it |
| `SessionClient.ApiClient.OnSettled` | frontend/lib/api.ts:74-76 | the in-flight variable is cleared exactly by the refresh it holds, once that has settled |
| `SessionClient.ApiClient.ResumeWaiter` | frontend/lib/http-response.mjs:106-115 | a waiter of a settled refresh fetches again if a session was saved, and else ends and the session is cleared |
| `SearchPattern.StepsAreOnePass` | backend/app/api/global_search.py:160-162 | the three sequential replaces equal one-pass escaping |
| `SearchPattern.PatternMeansSubstring` | backend/app/api/global_search.py:160-162 | a text is LIKE the built pattern exactly when it contains the query |
| `SearchPattern.PatternIsValid` | backend/app/api/global_search.py:160-162 | the pattern never ends in or misuses the escape character |
| `SearchPattern.MatchesMeansContains` | backend/app/api/global_search.py:165-166 | some column matches exactly when some non-NULL column contains the query after folding |
| `SearchRanking.RankMeans` | backend/app/api/global_search.py:174-185 | each rank as a relation of the texts: equal, prefix, part of the title, part of title or subtitle |
| `SearchRanking.MatchedTextIsRanked` | backend/app/api/global_search.py:165-185 | title or subtitle match the built pattern exactly when the hit's rank is better than last |
| `SearchRanking.PageIsDetermined` | backend/app/api/global_search.py:150-152 | every stable sort by the key gives this page |
| `SearchRanking.PageHoldsTheBest` | backend/app/api/global_search.py:150-152 | the page has the limit's number of hits, each once, and every hit left out comes after all of them |
| `SearchRanking.PageIsInOrder` | backend/app/api/global_search.py:150-152 | ranks never fall on the page; within a rank categories, within a category titles, within a title ids are in order, and equal hits stand as collected |
| `SearchRanking.BelowMeans` | backend/app/api/global_search.py:150-152 | the order of texts: beginnings first, else by the first character that differs |
| `SearchRanking.CategoryCounts` | backend/app/api/global_search.py:156-156 | the counts list exactly the categories on the page with their numbers |
| `Reachability.Visit` | frontend/components/TableFieldGraph.tsx:76-76 | the worklist ends on every graph with exactly the nodes a directed path reaches |
| `Reachability.Reachable` | frontend/components/TableFieldGraph.tsx:75-78 | downstream, upstream or both, by direction |
| `Reachability.UpstreamIsDownstream` | frontend/components/TableFieldGraph.tsx:76-77 | x is upstream of r exactly when r is downstream of x |
| `BatchImport.OneJobUnlessRerun` | backend/app/services/task_queue/idempotency.py:65-105 | over every interleaving, crash and reopening no two jobs have one key, a payload names the version of its key, and no version has two jobs exactly if none is a rerun |
| `BatchImport.ApplyRecovers` | backend/app/api/batch_imports.py:121-128 | repeating apply on a confirmed version attaches its one job, creating it if it is missing |
| `BatchImportVersions.VersionsGrowExactly` | backend/app/api/batch_imports.py:146-160 | over every run each revision and reopening raises the version exactly as long as no update of a reopening finds another version than the one it read; until then the version is one more than the number of them |
| `BatchImportVersions.ReopenMovesOn` | backend/app/api/batch_imports.py:153-154 | a checked reopening always takes effect, and its version is larger than before exactly if the update finds the version that was read |
| `BatchImportVersions.PreviewsAreFreshExactly` | backend/app/api/batch_imports.py:107-160 | over every run a preview shows an unconfirmed version exactly as long as no revision or reopening lands on a confirmed one, and until then no version is confirmed twice |
| `BatchImportVersions.ConfirmedOnce` | backend/app/api/batch_imports.py:107-160 | over every run in which no update of a reopening is stale, each version is confirmed at most once, none above the current one, and every preview is unconfirmed |
| `BatchImportVersions.ConfirmedAsLoaded` | backend/app/api/batch_imports.py:107-120 | in every interleaving each confirmed version was loaded by its request as the preview it then was, and confirmed unchanged while it was a preview of that version |
| `BatchImportExact.JobsAreConfirmedExactly` | backend/app/api/batch_imports.py:113-124 | over every run jobs, reruns included, exist for confirmed versions only, exactly as long as no request enqueues an unconfirmed one |
| `BatchImportExact.AllIsConfirmedExactly` | backend/app/services/metadata/batch_import.py:309-433 | over every run a batch that is no preview, every version a request goes on to enqueue and every job are confirmed, exactly as long as no handler writes onto an unconfirmed preview and no request reads its version again from one |
| `BatchImportExact.AttachedIsCurrentExactly` | backend/app/api/batch_imports.py:125-127 | over every run the attached job is one of the current version, and the batch no preview, exactly as long as no request attaches a job after the batch moved on |
| `BatchImportExact.StaleMeansMovedOn` | backend/app/api/batch_imports.py:121-127 | a job enqueued for the version read of a batch that was no preview is stale when it is attached exactly if a revision or reopening took effect since that read, whatever else happened |
| `BatchImportExact.ReopeningAtRest` | backend/app/api/batch_imports.py:107-160 | if no reopening takes effect while another apply, reopening or handler is under way, versions grow, none is confirmed twice, everything is confirmed and the attached job is current, all along the run |
| `BatchImportRuns.TwoReopensConfirmTwice` | backend/app/api/batch_imports.py:150-155 | a run of two overlapping reopenings after which version 2 was confirmed twice |
| `BatchImportRuns.HandlerEndsPreview` | backend/app/services/metadata/batch_import.py:422-433 | a run whose handler outlives a reopening, which leaves a job for an unconfirmed version |
| `BatchImportRuns.ReopenInsideApply` | backend/app/api/batch_imports.py:120-124 | a run, with a reopening inside an apply, that leaves a job for an unconfirmed version |
| `BatchImportRuns.AttachesEarlierJob` | backend/app/api/batch_imports.py:125-127 | a run that leaves a preview of version 2 with the job of version 1 attached |
| `BatchImportRuns.RerunGivesTwoJobs` | backend/app/api/jobs.py:100-116 | a run after which version 1 has two jobs |
| `BatchImportRuns.ReopenOutcome` | backend/app/api/batch_imports.py:146-160 | a reopening that nothing interrupts takes effect exactly for an attached job that ended without success |
| `BatchImportRuns.WorkOutcome` | backend/app/services/metadata/batch_import.py:309-435 | a worker that nothing disturbs ends batch and job as completed, partial or failed together, by how the items ended |
| `BatchImportRuns.RefusedWork` | backend/app/services/metadata/batch_import.py:309-313 | a worker that finds a preview, another version or another user's rerun fails the job and leaves the batch |
| `BatchImportRuns.CancelledJobStays` | backend/app/services/task_queue/inline.py:89-96 | a job cancelled while its handler ran stays cancelled and its worker ends |
| `BatchImportRuns.ReopenedBeforeRunning` | backend/app/services/metadata/batch_import.py:309-315 | a reopening between the read and the first commit of a handler is overwritten, exactly unless the handler had read a running batch |
| `BatchImportRuns.DeadWorkersRest` | backend/app/workers.py:22-29 | a worker that dies leaves batch and jobs as they are and does nothing in any run after |
| `BatchImportRuns.JobActions` | backend/app/api/jobs.py:84-116 | which jobs can be cancelled, queued again and rerun, and what that does to them; the batch stays |
| `BatchImportService.ImportBatch.LoadForApply` | backend/app/api/batch_imports.py:110-113 | a request is a conflict at once exactly if its expected version is stale |
| `BatchImportService.ImportBatch.ConfirmPreview` | backend/app/api/batch_imports.py:113-120 | the version is confirmed exactly if the preview is unchanged and the batch is still a preview of the loaded version |
| `BatchImportService.ImportBatch.ReloadVersion` | backend/app/api/batch_imports.py:120-124 | after a committed confirmation the version is read again |
| `BatchImportService.ImportBatch.EnqueueJob` | backend/app/api/batch_imports.py:121-124 | the job of the key of the held version is found or created |
| `BatchImportService.ImportBatch.AttachJob` | backend/app/api/batch_imports.py:125-127 | the job is attached to the batch as it then is |
| `BatchImportService.ImportBatch.SaveOptions` | backend/app/services/metadata/batch_import.py:243-254 | the compare-and-set revision; accepted exactly if the batch moves on |
| `BatchImportService.ImportBatch.UpdateForReopen` | backend/app/api/batch_imports.py:153-154 | the update without condition; the version grows exactly if it is not stale |
| `BatchImportService.ImportBatch.ReopenBatch` | backend/app/api/batch_imports.py:146-160 | its three parts in order: accepted exactly for an attached job that ended without success |
| `BatchImportService.ImportBatch.ChangeJob` | backend/app/api/jobs.py:84-116 | a job that was checked is cancelled, queued again or rerun |
| `BatchImportService.ImportBatch.RetryImport` | backend/app/api/batch_imports.py:131-143 | accepted exactly for an attached job that ended without success and has retries left |
| `BatchImportService.ImportBatch.FetchJob` | backend/app/workers.py:22-29 | a worker takes any job that is not cancelled |
| `BatchImportService.ImportBatch.StartJob` | backend/app/services/task_queue/inline.py:84-87 | the job is running, whatever became of it since it was fetched |
| `BatchImportService.ImportBatch.CheckBatch` | backend/app/services/metadata/batch_import.py:309-313 | a preview, another version or another user's rerun is refused |
| `BatchImportService.ImportBatch.CommitRunning` | backend/app/services/metadata/batch_import.py:314-315 | the status is written only if the batch was read in another one |
| `BatchImportService.ImportBatch.CommitFinal` | backend/app/services/metadata/batch_import.py:422-433 | the final status is written whatever the batch is by then |
| `BatchImportService.ImportBatch.RefreshJob` | backend/app/services/task_queue/inline.py:90-96 | a job cancelled meanwhile stays cancelled |
| `BatchImportService.ImportBatch.CommitJob` | backend/app/services/task_queue/inline.py:97-111 | any other job gets the status of its counts |
| `BatchImportService.ImportBatch.FailJob` | backend/app/services/task_queue/inline.py:103-110 | an exception fails the job and leaves the batch |
| `PrintedKeys.ScopeKeysAgree` | backend/alembic/versions/202609100023_snapshot_scope_key.py:28-30 | two rows share a key exactly when project, table and scenario number agree, NULL counting as 0 |
| `PrintedKeys.KeyConstraintMeans` | backend/alembic/versions/202609100023_snapshot_scope_key.py:53-81 | after the backfill the key constraint holds exactly when every scope numbers its snapshots once and no scenario 0 stands beside a missing one |
| `PrintedKeys.OldConstraintMisses` | backend/alembic/versions/202609100023_snapshot_scope_key.py:28-30 | a scope without scenario can repeat a number under SQL NULL uniqueness |
| `PrintedKeys.Backfill` | backend/alembic/versions/202609100023_snapshot_scope_key.py:53-64 | the loop gives every row its own key and changes nothing else |
| `PrintedKeys.PayloadDeterminesParts` | backend/app/api/deliverables.py:1331-1333 | the submission payload determines workflow, file, content hash and snapshot hash when the content hash has no colon, a missing one counting as empty |

## Left out

- Package validation, template validation, readiness, the generators, the renderer, storage and the job queue: their answers are parameters of the steps.
- Workbook reading and writing, permissions, audit, notifications, HTTP status texts and read-only endpoints.
- Freshness of the rendered file: submission checks only that the file is intact, not that it was rendered from the current content.
- Handlers of one package are one step each; in between only approvals are cut, at the points where another request can change what they read. The statements after a failed insert (rollback, lookup, commit) are one step.
- The hash in `review_submission` as text: digests are abstract values; `PayloadDeterminesParts` covers the text that is hashed.
- Templates: `is_default`, warnings and deletion of rows are not modelled, and `usable` and `structural` stand for the validation results.
- GenerationWorker: the generator with its record counts as one step whose commit does not fail, evidence, question and summary writes are not modelled, and the stale-fingerprint checks are in the package model. An attempt ends whole or at a cancellation question; a worker killed between two mappings of one stage and then retried is not among the runs.
- `_review_task_handler` of the jobs module: its inserts are not retry-safe, so no counting law holds.
- EnvMerge.MergeIsIdempotent: --set values with line breaks are not covered, because such a value is written as several lines; the same holds for OverrideLinesStay, MergedValues and KeysOccurOnce, while the round trip is stated for all values.
- EnvMerge: file encodings, and the list of keys printed to the terminal.
- SchemaHistory: foreign keys, unique constraints and indexes, which the diff does not compare; the pseudo entry for removed tables is a field of its own; sorting of column names.
- SessionRefresh: login and logout during a refresh, refresh tokens that expire or are revoked, disabled users, request time-outs, and the /auth paths, which never refresh.
- SearchPattern: the database's case folding is any mapping of characters that keeps the three special characters apart from letters.
- SearchRanking: collecting the hits per table with their limits, clipping of titles, and Python's sort itself, which is described by its result.
- BatchImport: the preview's content and the items with their statuses; one batch is modelled, so the key of its job is its version. A job may be delivered to any number of workers, and of its retry counter only whether retries are left is known.
- BatchImport: attaching a job refreshes the row and then writes it, and the handler's last write comes after a refresh too. Each is one step, because the write is dropped only if the refreshed row already held the value, as if it had been written then.
- The reachability of node names that occur in no edge is the name itself; graph layout and rendering are not modelled.
- Downgrade of the scope-key migration and the hash constraint on the same key, which has the same form as the number constraint.
