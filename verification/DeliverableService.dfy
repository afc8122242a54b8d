/**
 The request handlers as code over a mutable package: each method assigns the fields in the
 order the handler does and is proved to commit the state the model's function gives. Every
 method keeps the invariant that all runs keep.
 */
module DeliverableService {
  import opened Basics
  import opened DeliverableModel
  import opened DeliverableInvariants
  import opened DeliverableChecks

  class DeliverablePackage {
    var status: Status
    var versionNo: nat
    var generatedFileId: Option<nat>
    var contentHash: Option<Digest>
    var submission: Option<Submission>
    var generationFingerprint: Option<Digest>
    var renderFingerprint: Option<Digest>
    var approval: Option<Approval>
    var files: seq<StoredFile>
    var workflows: seq<WorkflowStatus>
    var versions: seq<PackageVersion>
    var auditedSubmissions: seq<Submission>

    function View(): Db
      reads this
    {
      Db(status, versionNo, generatedFileId, contentHash, submission, generationFingerprint,
         renderFingerprint, approval, files, workflows, versions, auditedSubmissions)
    }

    ghost predicate Valid()
      reads this
    {
      Inv(View())
    }

    constructor ()
      ensures View() == NewPackage() && Valid()
    {
      status, versionNo := Draft, 0;
      generatedFileId, contentHash, submission := None, None, None;
      generationFingerprint, renderFingerprint, approval := None, None, None;
      files, workflows, versions, auditedSubmissions := [], [], [], [];
    }

    // -------------------------------------------------------------- generation

    method RequestGeneration(fingerprint: Digest)
      requires Valid()
      modifies this
      ensures Valid() && View() == GenerateRequest(old(View()), fingerprint)
    {
      NextKeepsInv(View(), DoGenerateRequest(fingerprint));
      status := Generating;
      generationFingerprint := Some(fingerprint);
    }

    /** The end of the generation worker; the field loop itself is in GenerationWorker. */
    method FinishGeneration(fingerprint: Digest, outcome: GenerateOutcome)
      requires Valid()
      modifies this
      ensures Valid() && View() == GenerateHandler(old(View()), fingerprint, outcome)
    {
      NextKeepsInv(View(), DoGenerateHandler(fingerprint, outcome));
      if generationFingerprint != Some(fingerprint) {
        return;
      }
      match outcome {
        case ScopeRefused(blocked) =>
          if blocked { status := Draft; } else { status := GenerationFailed; }
        case Handled(jobCancelled, failed, success) =>
          if jobCancelled {
            status := Cancelled;
          } else if failed != 0 && success == 0 {
            status := GenerationFailed;
          } else {
            status := Draft;
          }
      }
    }

    method ReturnFromGeneration(jobCompleted: bool)
      requires Valid()
      modifies this
      ensures Valid() && View() == GenerateReturn(old(View()), jobCompleted)
    {
      if jobCompleted && status == Generating {
        status := Draft;
      }
    }

    method ValidatePackage(errorCount: nat)
      requires Valid()
      modifies this
      ensures Valid() && View() == Validate(old(View()), errorCount)
      ensures status == if errorCount > 0 then ValidationFailed else if generatedFileId.Some? then Generated else Draft
    {
      ValidationOutcome(View(), errorCount);
      if errorCount != 0 {
        status := ValidationFailed;
      } else if generatedFileId.Some? {
        status := Generated;
      } else {
        status := Draft;
      }
    }

    // -------------------------------------------------------------- rendering

    method RequestRender(fingerprint: Digest)
      requires Valid()
      modifies this
      ensures Valid() && View() == RenderRequest(old(View()), fingerprint)
    {
      NextKeepsInv(View(), DoRenderRequest(fingerprint));
      status := Generating;
      renderFingerprint := Some(fingerprint);
      submission := None;
    }

    method FinishRender(fingerprint: Digest, outcome: RenderOutcome)
      requires Valid()
      modifies this
      ensures Valid() && View() == RenderHandler(old(View()), fingerprint, outcome)
      ensures submission == if renderFingerprint == Some(fingerprint) && (outcome.Saved? || outcome.TemplateInvalid? || outcome.BlockingIssues?)
                            then None else old(submission)
    {
      NextKeepsInv(View(), DoRenderHandler(fingerprint, outcome));
      if renderFingerprint != Some(fingerprint) {
        return;
      }
      HandlerAndEntry(View(), fingerprint, outcome);
      match outcome {
        case CancelledAtStart =>
          status := Cancelled;
        case TemplateInvalid =>
          status := RenderFailed;
          generatedFileId := None;
          contentHash := None;
          submission := None;
        case BlockingIssues =>
          generatedFileId := None;
          contentHash := None;
          status := RenderFailed;
          submission := None;
        case CancelledBeforeSave =>
          status := Cancelled;
        case Saved(content) =>
          var id := Store(content);
          generatedFileId := Some(id);
          contentHash := Some(files[id].contentHash);
          status := Generated;
          submission := None;
        case RendererCrashed =>
          status := RenderFailed;
          generatedFileId := None;
          contentHash := None;
      }
    }

    /** The bytes are stored once: no file is lost or changed, the answer is an enabled file with
        them, and a file is added exactly if no enabled one had them. */
    method Store(content: Content) returns (id: nat)
      modifies this`files
      ensures (files, id) == StoreFile(old(files), content)
      ensures old(files) <= files && id < |files| && files[id] == StoredFile(OfFile(content), true)
      ensures files == old(files) <==> StoredFile(OfFile(content), true) in old(files)
    {
      var existing := FindFile(files, OfFile(content));
      if existing.Some? {
        return existing.value;
      }
      id := |files|;
      files := files + [StoredFile(OfFile(content), true)];
    }

    method ReturnFromRender(jobCompleted: bool)
      requires Valid()
      modifies this
      ensures Valid() && View() == RenderReturn(old(View()), jobCompleted)
    {
      if jobCompleted && status == Generating {
        if generatedFileId.Some? { status := Generated; } else { status := RenderFailed; }
      }
    }

    // -------------------------------------------------------------- review

    method VerifyRenderedFile(storedBytes: Content) returns (ok: bool)
      ensures ok <==> Intact(files, generatedFileId, contentHash, storedBytes)
      ensures ok == FileVerified(files, generatedFileId, contentHash, storedBytes)
    {
      if generatedFileId.None? || contentHash.None? {
        return false;
      }
      var id := generatedFileId.value;
      if id >= |files| || !files[id].enabled {
        return false;
      }
      var actual := OfFile(storedBytes);
      return actual == contentHash.value && actual == files[id].contentHash;
    }

    method SubmitForReview(env: ReviewEnv) returns (accepted: bool)
      requires Valid()
      modifies this
      ensures Valid() && View() == Submit(old(View()), env)
      ensures accepted <==> old(status) == Generated && env.templateValid && env.errorCount == 0
                            && Intact(old(files), old(generatedFileId), old(contentHash), env.storedBytes)
    {
      SubmitKeepsInv(View(), env);
      SubmissionOutcome(View(), env);
      var fileOk := VerifyRenderedFile(env.storedBytes);
      if status != Generated || !env.templateValid || !fileOk || env.errorCount != 0 {
        return false;
      }
      status := PendingReview;
      var workflowId := OpenReview();
      var snapshotHash := OfRecords(env.records);
      var entry := ReviewSubmission(workflowId, generatedFileId, contentHash, snapshotHash);
      submission := Some(entry);
      auditedSubmissions := auditedSubmissions + [entry];
      return true;
    }

    /** Afterwards exactly one review is open, the returned one; one that was open stays. */
    method OpenReview() returns (workflowId: nat)
      requires OneOpenReview(workflows)
      modifies this`workflows
      ensures (workflows, workflowId) == StartWorkflow(old(workflows))
      ensures old(workflows) <= workflows && workflowId < |workflows|
      ensures forall i :: 0 <= i < |workflows| ==> (workflows[i] != WorkflowApproved <==> i == workflowId)
    {
      var open := OpenWorkflow(workflows);
      if open.Some? {
        return open.value;
      }
      workflowId := |workflows|;
      workflows := workflows + [InProgress];
    }

    method DecideReview(workflowId: nat, verdict: WorkflowStatus)
      requires Valid()
      modifies this
      ensures Valid() && View() == Decide(old(View()), workflowId, verdict)
    {
      NextKeepsInv(View(), DoDecide(workflowId, verdict));
      if workflowId < |workflows| && workflows[workflowId] != WorkflowApproved {
        workflows := workflows[workflowId := verdict];
      }
    }

    // -------------------------------------------------------------- approval

    /** The approval request, start to end. */
    method ApprovePackage(env: ReviewEnv, decision: Approval) returns (reply: Reply)
      requires Valid()
      modifies this
      ensures Valid() && (View(), reply) == Approve(old(View()), env, decision)
      ensures old(status) == PendingReview ==> (reply == Refused <==> !Reviewable(old(View()), RowOf(old(View())), env))
      ensures reply == Refused ==> View() == old(View())
    {
      ApproveKeepsInv(View(), env, decision);
      ApprovalGuards(View(), env, decision);
      if status == Approved && submission.Some? {
        var answered := FindByWorkflow(versions, submission.value.workflowId);
        if answered.Some? {
          return Returned(answered.value, true);
        }
      }
      if status != PendingReview {
        return Refused;
      }
      var row := Row(versionNo, generatedFileId, contentHash, submission);
      if !ReviewPassed(View(), row, env) {
        return Refused;
      }
      var s := submission.value;
      var existing := FindByWorkflow(versions, s.workflowId);
      if existing.Some? {
        status := Approved;
        versionNo := existing.value.versionNo;
        return Returned(existing.value, true);
      }
      reply := InsertVersion(Ticket(versionNo, generatedFileId.value, contentHash.value, s, OfRecords(env.records)), decision);
    }

    /** The insert and its recovery from a failed unique constraint. */
    method InsertVersion(ticket: Ticket, decision: Approval) returns (reply: Reply)
      requires WellNumbered(versions) && ticket.baseNo <= |versions|
      modifies this
      ensures (View(), reply) == ApproveCommit(old(View()), ticket, decision)
      ensures CommitEnds(old(View()), ticket, (View(), reply))
    {
      CommitOutcome(View(), ticket, decision);
      var version := VersionOf(ticket, decision);
      if InsertAllowed(versions, version) {
        versionNo := ticket.baseNo + 1;
        status := Approved;
        approval := Some(decision);
        submission := Some(ticket.submission);
        versions := versions + [version];
        return Returned(version, false);
      }
      var existing := FindMatch(versions, ticket.submission.workflowId, ticket.snapshotHash);
      if existing.None? {
        return Raised;
      }
      status := Approved;
      versionNo := existing.value.versionNo;
      approval := Some(existing.value.approval);
      return Returned(existing.value, true);
    }
  }
}
