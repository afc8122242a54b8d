/**
 What the requests of a package check, in terms of its row, its files and its reviews: exactly
 when a submission is accepted, when an approval is answered, and whose decision approves a review.
 */
module DeliverableChecks {
  import opened Basics
  import opened DeliverableModel
  import opened DeliverableInvariants

  // ---------------------------------------------------------------- the rendered file

  /** The row's file is stored and enabled, and the bytes read back have the digest that both the
      row and the stored file carry. */
  predicate Intact(files: seq<StoredFile>, fileId: Option<nat>, contentHash: Option<Digest>, bytes: Content) {
    && fileId.Some? && fileId.value < |files|
    && files[fileId.value] == StoredFile(OfFile(bytes), true)
    && contentHash == Some(OfFile(bytes))
  }

  // ---------------------------------------------------------------- submission

  /** A submission is accepted exactly for a generated package with a valid template, no errors and
      an intact file. It then puts the package under review by the one open workflow, and records a
      submission of this file and these records; nothing else changes. */
  lemma SubmissionOutcome(d: Db, env: ReviewEnv)
    requires OneOpenReview(d.workflows)
    ensures var after := Submit(d, env);
      if d.status == Generated && env.templateValid && env.errorCount == 0 && Intact(d.files, d.fileId, d.contentHash, env.storedBytes)
      then
        && after.submission.Some?
        && var s := after.submission.value;
        && s.fileId == d.fileId && s.contentHash == Some(OfFile(env.storedBytes)) && s.snapshotHash == OfRecords(env.records)
        && s.submissionHash == OfSubmission(s.workflowId, s.fileId, s.contentHash, s.snapshotHash)
        && (forall i :: 0 <= i < |after.workflows| ==> (after.workflows[i] != WorkflowApproved <==> i == s.workflowId))
        && s.workflowId < |after.workflows| && d.workflows <= after.workflows
        && after == d.(status := PendingReview, submission := Some(s), workflows := after.workflows,
                       auditedSubmissions := d.auditedSubmissions + [s])
      else after == d
  {
  }

  /** A submission that crashes after starting its workflow passed the same checks. */
  lemma CrashedSubmissionOutcome(d: Db, env: ReviewEnv)
    ensures var after := SubmitInterrupted(d, env);
      if d.status == Generated && env.templateValid && env.errorCount == 0 && Intact(d.files, d.fileId, d.contentHash, env.storedBytes)
         && (forall i :: 0 <= i < |d.workflows| ==> d.workflows[i] == WorkflowApproved)
      then after == d.(status := PendingReview, workflows := d.workflows + [InProgress])
      else after == d
  {
  }

  // ---------------------------------------------------------------- approval

  /** The row names its intact file and these records, under a review that was approved. */
  predicate Reviewable(d: Db, row: Row, env: ReviewEnv) {
    && env.templateValid && env.errorCount == 0
    && Intact(d.files, row.fileId, row.contentHash, env.storedBytes)
    && row.submission.Some?
    && var s := row.submission.value;
    && s.workflowId < |d.workflows| && d.workflows[s.workflowId] == WorkflowApproved
    && s.fileId == row.fileId && s.contentHash == row.contentHash && s.snapshotHash == OfRecords(env.records)
    && s.submissionHash == OfSubmission(s.workflowId, s.fileId, s.contentHash, s.snapshotHash)
  }

  /** However old the row an approval has loaded, its check refuses exactly what is not reviewable,
      answers with the version its review has, and else goes on with what it has checked. */
  lemma CheckOutcome(d: Db, row: Row, env: ReviewEnv)
    ensures match ApproveCheck(d, row, env)
      case CheckDone(after, Refused) => after == d && !Reviewable(d, row, env)
      case CheckDone(after, Returned(v, idempotent)) =>
        && Reviewable(d, row, env) && idempotent && v in d.versions && v.workflowId == row.submission.value.workflowId
        && after == d.(status := Approved, versionNo := v.versionNo, submission := row.submission)
      case CheckDone(_, Raised) => false
      case Verified(t) =>
        && Reviewable(d, row, env) && (forall v | v in d.versions :: v.workflowId != row.submission.value.workflowId)
        && t == Ticket(row.versionNo, row.fileId.value, row.contentHash.value, row.submission.value, OfRecords(env.records))
  {
  }

  function RowOf(d: Db): Row {
    Row(d.versionNo, d.fileId, d.contentHash, d.submission)
  }

  /** An approval of a pending package is refused exactly if it is not reviewable; of an approved
      one it returns the version of its review, if there is one; of any other it is refused. A
      refusal changes nothing. */
  lemma ApprovalGuards(d: Db, env: ReviewEnv, approval: Approval)
    ensures var (after, reply) := Approve(d, env, approval);
      && (reply == Refused ==> after == d)
      && (d.status == PendingReview ==> (reply == Refused <==> !Reviewable(d, RowOf(d), env)))
      && (d.status == Approved ==>
            && after == d
            && (reply == Refused <==>
                  !(d.submission.Some? && exists v :: v in d.versions && v.workflowId == d.submission.value.workflowId))
            && (reply != Refused ==> reply.Returned? && reply.idempotent && reply.version in d.versions
                                     && reply.version.workflowId == d.submission.value.workflowId))
      && (d.status != PendingReview && d.status != Approved ==> reply == Refused)
  {
    CheckOutcome(d, RowOf(d), env);
  }

  /** A commit whose number, review and records are all new writes exactly what was checked: the new
      version, its number and approver, and the submission it was cut from. */
  lemma CommitWrites(d: Db, ticket: Ticket, approval: Approval)
    requires forall v | v in d.versions ::
      v.versionNo != ticket.baseNo + 1 && v.workflowId != ticket.submission.workflowId && v.snapshotHash != ticket.snapshotHash
    ensures var (after, reply) := ApproveCommit(d, ticket, approval);
      && reply.Returned? && !reply.idempotent
      && reply.version == PackageVersion(ticket.baseNo + 1, ticket.fileId, ticket.submission.workflowId, ticket.contentHash,
                                         ticket.snapshotHash, ticket.submission.submissionHash, approval)
      && after == d.(status := Approved, versionNo := ticket.baseNo + 1, approval := Some(approval),
                     submission := Some(ticket.submission), versions := d.versions + [reply.version])
  {
  }

  // ---------------------------------------------------------------- decisions

  /** A decision that approves review w is taken along the run while the review exists. */
  ghost predicate ApprovesReview(d: Db, steps: seq<Step>, w: nat)
    decreases |steps|
  {
    steps != [] &&
    ((steps[0] == DoDecide(w, WorkflowApproved) && w < |d.workflows|) || ApprovesReview(Next(d, steps[0]), steps[1..], w))
  }

  ghost predicate IsApproved(d: Db, w: nat) {
    w < |d.workflows| && d.workflows[w] == WorkflowApproved
  }

  lemma NextApproves(d: Db, step: Step, w: nat)
    ensures IsApproved(Next(d, step), w) <==> IsApproved(d, w) || (step == DoDecide(w, WorkflowApproved) && w < |d.workflows|)
  {
    if step.DoApprove? {
      ApproveKeepsWorkflows(d, step.env, step.approval);
    }
  }

  /** Along any run a review is approved exactly by a decision that approves it. */
  lemma {:induction false} ApprovedByDecision(d: Db, steps: seq<Step>, w: nat)
    ensures IsApproved(Run(d, steps), w) <==> IsApproved(d, w) || ApprovesReview(d, steps, w)
    decreases |steps|
  {
    if steps != [] {
      NextApproves(d, steps[0], w);
      ApprovedByDecision(Next(d, steps[0]), steps[1..], w);
    }
  }

  /** So every version was cut from a submission whose review somebody approved. */
  lemma VersionsWereDecided(steps: seq<Step>, v: PackageVersion)
    requires v in Run(NewPackage(), steps).versions
    ensures ApprovesReview(NewPackage(), steps, v.workflowId)
  {
    RunKeepsInv(NewPackage(), steps);
    ApprovedByDecision(NewPackage(), steps, v.workflowId);
  }

  // ---------------------------------------------------------------- generation and rendering

  /** A generation that nothing disturbs: where it leaves the status, and that it leaves the rest. */
  lemma GenerationRuns(d: Db, fingerprint: Digest, outcome: GenerateOutcome, completed: bool)
    ensures GenerateReturn(GenerateHandler(GenerateRequest(d, fingerprint), fingerprint, outcome), completed) ==
      d.(generationFingerprint := Some(fingerprint),
         status := match outcome
                   case ScopeRefused(blocked) => (if blocked then Draft else GenerationFailed)
                   case Handled(jobCancelled, failed, success) =>
                     if jobCancelled then Cancelled else if failed > 0 && success == 0 then GenerationFailed else Draft)
  {
  }

  /** A generation that is still to come, whatever older handlers do: the package is generating
      until its own handler has run or the job has completed. */
  lemma GenerationWaits(d: Db, fingerprint: Digest, older: Digest, outcome: GenerateOutcome, completed: bool)
    requires older != fingerprint
    ensures GenerateReturn(GenerateHandler(GenerateRequest(d, fingerprint), older, outcome), completed) ==
      d.(generationFingerprint := Some(fingerprint), status := if completed then Draft else Generating)
  {
  }

  /** A rendering that nothing disturbs: only a saved file makes the package generated, and the row
      names it with its digest; a cancelled one leaves the file, any other failure clears it. The
      submission entry is dropped in any case. */
  lemma RenderingRuns(d: Db, fingerprint: Digest, outcome: RenderOutcome, completed: bool)
    ensures var t := RenderReturn(RenderHandler(RenderRequest(d, fingerprint), fingerprint, outcome), completed);
      && t == d.(renderFingerprint := Some(fingerprint), submission := None, status := t.status,
                 fileId := t.fileId, contentHash := t.contentHash, files := t.files)
      && match outcome
         case Saved(content) =>
           && t.status == Generated && d.files <= t.files && Intact(t.files, t.fileId, t.contentHash, content)
           && (t.files == d.files || t.files == d.files + [StoredFile(OfFile(content), true)])
         case CancelledAtStart => t.status == Cancelled && t.fileId == d.fileId && t.contentHash == d.contentHash && t.files == d.files
         case CancelledBeforeSave => t.status == Cancelled && t.fileId == d.fileId && t.contentHash == d.contentHash && t.files == d.files
         case _ => t.status == RenderFailed && t.fileId == None && t.contentHash == None && t.files == d.files
  {
  }

  lemma RenderingWaits(d: Db, fingerprint: Digest, older: Digest, outcome: RenderOutcome, completed: bool)
    requires older != fingerprint
    ensures RenderReturn(RenderHandler(RenderRequest(d, fingerprint), older, outcome), completed) ==
      d.(renderFingerprint := Some(fingerprint), submission := None,
         status := if !completed then Generating else if d.fileId.Some? then Generated else RenderFailed)
  {
  }

  /** A submission made while a rendering was under way loses its entry when the handler decides about
      the file, but not when it is cancelled or crashes. */
  lemma HandlerAndEntry(d: Db, fingerprint: Digest, outcome: RenderOutcome)
    requires d.renderFingerprint == Some(fingerprint)
    ensures RenderHandler(d, fingerprint, outcome).submission ==
      match outcome
      case Saved(_) => None
      case TemplateInvalid => None
      case BlockingIssues => None
      case _ => d.submission
  {
  }

  /** The fingerprints of the last requests: only their handlers have an effect. */
  function LastGeneration(steps: seq<Step>, before: Option<Digest>): Option<Digest>
    decreases |steps|
  {
    if steps == [] then before
    else LastGeneration(steps[1..], if steps[0].DoGenerateRequest? then Some(steps[0].fingerprint) else before)
  }

  function LastRendering(steps: seq<Step>, before: Option<Digest>): Option<Digest>
    decreases |steps|
  {
    if steps == [] then before
    else LastRendering(steps[1..], if steps[0].DoRenderRequest? then Some(steps[0].fingerprint) else before)
  }

  lemma NextKeepsFingerprints(d: Db, step: Step)
    ensures var next := Next(d, step);
      && (!step.DoGenerateRequest? ==> next.generationFingerprint == d.generationFingerprint)
      && (!step.DoRenderRequest? ==> next.renderFingerprint == d.renderFingerprint)
  {
  }

  /** After any run the handler of a job has an effect only if no other was requested after it. */
  lemma {:induction false} OnlyTheLastRequestCounts(d: Db, steps: seq<Step>, fingerprint: Digest, g: GenerateOutcome, r: RenderOutcome)
    ensures var e := Run(d, steps);
      && e.generationFingerprint == LastGeneration(steps, d.generationFingerprint)
      && e.renderFingerprint == LastRendering(steps, d.renderFingerprint)
      && (LastGeneration(steps, d.generationFingerprint) != Some(fingerprint) ==> Next(e, DoGenerateHandler(fingerprint, g)) == e)
      && (LastRendering(steps, d.renderFingerprint) != Some(fingerprint) ==> Next(e, DoRenderHandler(fingerprint, r)) == e)
    decreases |steps|
  {
    if steps != [] {
      NextKeepsFingerprints(d, steps[0]);
      OnlyTheLastRequestCounts(Next(d, steps[0]), steps[1..], fingerprint, g, r);
    }
  }

  /** Validation: an error makes the package unfit for submission; without one it is fit exactly if it
      has a file. */
  lemma ValidationOutcome(d: Db, errorCount: nat)
    ensures Validate(d, errorCount) ==
      d.(status := if errorCount > 0 then ValidationFailed else if d.fileId.Some? then Generated else Draft)
  {
  }

  // ---------------------------------------------------------------- stored files

  lemma NextAndFile(d: Db, step: Step, id: nat)
    requires id < |d.files|
    ensures var next := Next(d, step);
      && id < |next.files| && next.files[id].contentHash == d.files[id].contentHash
      && (next.files[id].enabled <==> d.files[id].enabled && step != DoDisableFile(id))
  {
  }

  /** Along any run a stored file keeps its bytes, and is enabled exactly until it is disabled. */
  lemma {:induction false} FilesStay(d: Db, steps: seq<Step>, id: nat)
    requires id < |d.files|
    ensures var e := Run(d, steps);
      && id < |e.files| && e.files[id].contentHash == d.files[id].contentHash
      && (e.files[id].enabled <==> d.files[id].enabled && DoDisableFile(id) !in steps)
    decreases |steps|
  {
    if steps != [] {
      NextAndFile(d, steps[0], id);
      FilesStay(Next(d, steps[0]), steps[1..], id);
      assert steps == [steps[0]] + steps[1..];
    }
  }
}
