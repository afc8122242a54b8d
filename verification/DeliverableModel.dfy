/**
 The delivery package of backend/app/api/deliverables.py: one package row, the tables its
 requests read and write, and one function per request or worker handler. Every function
 gives the committed state after the request. Approval is cut where other requests can get
 in between: loading the row, checking it, and committing the new version.
 */
module DeliverableModel {
  import opened Basics

  datatype Status =
    | Draft | Generating | Generated | PendingReview | Approved
    | GenerationFailed | RenderFailed | Cancelled | ValidationFailed

  /** What a stored file holds, or what the reviewed records of a package say. */
  type Content = nat

  /** SHA-256 taken as injective: a digest remembers what was hashed. */
  datatype Digest =
    | OfFile(content: Content)
    | OfRecords(records: Content)
    | OfSubmission(workflowId: nat, fileId: Option<nat>, contentHash: Option<Digest>, snapshotHash: Digest)

  /** The "review_submission" entry of the package's summary. */
  datatype Submission = Submission(
    workflowId: nat, fileId: Option<nat>, contentHash: Option<Digest>,
    snapshotHash: Digest, submissionHash: Digest)

  datatype Approval = Approval(approvedAt: nat, approvedBy: nat)

  datatype PackageVersion = PackageVersion(
    versionNo: nat, fileId: nat, workflowId: nat, contentHash: Digest,
    snapshotHash: Digest, submissionHash: Digest, approval: Approval)

  datatype StoredFile = StoredFile(contentHash: Digest, enabled: bool)

  datatype WorkflowStatus = InProgress | Rejected | WorkflowApproved

  /** Row ids of files and workflows are positions in their tables. */
  datatype Db = Db(
    status: Status,
    versionNo: nat,
    fileId: Option<nat>,
    contentHash: Option<Digest>,
    submission: Option<Submission>,
    generationFingerprint: Option<Digest>,
    renderFingerprint: Option<Digest>,
    approval: Option<Approval>,
    files: seq<StoredFile>,
    workflows: seq<WorkflowStatus>,
    versions: seq<PackageVersion>,
    auditedSubmissions: seq<Submission>)

  /** What a request sees of the services around it: template and package validation, the
      bytes storage returns for the package's file, and the records under review. */
  datatype ReviewEnv = ReviewEnv(templateValid: bool, errorCount: nat, storedBytes: Content, records: Content)

  function NewPackage(): Db {
    Db(Draft, 0, None, None, None, None, None, None, [], [], [], [])
  }

  // ---------------------------------------------------------------- generation

  datatype GenerateOutcome =
    | ScopeRefused(blocked: bool)
    | Handled(jobCancelled: bool, failed: nat, success: nat)

  function GenerateRequest(d: Db, fingerprint: Digest): Db {
    d.(status := Generating, generationFingerprint := Some(fingerprint))
  }

  /** A job whose fingerprint is stale raises before it touches the package. */
  function GenerateHandler(d: Db, fingerprint: Digest, outcome: GenerateOutcome): Db {
    if d.generationFingerprint != Some(fingerprint) then d else
    match outcome
    case ScopeRefused(blocked) => d.(status := if blocked then Draft else GenerationFailed)
    case Handled(jobCancelled, failed, success) =>
      d.(status := if jobCancelled then Cancelled
                   else if failed != 0 && success == 0 then GenerationFailed
                   else Draft)
  }

  function GenerateReturn(d: Db, jobCompleted: bool): Db {
    if jobCompleted && d.status == Generating then d.(status := Draft) else d
  }

  /** The validate endpoint: the only caller that lets package validation move the status. */
  function Validate(d: Db, errorCount: nat): Db {
    d.(status := if errorCount != 0 then ValidationFailed
                 else if d.fileId.Some? then Generated else Draft)
  }

  // ---------------------------------------------------------------- rendering

  datatype RenderOutcome =
    | CancelledAtStart
    | TemplateInvalid
    | BlockingIssues
    | CancelledBeforeSave
    | Saved(content: Content)
    | RendererCrashed

  function RenderRequest(d: Db, fingerprint: Digest): Db {
    d.(status := Generating, renderFingerprint := Some(fingerprint), submission := None)
  }

  /** An enabled file with these bytes; the query it stands for asks for no order. */
  function FindFile(files: seq<StoredFile>, h: Digest): (r: Option<nat>)
    ensures r.Some? ==> r.value < |files| && files[r.value] == StoredFile(h, true)
    ensures r.None? ==> StoredFile(h, true) !in files
  {
    if files == [] then None
    else if files[|files| - 1] == StoredFile(h, true) then Some(|files| - 1)
    else FindFile(files[..|files| - 1], h)
  }

  /** Storing bytes reuses an enabled file that already holds them. */
  function StoreFile(files: seq<StoredFile>, content: Content): (r: (seq<StoredFile>, nat))
    ensures files <= r.0
    ensures r.1 < |r.0| && r.0[r.1] == StoredFile(OfFile(content), true)
  {
    var existing := FindFile(files, OfFile(content));
    if existing.Some? then (files, existing.value)
    else (files + [StoredFile(OfFile(content), true)], |files|)
  }

  function RenderHandler(d: Db, fingerprint: Digest, outcome: RenderOutcome): Db {
    if d.renderFingerprint != Some(fingerprint) then d else
    match outcome
    case CancelledAtStart => d.(status := Cancelled)
    case TemplateInvalid => d.(status := RenderFailed, fileId := None, contentHash := None, submission := None)
    case BlockingIssues => d.(status := RenderFailed, fileId := None, contentHash := None, submission := None)
    case CancelledBeforeSave => d.(status := Cancelled)
    case Saved(content) =>
      var (files, id) := StoreFile(d.files, content);
      d.(status := Generated, fileId := Some(id), contentHash := Some(OfFile(content)), submission := None, files := files)
    case RendererCrashed => d.(status := RenderFailed, fileId := None, contentHash := None)
  }

  function RenderReturn(d: Db, jobCompleted: bool): Db {
    if jobCompleted && d.status == Generating
    then d.(status := if d.fileId.Some? then Generated else RenderFailed)
    else d
  }

  function DisableFile(d: Db, id: nat): Db {
    if id < |d.files| then d.(files := d.files[id := d.files[id].(enabled := false)]) else d
  }

  // ---------------------------------------------------------------- review

  predicate FileVerified(files: seq<StoredFile>, fileId: Option<nat>, contentHash: Option<Digest>, storedBytes: Content) {
    && fileId.Some? && contentHash.Some?
    && fileId.value < |files| && files[fileId.value].enabled
    && OfFile(storedBytes) == contentHash.value == files[fileId.value].contentHash
  }

  /** The review workflow of this package that is still open, if any. */
  function OpenWorkflow(workflows: seq<WorkflowStatus>): (r: Option<nat>)
    ensures r.Some? ==> r.value < |workflows| && workflows[r.value] != WorkflowApproved
    ensures r.None? <==> forall i :: 0 <= i < |workflows| ==> workflows[i] == WorkflowApproved
  {
    if workflows == [] then None
    else if workflows[|workflows| - 1] != WorkflowApproved then Some(|workflows| - 1)
    else OpenWorkflow(workflows[..|workflows| - 1])
  }

  /** Starting a workflow reuses an open one and creates a new one otherwise. */
  function StartWorkflow(workflows: seq<WorkflowStatus>): (r: (seq<WorkflowStatus>, nat))
    ensures workflows <= r.0
    ensures r.1 < |r.0| && r.0[r.1] != WorkflowApproved
  {
    var open := OpenWorkflow(workflows);
    if open.Some? then (workflows, open.value) else (workflows + [InProgress], |workflows|)
  }

  function ReviewSubmission(workflowId: nat, fileId: Option<nat>, contentHash: Option<Digest>, snapshotHash: Digest): Submission {
    Submission(workflowId, fileId, contentHash, snapshotHash,
               OfSubmission(workflowId, fileId, contentHash, snapshotHash))
  }

  predicate SubmitAccepted(d: Db, env: ReviewEnv) {
    && d.status == Generated
    && env.templateValid
    && FileVerified(d.files, d.fileId, d.contentHash, env.storedBytes)
    && env.errorCount == 0
  }

  function Submit(d: Db, env: ReviewEnv): Db {
    if !SubmitAccepted(d, env) then d else
    var (workflows, id) := StartWorkflow(d.workflows);
    var entry := ReviewSubmission(id, d.fileId, d.contentHash, OfRecords(env.records));
    d.(status := PendingReview, workflows := workflows, submission := Some(entry),
       auditedSubmissions := d.auditedSubmissions + [entry])
  }

  /** A new workflow is committed on its own, before the submission entry is written: this
      is the state a crash between the two leaves behind. */
  function SubmitInterrupted(d: Db, env: ReviewEnv): Db {
    if !SubmitAccepted(d, env) || OpenWorkflow(d.workflows).Some? then d else
    d.(status := PendingReview, workflows := d.workflows + [InProgress])
  }

  /** A reviewer's decision; an approved workflow takes no further decision. */
  function Decide(d: Db, workflowId: nat, verdict: WorkflowStatus): Db {
    if workflowId < |d.workflows| && d.workflows[workflowId] != WorkflowApproved
    then d.(workflows := d.workflows[workflowId := verdict])
    else d
  }

  // ---------------------------------------------------------------- approval

  /** The stored version of a workflow. */
  function FindByWorkflow(versions: seq<PackageVersion>, workflowId: nat): (r: Option<PackageVersion>)
    ensures r.Some? ==> r.value in versions && r.value.workflowId == workflowId
    ensures r.None? ==> forall v | v in versions :: v.workflowId != workflowId
  {
    if versions == [] then None
    else if versions[0].workflowId == workflowId then Some(versions[0])
    else FindByWorkflow(versions[1..], workflowId)
  }

  /** A stored version of the workflow or of the reviewed records. */
  function FindMatch(versions: seq<PackageVersion>, workflowId: nat, snapshotHash: Digest): (r: Option<PackageVersion>)
    ensures r.Some? ==> r.value in versions && (r.value.workflowId == workflowId || r.value.snapshotHash == snapshotHash)
    ensures r.None? ==> forall v | v in versions :: v.workflowId != workflowId && v.snapshotHash != snapshotHash
  {
    if versions == [] then None
    else if versions[0].workflowId == workflowId || versions[0].snapshotHash == snapshotHash then Some(versions[0])
    else FindMatch(versions[1..], workflowId, snapshotHash)
  }

  /** The three unique constraints of the version table. */
  predicate InsertAllowed(versions: seq<PackageVersion>, v: PackageVersion) {
    forall u | u in versions ::
      u.versionNo != v.versionNo && u.workflowId != v.workflowId && u.snapshotHash != v.snapshotHash
  }

  /** The columns an approval has in memory between its queries. */
  datatype Row = Row(versionNo: nat, fileId: Option<nat>, contentHash: Option<Digest>, submission: Option<Submission>)

  /** What a passed review carries to the commit. */
  datatype Ticket = Ticket(baseNo: nat, fileId: nat, contentHash: Digest, submission: Submission, snapshotHash: Digest)

  datatype Reply =
    | Refused                                          // HTTP 409
    | Returned(version: PackageVersion, idempotent: bool)
    | Raised                                           // the IntegrityError goes up

  datatype Loaded = LoadDone(reply: Reply) | LoadedRow(row: Row)

  /** First part of an approval: the row is read and an approved package answered. */
  function ApproveLoad(d: Db): Loaded {
    var existing := if d.status == Approved && d.submission.Some?
                    then FindByWorkflow(d.versions, d.submission.value.workflowId) else None;
    if existing.Some? then LoadDone(Returned(existing.value, true))
    else if d.status != PendingReview then LoadDone(Refused)
    else LoadedRow(Row(d.versionNo, d.fileId, d.contentHash, d.submission))
  }

  datatype Checked = CheckDone(db: Db, reply: Reply) | Verified(ticket: Ticket)

  predicate ReviewPassed(d: Db, row: Row, env: ReviewEnv) {
    && env.templateValid
    && FileVerified(d.files, row.fileId, row.contentHash, env.storedBytes)
    && env.errorCount == 0
    && row.submission.Some?
    && var s := row.submission.value;
    && s.workflowId < |d.workflows| && d.workflows[s.workflowId] == WorkflowApproved
    && s == ReviewSubmission(s.workflowId, row.fileId, row.contentHash, OfRecords(env.records))
  }

  /** Second part: the loaded row is checked against the current tables. */
  function ApproveCheck(d: Db, row: Row, env: ReviewEnv): Checked {
    if !ReviewPassed(d, row, env) then CheckDone(d, Refused) else
    var s := row.submission.value;
    var existing := FindByWorkflow(d.versions, s.workflowId);
    if existing.Some?
    then CheckDone(d.(status := Approved, versionNo := existing.value.versionNo, submission := Some(s)),
                   Returned(existing.value, true))
    else Verified(Ticket(row.versionNo, row.fileId.value, row.contentHash.value, s, OfRecords(env.records)))
  }

  function VersionOf(ticket: Ticket, approval: Approval): PackageVersion {
    PackageVersion(ticket.baseNo + 1, ticket.fileId, ticket.submission.workflowId,
                   ticket.contentHash, ticket.snapshotHash, ticket.submission.submissionHash, approval)
  }

  /** Third part: the version is inserted, or the insert fails a unique constraint and the
      request ends on a stored version if it finds one. */
  function ApproveCommit(d: Db, ticket: Ticket, approval: Approval): (r: (Db, Reply)) {
    var version := VersionOf(ticket, approval);
    if InsertAllowed(d.versions, version) then
      (d.(status := Approved, versionNo := version.versionNo, approval := Some(approval),
          submission := Some(ticket.submission), versions := d.versions + [version]),
       Returned(version, false))
    else
      var existing := FindMatch(d.versions, ticket.submission.workflowId, ticket.snapshotHash);
      if existing.None? then (d, Raised)
      else (d.(status := Approved, versionNo := existing.value.versionNo, approval := Some(existing.value.approval)),
            Returned(existing.value, true))
  }

  /** An approval that nothing interrupts. */
  function Approve(d: Db, env: ReviewEnv, approval: Approval): (r: (Db, Reply)) {
    match ApproveLoad(d)
    case LoadDone(reply) => (d, reply)
    case LoadedRow(row) =>
      match ApproveCheck(d, row, env)
      case CheckDone(after, reply) => (after, reply)
      case Verified(ticket) => ApproveCommit(d, ticket, approval)
  }

  // ---------------------------------------------------------------- runs

  datatype Step =
    | DoGenerateRequest(fingerprint: Digest)
    | DoGenerateHandler(fingerprint: Digest, generated: GenerateOutcome)
    | DoGenerateReturn(jobCompleted: bool)
    | DoValidate(errorCount: nat)
    | DoRenderRequest(fingerprint: Digest)
    | DoRenderHandler(fingerprint: Digest, rendered: RenderOutcome)
    | DoRenderReturn(jobCompleted: bool)
    | DoDisableFile(id: nat)
    | DoSubmit(env: ReviewEnv)
    | DoSubmitInterrupted(env: ReviewEnv)
    | DoDecide(workflowId: nat, verdict: WorkflowStatus)
    | DoApprove(env: ReviewEnv, approval: Approval)

  function Next(d: Db, step: Step): Db {
    match step
    case DoGenerateRequest(fingerprint) => GenerateRequest(d, fingerprint)
    case DoGenerateHandler(fingerprint, outcome) => GenerateHandler(d, fingerprint, outcome)
    case DoGenerateReturn(jobCompleted) => GenerateReturn(d, jobCompleted)
    case DoValidate(errorCount) => Validate(d, errorCount)
    case DoRenderRequest(fingerprint) => RenderRequest(d, fingerprint)
    case DoRenderHandler(fingerprint, outcome) => RenderHandler(d, fingerprint, outcome)
    case DoRenderReturn(jobCompleted) => RenderReturn(d, jobCompleted)
    case DoDisableFile(id) => DisableFile(d, id)
    case DoSubmit(env) => Submit(d, env)
    case DoSubmitInterrupted(env) => SubmitInterrupted(d, env)
    case DoDecide(workflowId, verdict) => Decide(d, workflowId, verdict)
    case DoApprove(env, approval) => Approve(d, env, approval).0
  }

  function Run(d: Db, steps: seq<Step>): Db
    decreases |steps|
  {
    if steps == [] then d else Run(Next(d, steps[0]), steps[1..])
  }
}
