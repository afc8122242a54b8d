/**
 What every run of the package requests keeps, when no two requests overlap. Worker
 handlers may run at any time, a submission may crash half way, files may be disabled and
 records edited between any two steps.
 */
module DeliverableInvariants {
  import opened Basics
  import opened DeliverableModel

  // ---------------------------------------------------------------- the invariant

  /** File and digest come and go together, and the states that promise a file have one. */
  ghost predicate FileFollowsStatus(d: Db) {
    && (d.fileId.Some? <==> d.contentHash.Some?)
    && (d.status in {Generated, PendingReview, Approved} ==> d.fileId.Some?)
  }

  /** Version numbers are 1..n in order of approval, and no workflow and no snapshot has two. */
  ghost predicate WellNumbered(versions: seq<PackageVersion>) {
    && (forall i :: 0 <= i < |versions| ==> versions[i].versionNo == i + 1)
    && (forall i, j :: 0 <= i < j < |versions| ==>
          versions[i].workflowId != versions[j].workflowId && versions[i].snapshotHash != versions[j].snapshotHash)
  }

  /** The submission a version was cut from. */
  function SubmissionOf(v: PackageVersion): Submission {
    Submission(v.workflowId, Some(v.fileId), Some(v.contentHash), v.snapshotHash, v.submissionHash)
  }

  /** Every version repeats, part by part, a submission that was made and whose workflow was
      approved. */
  ghost predicate Reviewed(d: Db) {
    forall v | v in d.versions ::
      && SubmissionOf(v) in d.auditedSubmissions
      && v.workflowId < |d.workflows| && d.workflows[v.workflowId] == WorkflowApproved
  }

  ghost predicate SubmissionAudited(d: Db) {
    d.submission.Some? ==> d.submission.value in d.auditedSubmissions
  }

  ghost predicate NumberInRange(d: Db) {
    d.versionNo <= |d.versions| && (d.versionNo == 0 <==> d.versions == [])
  }

  ghost predicate NamesCurrentFile(d: Db) {
    && d.submission.Some?
    && var s := d.submission.value;
    && s.fileId == d.fileId && s.contentHash == d.contentHash
    && s.submissionHash == OfSubmission(s.workflowId, s.fileId, s.contentHash, s.snapshotHash)
  }

  /** As long as there is a submission entry it names the current file, if there is one, and
      every version of its workflow was cut from it. */
  ghost predicate SubmissionTraced(d: Db) {
    d.submission.Some? ==>
      && (d.fileId.Some? ==> NamesCurrentFile(d))
      && forall v | v in d.versions && v.workflowId == d.submission.value.workflowId :: SubmissionOf(v) == d.submission.value
  }

  /** At most one review of the package is open. */
  ghost predicate OneOpenReview(workflows: seq<WorkflowStatus>) {
    forall i, j :: 0 <= i < j < |workflows| ==> workflows[i] == WorkflowApproved || workflows[j] == WorkflowApproved
  }

  ghost predicate Inv(d: Db) {
    && FileFollowsStatus(d) && WellNumbered(d.versions) && Reviewed(d) && SubmissionAudited(d) && NumberInRange(d)
    && SubmissionTraced(d) && OneOpenReview(d.workflows)
  }

  lemma CommitKeepsNumbering(versions: seq<PackageVersion>, v: PackageVersion, base: nat)
    requires WellNumbered(versions) && base <= |versions|
    requires v.versionNo == base + 1 && InsertAllowed(versions, v)
    ensures base == |versions| && WellNumbered(versions + [v])
  {
    assert forall i :: 0 <= i < |versions| ==> versions[i] in versions;
    assert base < |versions| ==> versions[base].versionNo == base + 1;
  }

  lemma ApproveKeepsInv(d: Db, env: ReviewEnv, approval: Approval)
    requires Inv(d)
    ensures Inv(Approve(d, env, approval).0)
  {
    var after := Approve(d, env, approval).0;
    match ApproveLoad(d)
    case LoadDone(_) =>
    case LoadedRow(row) =>
      match ApproveCheck(d, row, env)
      case CheckDone(_, _) =>
      case Verified(ticket) =>
        var version := VersionOf(ticket, approval);
        if InsertAllowed(d.versions, version) {
          CommitKeepsNumbering(d.versions, version, ticket.baseNo);
          assert SubmissionOf(version) == ticket.submission;
          assert after.versions == d.versions + [version];
        }
  }

  lemma SubmitKeepsInv(d: Db, env: ReviewEnv)
    requires Inv(d)
    ensures Inv(Submit(d, env)) && Inv(SubmitInterrupted(d, env))
  {
  }

  /** The step leaves the version, workflow and audit tables and the number alone; an entry that
      stays keeps the file it names, unless the file is cleared. */
  ghost predicate RowChange(d: Db, next: Db) {
    && (next.submission == None || next.fileId == None || (next.fileId == d.fileId && next.contentHash == d.contentHash))
    && (next.submission == d.submission || next.submission == None)
    && next.versions == d.versions && next.versionNo == d.versionNo
    && next.workflows == d.workflows && next.auditedSubmissions == d.auditedSubmissions
  }

  lemma RenderChangesTheRow(d: Db, fingerprint: Digest, outcome: RenderOutcome)
    ensures var next := RenderHandler(d, fingerprint, outcome);
            RowChange(d, next) && (FileFollowsStatus(d) ==> FileFollowsStatus(next))
  {
  }

  lemma GenerateChangesTheRow(d: Db, fingerprint: Digest, outcome: GenerateOutcome)
    ensures var next := GenerateHandler(d, fingerprint, outcome);
            RowChange(d, next) && (FileFollowsStatus(d) ==> FileFollowsStatus(next))
  {
  }

  lemma RowChangeKeepsInv(d: Db, next: Db)
    requires Inv(d) && FileFollowsStatus(next) && RowChange(d, next)
    ensures Inv(next)
  {
  }

  lemma DecideKeepsInv(d: Db, workflowId: nat, verdict: WorkflowStatus)
    requires Inv(d)
    ensures Inv(Decide(d, workflowId, verdict))
  {
  }

  lemma NextKeepsInv(d: Db, step: Step)
    requires Inv(d)
    ensures Inv(Next(d, step))
  {
    match step
    case DoApprove(env, approval) => ApproveKeepsInv(d, env, approval);
    case DoSubmit(env) => SubmitKeepsInv(d, env);
    case DoSubmitInterrupted(env) => SubmitKeepsInv(d, env);
    case DoDecide(workflowId, verdict) => DecideKeepsInv(d, workflowId, verdict);
    case DoRenderHandler(fingerprint, outcome) =>
      RenderChangesTheRow(d, fingerprint, outcome);
      RowChangeKeepsInv(d, RenderHandler(d, fingerprint, outcome));
    case DoGenerateHandler(fingerprint, outcome) =>
      GenerateChangesTheRow(d, fingerprint, outcome);
      RowChangeKeepsInv(d, GenerateHandler(d, fingerprint, outcome));
    case _ => RowChangeKeepsInv(d, Next(d, step));
  }

  lemma {:induction false} RunKeepsInv(d: Db, steps: seq<Step>)
    requires Inv(d)
    ensures Inv(Run(d, steps))
    decreases |steps|
  {
    if steps != [] {
      NextKeepsInv(d, steps[0]);
      RunKeepsInv(Next(d, steps[0]), steps[1..]);
    }
  }

  /** Main safety result, over every run of a new package. */
  lemma EveryRunIsSafe(steps: seq<Step>)
    ensures var d := Run(NewPackage(), steps);
            && FileFollowsStatus(d) && WellNumbered(d.versions) && Reviewed(d) && NumberInRange(d)
            && SubmissionTraced(d) && OneOpenReview(d.workflows)
  {
    RunKeepsInv(NewPackage(), steps);
  }

  // ---------------------------------------------------------------- versions are for ever

  lemma ApproveAppends(d: Db, env: ReviewEnv, approval: Approval)
    ensures var (after, reply) := Approve(d, env, approval);
            after.versions == if reply.Returned? && !reply.idempotent then d.versions + [reply.version] else d.versions
  {
  }

  lemma {:induction false} VersionsOnlyGrow(d: Db, steps: seq<Step>)
    ensures d.versions <= Run(d, steps).versions
    decreases |steps|
  {
    if steps != [] {
      if steps[0].DoApprove? {
        ApproveAppends(d, steps[0].env, steps[0].approval);
      }
      VersionsOnlyGrow(Next(d, steps[0]), steps[1..]);
    }
  }

  // ---------------------------------------------------------------- what a pending review names

  /** A pending package's submission names exactly the current file and digest, and the review
      it names has no version yet. */
  ghost predicate PendingNamesCurrent(d: Db) {
    d.status == PendingReview ==>
      NamesCurrentFile(d) && forall v | v in d.versions :: v.workflowId != d.submission.value.workflowId
  }

  lemma ApproveKeepsPending(d: Db, env: ReviewEnv, approval: Approval)
    requires Inv(d) && PendingNamesCurrent(d)
    ensures PendingNamesCurrent(Approve(d, env, approval).0)
  {
  }

  lemma NextKeepsPending(d: Db, step: Step)
    requires Inv(d) && PendingNamesCurrent(d) && !step.DoSubmitInterrupted?
    ensures PendingNamesCurrent(Next(d, step))
  {
    if step.DoApprove? {
      ApproveKeepsPending(d, step.env, step.approval);
    }
  }

  lemma {:induction false} UninterruptedRunsNameTheFile(d: Db, steps: seq<Step>)
    requires Inv(d) && PendingNamesCurrent(d)
    requires forall i :: 0 <= i < |steps| ==> !steps[i].DoSubmitInterrupted?
    ensures PendingNamesCurrent(Run(d, steps))
    decreases |steps|
  {
    if steps != [] {
      NextKeepsInv(d, steps[0]);
      NextKeepsPending(d, steps[0]);
      UninterruptedRunsNameTheFile(Next(d, steps[0]), steps[1..]);
    }
  }

  /** Over every run, crashed submissions included, a pending package names exactly the current
      file if it has a submission entry at all; and it has one, for a review without a version,
      unless a submission crashed. */
  lemma PendingRunsNameTheFile(steps: seq<Step>)
    ensures var d := Run(NewPackage(), steps);
      && (d.status == PendingReview ==> (NamesCurrentFile(d) <==> d.submission.Some?))
      && ((forall i :: 0 <= i < |steps| ==> !steps[i].DoSubmitInterrupted?) ==> PendingNamesCurrent(d))
  {
    RunKeepsInv(NewPackage(), steps);
    if forall i :: 0 <= i < |steps| ==> !steps[i].DoSubmitInterrupted? {
      UninterruptedRunsNameTheFile(NewPackage(), steps);
    }
  }

  /** A submission that crashes leaves a pending package that names its file exactly when an
      entry was there before it; without one nothing can approve the package. */
  lemma InterruptedSubmissionNamesTheFile(d: Db, env: ReviewEnv)
    requires Inv(d) && SubmitAccepted(d, env) && OpenWorkflow(d.workflows).None?
    ensures var after := SubmitInterrupted(d, env);
      && after.status == PendingReview
      && (NamesCurrentFile(after) <==> d.submission.Some?)
      && (d.submission.None? ==> forall env', approval :: Approve(after, env', approval) == (after, Refused))
  {
  }

  /** Such a package is reached: a file is rendered and its submission crashes. */
  lemma CrashedSubmissionNamesNothing() returns (steps: seq<Step>)
    ensures var d := Run(NewPackage(), steps); d.status == PendingReview && !NamesCurrentFile(d)
  {
    var env, fp := ReviewEnv(true, 0, 11, 1), OfRecords(0);
    var d2 := RenderHandler(RenderRequest(NewPackage(), fp), fp, Saved(11));
    assert FileVerified(d2.files, d2.fileId, d2.contentHash, 11);
    steps := [DoRenderRequest(fp), DoRenderHandler(fp, Saved(11)), DoSubmitInterrupted(env)];
    RunThree(NewPackage(), steps[0], steps[1], steps[2]);
  }

  // ---------------------------------------------------------------- outcome of an approval

  ghost predicate Conflicts(versions: seq<PackageVersion>, ticket: Ticket) {
    exists v :: v in versions &&
      (v.workflowId == ticket.submission.workflowId || v.snapshotHash == ticket.snapshotHash)
  }

  /** How a commit ends: it wins when nothing conflicts and its number is still the newest, falls
      back on a stored version of its workflow or records when one conflicts, and raises without
      effect when only its number is taken. */
  ghost predicate CommitEnds(d: Db, ticket: Ticket, end: (Db, Reply)) {
    var (after, reply) := end;
    && (reply.Returned? && !reply.idempotent <==> !Conflicts(d.versions, ticket) && ticket.baseNo == |d.versions|)
    && (reply.Returned? && reply.idempotent <==> Conflicts(d.versions, ticket))
    && (reply.Returned? ==>
          && after.status == Approved && after.versionNo == reply.version.versionNo
          && after.approval == Some(reply.version.approval) && reply.version in after.versions
          && (reply.version.workflowId == ticket.submission.workflowId || reply.version.snapshotHash == ticket.snapshotHash))
    && (!reply.Returned? ==> reply == Raised && after == d)
  }

  /** However stale its ticket. */
  lemma CommitOutcome(d: Db, ticket: Ticket, approval: Approval)
    requires WellNumbered(d.versions) && ticket.baseNo <= |d.versions|
    ensures CommitEnds(d, ticket, ApproveCommit(d, ticket, approval))
  {
    if !Conflicts(d.versions, ticket) && ticket.baseNo < |d.versions| {
      assert d.versions[ticket.baseNo] in d.versions;
    }
    if Conflicts(d.versions, ticket) {
      assert FindMatch(d.versions, ticket.submission.workflowId, ticket.snapshotHash).Some?;
    }
  }

  /** Everything the approval checks about a pending package before it looks for versions. */
  ghost predicate Approvable(d: Db, env: ReviewEnv) {
    d.status == PendingReview && ReviewPassed(d, Row(d.versionNo, d.fileId, d.contentHash, d.submission), env)
  }

  ghost predicate KnownSnapshot(d: Db, records: Content) {
    exists v :: v in d.versions && v.snapshotHash == OfRecords(records)
  }

  /** The review named by the submission already has a version. */
  ghost predicate ReviewHasVersion(d: Db) {
    d.submission.Some? && exists v :: v in d.versions && v.workflowId == d.submission.value.workflowId
  }

  lemma OwnVersionKnowsTheRecords(d: Db, env: ReviewEnv)
    requires Inv(d) && Approvable(d, env) && ReviewHasVersion(d)
    ensures var e := FindByWorkflow(d.versions, d.submission.value.workflowId);
            e.Some? && e.value in d.versions && e.value.snapshotHash == OfRecords(env.records)
  {
    var e := FindByWorkflow(d.versions, d.submission.value.workflowId).value;
    assert SubmissionOf(e) == d.submission.value;
  }

  /** Which of its outcomes a passed review gets: the stored version of this review or of the same
      records; a new version; or, when the package's number has fallen behind, a failed insert
      that nothing can answer. Only an earlier approval of this very review keeps its approver. */
  lemma ApprovalOutcome(d: Db, env: ReviewEnv, approval: Approval)
    requires Inv(d) && Approvable(d, env)
    ensures var (after, reply) := Approve(d, env, approval);
      && (reply.Returned? <==> KnownSnapshot(d, env.records) || d.versionNo == |d.versions|)
      && (reply.Returned? && !reply.idempotent <==> !KnownSnapshot(d, env.records) && d.versionNo == |d.versions|)
      && (reply.Returned? ==>
            && after.status == Approved && reply.version in after.versions
            && after.versionNo == reply.version.versionNo
            && after.approval == (if ReviewHasVersion(d) then d.approval else Some(reply.version.approval))
            && reply.version.snapshotHash == OfRecords(env.records))
      && (!reply.Returned? ==> reply == Raised && after == d)
  {
    if ReviewHasVersion(d) {
      OwnVersionKnowsTheRecords(d, env);
    } else {
      InsertOutcome(d, env, approval);
    }
  }

  lemma InsertOutcome(d: Db, env: ReviewEnv, approval: Approval)
    requires Inv(d) && Approvable(d, env) && !ReviewHasVersion(d)
    ensures var ticket := Ticket(d.versionNo, d.fileId.value, d.contentHash.value, d.submission.value, OfRecords(env.records));
      && Approve(d, env, approval) == ApproveCommit(d, ticket, approval)
      && (KnownSnapshot(d, env.records) <==> Conflicts(d.versions, ticket))
      && CommitEnds(d, ticket, ApproveCommit(d, ticket, approval))
  {
    var s := d.submission.value;
    var ticket := Ticket(d.versionNo, d.fileId.value, d.contentHash.value, s, OfRecords(env.records));
    assert ApproveCheck(d, Row(d.versionNo, d.fileId, d.contentHash, d.submission), env) == Verified(ticket);
    CommitOutcome(d, ticket, approval);
  }

  // ---------------------------------------------------------------- the package's number

  /** The records equal those of a version that is not the newest. */
  ghost predicate OlderSnapshot(d: Db, records: Content) {
    exists i :: 0 <= i < |d.versions| - 1 && d.versions[i].snapshotHash == OfRecords(records)
  }

  /** After a passed review the package carries the newest number exactly when the records
      are not those of an older version and, if they are new, it carried it before. */
  lemma NewestNumberAfterApproval(d: Db, env: ReviewEnv, approval: Approval)
    requires Inv(d) && Approvable(d, env)
    ensures var after := Approve(d, env, approval).0;
      after.versionNo == |after.versions| <==>
        !OlderSnapshot(d, env.records) && (KnownSnapshot(d, env.records) || d.versionNo == |d.versions|)
  {
    ApprovalOutcome(d, env, approval);
    ApproveAppends(d, env, approval);
    var (after, reply) := Approve(d, env, approval);
    if KnownSnapshot(d, env.records) {
      var i :| 0 <= i < |d.versions| && d.versions[i] == reply.version;
      forall j | 0 <= j < |d.versions| && d.versions[j].snapshotHash == OfRecords(env.records)
        ensures j == i
      {
      }
    } else if OlderSnapshot(d, env.records) {
      var i :| 0 <= i < |d.versions| - 1 && d.versions[i].snapshotHash == OfRecords(env.records);
      assert d.versions[i] in d.versions;
    }
  }

  /** The step approves a passed review of records that an older version has. */
  ghost predicate ApprovesOldRecords(d: Db, step: Step) {
    step.DoApprove? && Approvable(d, step.env) && OlderSnapshot(d, step.env.records)
  }

  ghost predicate NeverApprovesOldRecords(d: Db, steps: seq<Step>)
    decreases |steps|
  {
    steps == [] || (!ApprovesOldRecords(d, steps[0]) && NeverApprovesOldRecords(Next(d, steps[0]), steps[1..]))
  }

  /** The package carries the newest number all along the run. */
  ghost predicate AlwaysNewest(d: Db, steps: seq<Step>)
    decreases |steps|
  {
    d.versionNo == |d.versions| && (steps == [] || AlwaysNewest(Next(d, steps[0]), steps[1..]))
  }

  lemma NextKeepsNewestNumber(d: Db, step: Step)
    requires Inv(d) && d.versionNo == |d.versions|
    ensures var next := Next(d, step); next.versionNo == |next.versions| <==> !ApprovesOldRecords(d, step)
  {
    if step.DoApprove? && Approvable(d, step.env) {
      NewestNumberAfterApproval(d, step.env, step.approval);
    }
  }

  /** Contiguity over runs: the numbers are 1..n, and the package carries n all along exactly
      when no passed review is of records that an older version has. */
  lemma {:induction false} NumberIsNewest(d: Db, steps: seq<Step>)
    requires Inv(d) && d.versionNo == |d.versions|
    ensures AlwaysNewest(d, steps) <==> NeverApprovesOldRecords(d, steps)
    ensures var after := Run(d, steps);
            WellNumbered(after.versions) && (NeverApprovesOldRecords(d, steps) ==> after.versionNo == |after.versions|)
    decreases |steps|
  {
    if steps != [] {
      NextKeepsInv(d, steps[0]);
      NextKeepsNewestNumber(d, steps[0]);
      if ApprovesOldRecords(d, steps[0]) {
        RunKeepsInv(Next(d, steps[0]), steps[1..]);
      } else {
        NumberIsNewest(Next(d, steps[0]), steps[1..]);
      }
    }
  }

  // ---------------------------------------------------------------- approving again

  /** Approving once more after a passed review repeats the answer and changes nothing
      exactly when the version belongs to this very review; after falling back on a version
      of another review the second request is refused. */
  lemma ApprovingAgain(d: Db, env: ReviewEnv, approval: Approval, env': ReviewEnv, approval': Approval)
    requires Inv(d) && Approvable(d, env)
    requires Approve(d, env, approval).1.Returned?
    ensures var (after, first) := Approve(d, env, approval);
      if ReviewHasVersion(d) || !KnownSnapshot(d, env.records)
      then Approve(after, env', approval') == (after, Returned(first.version, true))
      else Approve(after, env', approval') == (after, Refused)
  {
    ApprovalOutcome(d, env, approval);
    var (after, first) := Approve(d, env, approval);
    var w := d.submission.value.workflowId;
    assert after.submission == d.submission;
    if ReviewHasVersion(d) {
      OwnVersionKnowsTheRecords(d, env);
    } else if KnownSnapshot(d, env.records) {
      assert FindByWorkflow(after.versions, w).None?;
    } else {
      assert first.version in after.versions;
      assert FindByWorkflow(after.versions, w).Some?;
      WorkflowVersionIsUnique(d.versions, first.version, w);
    }
  }

  lemma WorkflowVersionIsUnique(versions: seq<PackageVersion>, v: PackageVersion, w: nat)
    requires v.workflowId == w && forall u | u in versions :: u.workflowId != w
    ensures FindByWorkflow(versions + [v], w) == Some(v)
  {
    var r := FindByWorkflow(versions + [v], w);
    assert v in versions + [v];
  }

  // ---------------------------------------------------------------- falling behind

  /** The step approves a passed review of the newest version's own records. */
  ghost predicate ApprovesNewestRecords(d: Db, step: Step) {
    && step.DoApprove? && Approvable(d, step.env)
    && d.versions != [] && d.versions[|d.versions| - 1].snapshotHash == OfRecords(step.env.records)
  }

  ghost predicate NeverApprovesNewestRecords(d: Db, steps: seq<Step>)
    decreases |steps|
  {
    steps == [] || (!ApprovesNewestRecords(d, steps[0]) && NeverApprovesNewestRecords(Next(d, steps[0]), steps[1..]))
  }

  /** The package's number is behind all along the run. */
  ghost predicate AlwaysBehind(d: Db, steps: seq<Step>)
    decreases |steps|
  {
    d.versionNo < |d.versions| && (steps == [] || AlwaysBehind(Next(d, steps[0]), steps[1..]))
  }

  lemma ApproveWhenBehind(d: Db, env: ReviewEnv, approval: Approval)
    requires Inv(d) && Approvable(d, env) && d.versionNo < |d.versions|
    ensures var next := Approve(d, env, approval).0;
            next.versions == d.versions && (next.versionNo < |next.versions| <==> !ApprovesNewestRecords(d, DoApprove(env, approval)))
  {
    ApprovalOutcome(d, env, approval);
    ApproveAppends(d, env, approval);
    var (next, reply) := Approve(d, env, approval);
    if reply.Returned? {
      NumberOfStored(d.versions, reply.version);
      assert ApprovesNewestRecords(d, DoApprove(env, approval)) ==> d.versions[|d.versions| - 1] == reply.version;
    } else {
      assert d.versions[|d.versions| - 1] in d.versions;
    }
  }

  lemma NextWhenBehind(d: Db, step: Step)
    requires Inv(d) && d.versionNo < |d.versions|
    ensures var next := Next(d, step);
            next.versions == d.versions && (next.versionNo < |next.versions| <==> !ApprovesNewestRecords(d, step))
  {
    if step.DoApprove? && Approvable(d, step.env) {
      ApproveWhenBehind(d, step.env, step.approval);
    }
  }

  /** A number that is behind stays behind, and no version is added, exactly until a review of
      the newest version's own records is approved. */
  lemma {:induction false} BehindStaysBehind(d: Db, steps: seq<Step>)
    requires Inv(d) && d.versionNo < |d.versions|
    ensures AlwaysBehind(d, steps) <==> NeverApprovesNewestRecords(d, steps)
    ensures NeverApprovesNewestRecords(d, steps) ==> Run(d, steps).versions == d.versions
    decreases |steps|
  {
    if steps != [] {
      NextKeepsInv(d, steps[0]);
      NextWhenBehind(d, steps[0]);
      if !ApprovesNewestRecords(d, steps[0]) {
        BehindStaysBehind(Next(d, steps[0]), steps[1..]);
      }
    }
  }

  // ---------------------------------------------------------------- a release, end to end

  /** Render a file, submit it and have its review approved. */
  function ReviewSteps(d: Db, fingerprint: Digest, content: Content, records: Content): seq<Step> {
    [DoRenderRequest(fingerprint), DoRenderHandler(fingerprint, Saved(content)),
     DoSubmit(ReviewEnv(true, 0, content, records)), DoDecide(|d.workflows|, WorkflowApproved)]
  }

  /** The same, and the package approved at the end. */
  function ReleaseSteps(d: Db, fingerprint: Digest, content: Content, records: Content, approval: Approval): seq<Step> {
    ReviewSteps(d, fingerprint, content, records) + [DoApprove(ReviewEnv(true, 0, content, records), approval)]
  }

  ghost predicate Settled(d: Db) {
    Inv(d) && OpenWorkflow(d.workflows).None?
  }

  lemma RunThree(d: Db, s1: Step, s2: Step, s3: Step)
    ensures Run(d, [s1, s2, s3]) == Next(Next(Next(d, s1), s2), s3)
  {
    var d1 := Next(d, s1);
    var d2 := Next(d1, s2);
    assert [s1, s2, s3][1..] == [s2, s3];
    assert [s2, s3][1..] == [s3];
    assert Run(d, [s1, s2, s3]) == Run(d1, [s2, s3]);
    assert Run(d1, [s2, s3]) == Run(d2, [s3]);
    assert Run(d2, [s3]) == Run(Next(d2, s3), []);
  }

  lemma RunFour(d: Db, s1: Step, s2: Step, s3: Step, s4: Step)
    ensures Run(d, [s1, s2, s3, s4]) == Next(Next(Next(Next(d, s1), s2), s3), s4)
  {
    RunThree(Next(d, s1), s2, s3, s4);
    assert [s1, s2, s3, s4][1..] == [s2, s3, s4];
    assert Run(d, [s1, s2, s3, s4]) == Run(Next(d, s1), [s2, s3, s4]);
  }

  /** The file rendered, then submitted. */
  function Submitted(d: Db, fingerprint: Digest, content: Content, records: Content): Db {
    Next(Next(Next(d, DoRenderRequest(fingerprint)), DoRenderHandler(fingerprint, Saved(content))),
         DoSubmit(ReviewEnv(true, 0, content, records)))
  }

  lemma RenderedAndSubmitted(d: Db, fingerprint: Digest, content: Content, records: Content)
    requires Settled(d)
    ensures var d3 := Submitted(d, fingerprint, content, records);
      && d3.status == PendingReview && d3.versions == d.versions && d3.versionNo == d.versionNo
      && d3.workflows == d.workflows + [InProgress]
      && d3.submission == Some(ReviewSubmission(|d.workflows|, d3.fileId, d3.contentHash, OfRecords(records)))
      && FileVerified(d3.files, d3.fileId, d3.contentHash, content)
  {
    var d2 := RenderHandler(RenderRequest(d, fingerprint), fingerprint, Saved(content));
    assert FileVerified(d2.files, d2.fileId, d2.contentHash, content);
  }

  lemma DecidedReview(d: Db, d3: Db, content: Content, records: Content)
    requires Settled(d) && d3.status == PendingReview && d3.versions == d.versions && d3.workflows == d.workflows + [InProgress]
    requires d3.submission == Some(ReviewSubmission(|d.workflows|, d3.fileId, d3.contentHash, OfRecords(records)))
    requires FileVerified(d3.files, d3.fileId, d3.contentHash, content)
    ensures var d4 := Next(d3, DoDecide(|d.workflows|, WorkflowApproved));
      && Approvable(d4, ReviewEnv(true, 0, content, records))
      && d4.versions == d3.versions && d4.versionNo == d3.versionNo && OpenWorkflow(d4.workflows).None?
  {
    var d4 := Decide(d3, |d.workflows|, WorkflowApproved);
    assert d4.workflows == d.workflows + [WorkflowApproved];
  }

  /** The four steps bring any settled package to a review that passes. */
  lemma ReviewStepsPass(d: Db, fingerprint: Digest, content: Content, records: Content)
    requires Settled(d)
    ensures var d4 := Run(d, ReviewSteps(d, fingerprint, content, records));
      && Inv(d4) && Approvable(d4, ReviewEnv(true, 0, content, records))
      && d4.versions == d.versions && d4.versionNo == d.versionNo && OpenWorkflow(d4.workflows).None?
  {
    RunKeepsInv(d, ReviewSteps(d, fingerprint, content, records));
    RunFour(d, DoRenderRequest(fingerprint), DoRenderHandler(fingerprint, Saved(content)),
            DoSubmit(ReviewEnv(true, 0, content, records)), DoDecide(|d.workflows|, WorkflowApproved));
    RenderedAndSubmitted(d, fingerprint, content, records);
    DecidedReview(d, Submitted(d, fingerprint, content, records), content, records);
  }

  lemma ApproveKeepsWorkflows(d: Db, env: ReviewEnv, approval: Approval)
    ensures Approve(d, env, approval).0.workflows == d.workflows
  {
  }

  lemma ReleaseIsReviewThenApprove(d: Db, fingerprint: Digest, content: Content, records: Content, approval: Approval)
    ensures Run(d, ReleaseSteps(d, fingerprint, content, records, approval)) ==
            Approve(Run(d, ReviewSteps(d, fingerprint, content, records)), ReviewEnv(true, 0, content, records), approval).0
  {
    var steps := ReviewSteps(d, fingerprint, content, records);
    var last := DoApprove(ReviewEnv(true, 0, content, records), approval);
    RunAppend(d, steps, [last]);
    var d4 := Run(d, steps);
    assert Run(d4, [last]) == Run(Next(d4, last), []);
  }

  /** What a release makes of the version list and the package's number. */
  ghost predicate Released(before: Db, after: Db, records: Content) {
    && (after.status == Approved <==> KnownSnapshot(before, records) || before.versionNo == |before.versions|)
    && (after.status == Approved ==>
          1 <= after.versionNo <= |after.versions| && after.versions[after.versionNo - 1].snapshotHash == OfRecords(records))
    && (if !KnownSnapshot(before, records) && before.versionNo == |before.versions|
        then |after.versions| == |before.versions| + 1 && before.versions <= after.versions
        else after.versions == before.versions)
  }

  lemma ApprovalReleases(d: Db, env: ReviewEnv, approval: Approval)
    requires Inv(d) && Approvable(d, env)
    ensures Released(d, Approve(d, env, approval).0, env.records)
  {
    ApprovalOutcome(d, env, approval);
    ApproveAppends(d, env, approval);
    ApproveKeepsInv(d, env, approval);
    var (after, reply) := Approve(d, env, approval);
    if reply.Returned? {
      NumberOfStored(after.versions, reply.version);
    }
  }

  lemma NumberOfStored(versions: seq<PackageVersion>, v: PackageVersion)
    requires WellNumbered(versions) && v in versions
    ensures 1 <= v.versionNo <= |versions| && versions[v.versionNo - 1] == v
  {
    var i :| 0 <= i < |versions| && versions[i] == v;
  }

  /** A release made of otherwise faultless steps gives its records a version exactly when
      they have one already or the package carries the newest number. */
  lemma ReleaseOutcome(d: Db, fingerprint: Digest, content: Content, records: Content, approval: Approval)
    requires Settled(d)
    ensures var after := Run(d, ReleaseSteps(d, fingerprint, content, records, approval));
            Settled(after) && Released(d, after, records)
  {
    var env := ReviewEnv(true, 0, content, records);
    ReleaseIsReviewThenApprove(d, fingerprint, content, records, approval);
    ReviewStepsPass(d, fingerprint, content, records);
    var d4 := Run(d, ReviewSteps(d, fingerprint, content, records));
    ApproveKeepsInv(d4, env, approval);
    ApproveKeepsWorkflows(d4, env, approval);
    ApprovalReleases(d4, env, approval);
  }

  lemma Release(d: Db, content: Content, records: Content, approval: Approval) returns (steps: seq<Step>, after: Db)
    requires Settled(d)
    ensures after == Run(d, steps) && Settled(after) && Released(d, after, records)
  {
    steps := ReleaseSteps(d, OfRecords(0), content, records, approval);
    after := Run(d, steps);
    ReleaseOutcome(d, OfRecords(0), content, records, approval);
  }

  lemma ReadyForReview(d: Db, content: Content, records: Content) returns (steps: seq<Step>, after: Db)
    requires Settled(d)
    ensures after == Run(d, steps) && after.versions == d.versions && after.versionNo == d.versionNo
    ensures Inv(after) && Approvable(after, ReviewEnv(true, 0, content, records)) && OpenWorkflow(after.workflows).None?
  {
    steps := ReviewSteps(d, OfRecords(0), content, records);
    after := Run(d, steps);
    ReviewStepsPass(d, OfRecords(0), content, records);
  }

  /** Releasing records 1, then 2, then 1 again: two versions, and the number is back to 1. */
  lemma FallenBehind(approval: Approval) returns (steps: seq<Step>, after: Db)
    ensures after == Run(NewPackage(), steps) && Settled(after)
    ensures after.versionNo == 1 && |after.versions| == 2 && !KnownSnapshot(after, 3)
  {
    var d0 := NewPackage();
    var s1, d1 := Release(d0, 11, 1, approval);
    assert |d1.versions| == 1 && d1.versions[0].snapshotHash == OfRecords(1);
    var s2, d2 := Release(d1, 12, 2, approval);
    assert |d2.versions| == 2 && d2.versions[0].snapshotHash == OfRecords(1) && d2.versions[1].snapshotHash == OfRecords(2);
    var s3, d3 := Release(d2, 13, 1, approval);
    assert d2.versions[0] in d2.versions;
    assert d3.versions == d2.versions && d3.versionNo == 1;
    RunAppend(d0, s1, s2);
    RunAppend(d0, s1 + s2, s3);
    steps, after := s1 + s2 + s3, d3;
  }

  /** The package can be left unable to release: from there a release of records 3 passes its
      review and fails. */
  lemma ReleaseCanGetStuck(approval: Approval) returns (steps: seq<Step>, env: ReviewEnv)
    ensures var d := Run(NewPackage(), steps); Approvable(d, env) && Approve(d, env, approval) == (d, Raised)
  {
    var s, d := FallenBehind(approval);
    var t, last := ReadyForReview(d, 14, 3);
    env := ReviewEnv(true, 0, 14, 3);
    RunAppend(NewPackage(), s, t);
    steps := s + t;
    ApprovalOutcome(last, env, approval);
  }

  lemma ReviewedTwice(d: Db, env: ReviewEnv, approval: Approval)
    requires Inv(d) && Approvable(d, env) && d.versions == [] && OpenWorkflow(d.workflows).None?
    ensures var after := Next(Next(Next(d, DoApprove(env, approval)), DoValidate(0)), DoSubmitInterrupted(env));
            Approvable(after, env) && ReviewHasVersion(after) && OpenWorkflow(after.workflows).Some?
  {
    InsertOutcome(d, env, approval);
    var approved := Next(d, DoApprove(env, approval));
    var after := Next(Next(approved, DoValidate(0)), DoSubmitInterrupted(env));
    assert approved.versions != [] && approved.versions[0].workflowId == d.submission.value.workflowId;
    assert approved.versions[0] in approved.versions;
    assert after.workflows == d.workflows + [InProgress];
  }

  /** An old review can answer for a new one: a released package is validated and submitted again
      with a crash, and the review it had approves it at once while the new one is still open. */
  lemma OldReviewAnswers(approval: Approval, approval': Approval) returns (steps: seq<Step>, env: ReviewEnv)
    ensures var d := Run(NewPackage(), steps);
            && Approvable(d, env) && ReviewHasVersion(d) && OpenWorkflow(d.workflows).Some?
            && Approve(d, env, approval').1.Returned?
  {
    var s, d := ReadyForReview(NewPackage(), 11, 1);
    env := ReviewEnv(true, 0, 11, 1);
    ReviewedTwice(d, env, approval);
    RunThree(d, DoApprove(env, approval), DoValidate(0), DoSubmitInterrupted(env));
    RunAppend(NewPackage(), s, [DoApprove(env, approval), DoValidate(0), DoSubmitInterrupted(env)]);
    steps := s + [DoApprove(env, approval), DoValidate(0), DoSubmitInterrupted(env)];
    var last := Run(NewPackage(), steps);
    RunKeepsInv(NewPackage(), steps);
    OwnVersionKnowsTheRecords(last, env);
    ApprovalOutcome(last, env, approval');
  }

  // ---------------------------------------------------------------- which review answers

  /** Only the newest workflow can be open, and the entry's workflow exists. */
  ghost predicate OnlyNewestOpen(d: Db) {
    && (forall i :: 0 <= i < |d.workflows| - 1 ==> d.workflows[i] == WorkflowApproved)
    && (d.submission.Some? ==> d.submission.value.workflowId < |d.workflows|)
  }

  ghost predicate NamesNewestReview(d: Db) {
    d.status == PendingReview && d.submission.Some? ==> d.submission.value.workflowId == |d.workflows| - 1
  }

  /** A submission starts a new workflow and crashes over the entry of an earlier one. */
  ghost predicate CrashesOverEntry(d: Db, step: Step) {
    && step.DoSubmitInterrupted? && SubmitAccepted(d, step.env)
    && OpenWorkflow(d.workflows).None? && d.submission.Some?
  }

  ghost predicate NeverCrashesOverEntry(d: Db, steps: seq<Step>)
    decreases |steps|
  {
    steps == [] || (!CrashesOverEntry(d, steps[0]) && NeverCrashesOverEntry(Next(d, steps[0]), steps[1..]))
  }

  ghost predicate AlwaysNamesNewestReview(d: Db, steps: seq<Step>)
    decreases |steps|
  {
    NamesNewestReview(d) && (steps == [] || AlwaysNamesNewestReview(Next(d, steps[0]), steps[1..]))
  }

  lemma ApproveAndNewestReview(d: Db, env: ReviewEnv, approval: Approval)
    requires OnlyNewestOpen(d)
    ensures var next := Approve(d, env, approval).0;
            OnlyNewestOpen(next) && (NamesNewestReview(d) ==> NamesNewestReview(next))
  {
  }

  lemma NextAndNewestReview(d: Db, step: Step)
    requires OnlyNewestOpen(d)
    ensures OnlyNewestOpen(Next(d, step))
    ensures NamesNewestReview(d) ==> (NamesNewestReview(Next(d, step)) <==> !CrashesOverEntry(d, step))
  {
    match step
    case DoGenerateHandler(fingerprint, outcome) => GenerateChangesTheRow(d, fingerprint, outcome);
    case DoRenderHandler(fingerprint, outcome) => RenderChangesTheRow(d, fingerprint, outcome);
    case DoApprove(env, approval) => ApproveAndNewestReview(d, env, approval);
    case _ =>
  }

  lemma {:induction false} RunAndNewestReview(d: Db, steps: seq<Step>)
    requires OnlyNewestOpen(d)
    ensures OnlyNewestOpen(Run(d, steps))
    ensures NamesNewestReview(d) ==> (AlwaysNamesNewestReview(d, steps) <==> NeverCrashesOverEntry(d, steps))
    ensures AlwaysNamesNewestReview(d, steps) ==> NamesNewestReview(Run(d, steps))
    decreases |steps|
  {
    if steps != [] {
      NextAndNewestReview(d, steps[0]);
      RunAndNewestReview(Next(d, steps[0]), steps[1..]);
    }
  }

  /** Along any run a pending package names its newest review, if it names one at all, exactly as
      long as no submission crashes over an earlier entry. Whatever the run, a package that its
      entry's review can approve has another one open only if the entry is not the newest one's. */
  lemma NewestReviewAnswers(steps: seq<Step>)
    ensures AlwaysNamesNewestReview(NewPackage(), steps) <==> NeverCrashesOverEntry(NewPackage(), steps)
    ensures var d := Run(NewPackage(), steps);
      forall env | Approvable(d, env) :: OpenWorkflow(d.workflows).Some? ==> !NamesNewestReview(d)
    ensures NeverCrashesOverEntry(NewPackage(), steps) ==>
      forall env | Approvable(Run(NewPackage(), steps), env) :: OpenWorkflow(Run(NewPackage(), steps).workflows).None?
  {
    RunAndNewestReview(NewPackage(), steps);
  }

  lemma {:induction false} RunAppend(d: Db, a: seq<Step>, b: seq<Step>)
    ensures Run(d, a + b) == Run(Run(d, a), b)
    decreases |a|
  {
    if a == [] {
      assert a + b == b;
    } else {
      assert (a + b)[0] == a[0] && (a + b)[1..] == a[1..] + b;
      RunAppend(Next(d, a[0]), a[1..], b);
    }
  }
}
