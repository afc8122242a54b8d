/**
 Approvals that overlap. Any number of approvals may be in flight, each stopped after loading
 the row or after checking it; the other requests and handlers run in between.
 */
module DeliverableRace {
  import opened Basics
  import opened DeliverableModel
  import opened DeliverableInvariants

  datatype Flight = AtLoaded(row: Row) | AtVerified(ticket: Ticket) | Done(reply: Reply)

  datatype System = System(db: Db, flights: map<nat, Flight>)

  datatype Move =
    | Load(request: nat)
    | Check(request: nat, env: ReviewEnv)
    | Commit(request: nat, approval: Approval)
    | Other(step: Step)

  function Do(s: System, move: Move): System {
    match move
    case Load(a) =>
      if a in s.flights then s else
      (match ApproveLoad(s.db)
       case LoadDone(reply) => s.(flights := s.flights[a := Done(reply)])
       case LoadedRow(row) => s.(flights := s.flights[a := AtLoaded(row)]))
    case Check(a, env) =>
      if a !in s.flights || !s.flights[a].AtLoaded? then s else
      (match ApproveCheck(s.db, s.flights[a].row, env)
       case CheckDone(db, reply) => System(db, s.flights[a := Done(reply)])
       case Verified(ticket) => s.(flights := s.flights[a := AtVerified(ticket)]))
    case Commit(a, approval) =>
      if a !in s.flights || !s.flights[a].AtVerified? then s else
      var (db, reply) := ApproveCommit(s.db, s.flights[a].ticket, approval);
      System(db, s.flights[a := Done(reply)])
    case Other(step) => s.(db := Next(s.db, step))
  }

  function DoAll(s: System, moves: seq<Move>): System
    decreases |moves|
  {
    if moves == [] then s else DoAll(Do(s, moves[0]), moves[1..])
  }

  // ---------------------------------------------------------------- any interleaving

  ghost predicate ApprovedWorkflow(d: Db, w: nat) {
    w < |d.workflows| && d.workflows[w] == WorkflowApproved
  }

  /** What a flight carries is covered by the tables, however old it is. */
  ghost predicate FlightInv(d: Db, f: Flight) {
    match f
    case AtLoaded(row) =>
      row.versionNo <= |d.versions| && (row.submission.Some? ==> row.submission.value in d.auditedSubmissions)
    case AtVerified(t) =>
      && t.baseNo <= |d.versions| && t.submission in d.auditedSubmissions
      && t.submission == ReviewSubmission(t.submission.workflowId, Some(t.fileId), Some(t.contentHash), t.snapshotHash)
      && ApprovedWorkflow(d, t.submission.workflowId)
    case Done(reply) => reply.Returned? ==> reply.version in d.versions
  }

  /** The package invariant less one clause: approved no longer implies a file. */
  ghost predicate DbInv(d: Db) {
    && (d.fileId.Some? <==> d.contentHash.Some?)
    && (d.status in {Generated, PendingReview} ==> d.fileId.Some?)
    && WellNumbered(d.versions) && Reviewed(d) && SubmissionAudited(d) && NumberInRange(d)
  }

  ghost predicate RaceInv(s: System) {
    DbInv(s.db) && forall a | a in s.flights :: FlightInv(s.db, s.flights[a])
  }

  /** The tables a flight depends on never shrink. */
  ghost predicate Grows(d: Db, d': Db) {
    && d.versions <= d'.versions && d.auditedSubmissions <= d'.auditedSubmissions
    && |d.workflows| <= |d'.workflows| && forall w | ApprovedWorkflow(d, w) :: ApprovedWorkflow(d', w)
  }

  lemma FlightSurvives(d: Db, d': Db, f: Flight)
    requires Grows(d, d') && FlightInv(d, f)
    ensures FlightInv(d', f)
  {
  }

  lemma ApproveGrows(d: Db, env: ReviewEnv, approval: Approval)
    ensures Grows(d, Approve(d, env, approval).0)
  {
  }

  lemma NextGrows(d: Db, step: Step)
    ensures Grows(d, Next(d, step))
  {
    if step.DoApprove? {
      ApproveGrows(d, step.env, step.approval);
    }
  }

  lemma CheckKeepsDb(d: Db, row: Row, env: ReviewEnv)
    requires DbInv(d) && FlightInv(d, AtLoaded(row))
    ensures match ApproveCheck(d, row, env)
            case CheckDone(after, reply) => DbInv(after) && Grows(d, after) && FlightInv(after, Done(reply))
            case Verified(ticket) => FlightInv(d, AtVerified(ticket))
  {
  }

  lemma CommitKeepsDb(d: Db, ticket: Ticket, approval: Approval)
    requires DbInv(d) && FlightInv(d, AtVerified(ticket))
    ensures var (after, reply) := ApproveCommit(d, ticket, approval);
            DbInv(after) && Grows(d, after) && FlightInv(after, Done(reply))
  {
    var version := VersionOf(ticket, approval);
    var (after, reply) := ApproveCommit(d, ticket, approval);
    if InsertAllowed(d.versions, version) {
      CommitKeepsNumbering(d.versions, version, ticket.baseNo);
      assert SubmissionOf(version) == ticket.submission;
      assert after.versions == d.versions + [version];
    }
  }

  lemma ApproveKeepsDb(d: Db, env: ReviewEnv, approval: Approval)
    requires DbInv(d)
    ensures DbInv(Approve(d, env, approval).0)
  {
    match ApproveLoad(d)
    case LoadDone(_) =>
    case LoadedRow(row) =>
      CheckKeepsDb(d, row, env);
      match ApproveCheck(d, row, env)
      case CheckDone(_, _) =>
      case Verified(ticket) => CommitKeepsDb(d, ticket, approval);
  }

  lemma RowChangeKeepsDb(d: Db, next: Db)
    requires DbInv(d) && RowChange(d, next)
    requires (next.fileId.Some? <==> next.contentHash.Some?) && (next.status in {Generated, PendingReview} ==> next.fileId.Some?)
    ensures DbInv(next)
  {
  }

  lemma OtherKeepsDb(d: Db, step: Step)
    requires DbInv(d)
    ensures DbInv(Next(d, step))
  {
    match step
    case DoApprove(env, approval) => ApproveKeepsDb(d, env, approval);
    case DoSubmit(_) =>
    case DoSubmitInterrupted(_) =>
    case DoDecide(_, _) =>
    case DoRenderHandler(fingerprint, outcome) =>
      RenderChangesTheRow(d, fingerprint, outcome);
      RowChangeKeepsDb(d, RenderHandler(d, fingerprint, outcome));
    case _ => RowChangeKeepsDb(d, Next(d, step));
  }

  /** What one move does: the tables stay sound and grow, and at most one flight changes. */
  ghost predicate SoundMove(s: System, next: System) {
    && DbInv(next.db) && Grows(s.db, next.db)
    && forall b | b in next.flights ::
         (b in s.flights && next.flights[b] == s.flights[b]) || FlightInv(next.db, next.flights[b])
  }

  lemma CheckIsSound(s: System, a: nat, env: ReviewEnv)
    requires RaceInv(s)
    ensures SoundMove(s, Do(s, Check(a, env)))
  {
    if a in s.flights && s.flights[a].AtLoaded? {
      CheckKeepsDb(s.db, s.flights[a].row, env);
    }
  }

  lemma CommitIsSound(s: System, a: nat, approval: Approval)
    requires RaceInv(s)
    ensures SoundMove(s, Do(s, Commit(a, approval)))
  {
    if a in s.flights && s.flights[a].AtVerified? {
      CommitKeepsDb(s.db, s.flights[a].ticket, approval);
    }
  }

  lemma DoKeepsInv(s: System, move: Move)
    requires RaceInv(s)
    ensures RaceInv(Do(s, move)) && Grows(s.db, Do(s, move).db)
  {
    var next := Do(s, move);
    assert SoundMove(s, next) by {
      match move
      case Load(a) =>
      case Check(a, env) => CheckIsSound(s, a, env);
      case Commit(a, approval) => CommitIsSound(s, a, approval);
      case Other(step) =>
        OtherKeepsDb(s.db, step);
        NextGrows(s.db, step);
    }
    forall b | b in next.flights ensures FlightInv(next.db, next.flights[b]) {
      if b in s.flights && next.flights[b] == s.flights[b] {
        FlightSurvives(s.db, next.db, s.flights[b]);
      }
    }
  }

  lemma {:induction false} EveryInterleavingKeepsInv(s: System, moves: seq<Move>)
    requires RaceInv(s)
    ensures RaceInv(DoAll(s, moves)) && s.db.versions <= DoAll(s, moves).db.versions
    decreases |moves|
  {
    if moves != [] {
      DoKeepsInv(s, moves[0]);
      EveryInterleavingKeepsInv(Do(s, moves[0]), moves[1..]);
    }
  }

  /** Safety under every interleaving of every request: versions are numbered 1..n, no workflow
      and no snapshot has two, each repeats a reviewed submission, every request that returned a
      version returned a stored one, and a package that promises a file has one unless an
      approval went through after its file was cleared. */
  lemma EveryInterleavingIsSafe(moves: seq<Move>)
    ensures var start := System(NewPackage(), map[]); var s := DoAll(start, moves);
      && WellNumbered(s.db.versions) && Reviewed(s.db) && NumberInRange(s.db)
      && (forall a | a in s.flights && s.flights[a].Done? && s.flights[a].reply.Returned? ::
            s.flights[a].reply.version in s.db.versions)
      && (NeverApprovesCleared(start, moves) ==> FileFollowsStatus(s.db))
      && (NeverClearsUnderApproval(start, moves) ==> FileFollowsStatus(s.db))
  {
    var start := System(NewPackage(), map[]);
    EveryInterleavingKeepsInv(start, moves);
    FileKeptExactly(start, moves);
    if NeverClearsUnderApproval(start, moves) {
      UndisturbedApprovalsKeepTheFile(start, moves);
    }
  }

  // ---------------------------------------------------------------- the file of an approved package

  ghost predicate PassesCheck(d: Db, row: Row, env: ReviewEnv) {
    ReviewPassed(d, row, env) && exists v :: v in d.versions && v.workflowId == row.submission.value.workflowId
  }

  /** The move approves a package whose file was cleared since the request loaded it: a check that
      finds a version of the review, or a commit that does not raise. */
  ghost predicate ApprovesCleared(s: System, move: Move) {
    s.db.fileId.None? &&
    match move
    case Check(a, env) => a in s.flights && s.flights[a].AtLoaded? && PassesCheck(s.db, s.flights[a].row, env)
    case Commit(a, _) =>
      && a in s.flights && s.flights[a].AtVerified?
      && (Conflicts(s.db.versions, s.flights[a].ticket) || s.flights[a].ticket.baseNo == |s.db.versions|)
    case _ => false
  }

  ghost predicate NeverApprovesCleared(s: System, moves: seq<Move>)
    decreases |moves|
  {
    moves == [] || (!ApprovesCleared(s, moves[0]) && NeverApprovesCleared(Do(s, moves[0]), moves[1..]))
  }

  /** Every state of the run keeps file and status together. */
  ghost predicate AlwaysHasFile(s: System, moves: seq<Move>)
    decreases |moves|
  {
    FileFollowsStatus(s.db) && (moves == [] || AlwaysHasFile(Do(s, moves[0]), moves[1..]))
  }

  lemma OtherKeepsFile(d: Db, step: Step)
    requires DbInv(d) && FileFollowsStatus(d)
    ensures FileFollowsStatus(Next(d, step))
  {
  }

  lemma CheckAndFile(s: System, a: nat, env: ReviewEnv)
    requires RaceInv(s) && FileFollowsStatus(s.db)
    ensures FileFollowsStatus(Do(s, Check(a, env)).db) <==> !ApprovesCleared(s, Check(a, env))
  {
    if a in s.flights && s.flights[a].AtLoaded? && ReviewPassed(s.db, s.flights[a].row, env) {
      var w := s.flights[a].row.submission.value.workflowId;
      assert FindByWorkflow(s.db.versions, w).Some? <==> PassesCheck(s.db, s.flights[a].row, env);
    }
  }

  lemma CommitAndFile(s: System, a: nat, approval: Approval)
    requires RaceInv(s) && FileFollowsStatus(s.db)
    ensures FileFollowsStatus(Do(s, Commit(a, approval)).db) <==> !ApprovesCleared(s, Commit(a, approval))
  {
    if a in s.flights && s.flights[a].AtVerified? {
      CommitOutcome(s.db, s.flights[a].ticket, approval);
    }
  }

  lemma MoveAndFile(s: System, move: Move)
    requires RaceInv(s) && FileFollowsStatus(s.db)
    ensures FileFollowsStatus(Do(s, move).db) <==> !ApprovesCleared(s, move)
  {
    match move
    case Load(_) =>
    case Check(a, env) => CheckAndFile(s, a, env);
    case Commit(a, approval) => CommitAndFile(s, a, approval);
    case Other(step) => OtherKeepsFile(s.db, step);
  }

  /** File and status stay together all along an interleaving exactly when none of its checks and
      commits approves a package whose file was cleared under it. */
  lemma {:induction false} FileKeptExactly(s: System, moves: seq<Move>)
    requires RaceInv(s) && FileFollowsStatus(s.db)
    ensures AlwaysHasFile(s, moves) <==> NeverApprovesCleared(s, moves)
    ensures AlwaysHasFile(s, moves) ==> FileFollowsStatus(DoAll(s, moves).db)
    decreases |moves|
  {
    if moves != [] {
      MoveAndFile(s, moves[0]);
      DoKeepsInv(s, moves[0]);
      if !ApprovesCleared(s, moves[0]) {
        FileKeptExactly(Do(s, moves[0]), moves[1..]);
      }
    }
  }

  ghost predicate UnderWay(s: System) {
    exists a :: a in s.flights && !s.flights[a].Done?
  }

  /** No move of the run clears the file while an approval is under way. */
  ghost predicate NeverClearsUnderApproval(s: System, moves: seq<Move>)
    decreases |moves|
  {
    moves == [] ||
    (&& !(UnderWay(s) && s.db.fileId.Some? && Do(s, moves[0]).db.fileId.None?)
     && NeverClearsUnderApproval(Do(s, moves[0]), moves[1..]))
  }

  lemma UndisturbedMove(s: System, move: Move)
    requires RaceInv(s) && FileFollowsStatus(s.db) && (UnderWay(s) ==> s.db.fileId.Some?)
    requires !(UnderWay(s) && s.db.fileId.Some? && Do(s, move).db.fileId.None?)
    ensures var next := Do(s, move); FileFollowsStatus(next.db) && (UnderWay(next) ==> next.db.fileId.Some?)
  {
    var next := Do(s, move);
    assert ApprovesCleared(s, move) ==> UnderWay(s);
    MoveAndFile(s, move);
    if UnderWay(next) && !UnderWay(s) {
      var a :| a in next.flights && !next.flights[a].Done?;
      assert move == Load(a);
    }
  }

  /** So it is enough that no request clears the file while an approval is under way. */
  lemma {:induction false} UndisturbedApprovalsKeepTheFile(s: System, moves: seq<Move>)
    requires RaceInv(s) && FileFollowsStatus(s.db) && (UnderWay(s) ==> s.db.fileId.Some?)
    requires NeverClearsUnderApproval(s, moves)
    ensures AlwaysHasFile(s, moves) && FileFollowsStatus(DoAll(s, moves).db)
    decreases |moves|
  {
    if moves != [] {
      UndisturbedMove(s, moves[0]);
      DoKeepsInv(s, moves[0]);
      UndisturbedApprovalsKeepTheFile(Do(s, moves[0]), moves[1..]);
    }
  }

  /** Two approvals load a package under review, and the first commits its first version. */
  lemma FirstOfTwoCommits(d: Db, env: ReviewEnv, approval: Approval)
    requires Inv(d) && Approvable(d, env) && d.versions == []
    ensures var s := Do(Do(Do(Do(System(d, map[]), Load(0)), Load(1)), Check(0, env)), Commit(0, approval));
            var v := VersionOf(TicketOf(d), approval);
            && 1 in s.flights && s.flights[1] == AtLoaded(RowOf(d))
            && s.db == d.(status := Approved, versionNo := v.versionNo, approval := Some(approval), versions := [v])
  {
    var s2 := Do(Do(System(d, map[]), Load(0)), Load(1));
    assert s2 == System(d, map[0 := AtLoaded(RowOf(d)), 1 := AtLoaded(RowOf(d))]);
    assert ApproveCheck(d, RowOf(d), env) == Verified(TicketOf(d));
    var s3 := Do(s2, Check(0, env));
    assert s3 == System(d, s2.flights[0 := AtVerified(TicketOf(d))]);
    assert InsertAllowed(d.versions, VersionOf(TicketOf(d), approval));
  }

  /** Rendering clears the file, and the second approval, still holding the row it loaded, finds
      the new version. */
  lemma ClearedThenChecked(d: Db, s: System, env: ReviewEnv, approval: Approval, fp: Digest)
    requires Inv(d) && Approvable(d, env) && 1 in s.flights && s.flights[1] == AtLoaded(RowOf(d))
    requires s.db.files == d.files && s.db.workflows == d.workflows && s.db.versions == [VersionOf(TicketOf(d), approval)]
    ensures var after := Do(Do(Do(s, Other(DoRenderRequest(fp))), Other(DoRenderHandler(fp, RendererCrashed))), Check(1, env));
            after.db.status == Approved && after.db.fileId.None?
  {
    var cleared := Do(Do(s, Other(DoRenderRequest(fp))), Other(DoRenderHandler(fp, RendererCrashed)));
    assert cleared.flights == s.flights && cleared.db.fileId.None?;
    assert ReviewPassed(cleared.db, RowOf(d), env);
    assert FindByWorkflow(cleared.db.versions, d.submission.value.workflowId).Some?;
  }

  /** The other way to lose the file, by a check and not by a commit. */
  lemma StaleCheckApprovesWithoutFile(approval: Approval) returns (moves: seq<Move>)
    ensures var s := DoAll(System(NewPackage(), map[]), moves); s.db.status == Approved && s.db.fileId.None?
    ensures moves != [] && moves[|moves| - 1].Check?
  {
    var steps, d := ReadyForReview(NewPackage(), 11, 1);
    var env, fp := ReviewEnv(true, 0, 11, 1), OfRecords(2);
    var others := seq(|steps|, i requires 0 <= i < |steps| => Other(steps[i]));
    OthersRun(System(NewPackage(), map[]), steps, others);
    FirstOfTwoCommits(d, env, approval);
    var s0 := System(d, map[]);
    var s4 := Do(Do(Do(Do(s0, Load(0)), Load(1)), Check(0, env)), Commit(0, approval));
    ClearedThenChecked(d, s4, env, approval, fp);
    var tail := [Load(0), Load(1), Check(0, env), Commit(0, approval)]
                + [Other(DoRenderRequest(fp)), Other(DoRenderHandler(fp, RendererCrashed)), Check(1, env)];
    DoSeven(s0, tail);
    moves := others + tail;
    DoAllAppend(System(NewPackage(), map[]), others, tail);
  }

  lemma DoSeven(s: System, m: seq<Move>)
    requires |m| == 7
    ensures DoAll(s, m) == Do(Do(Do(Do(Do(Do(Do(s, m[0]), m[1]), m[2]), m[3]), m[4]), m[5]), m[6])
  {
    var s1 := Do(s, m[0]);
    var s2 := Do(s1, m[1]);
    DoFive(s2, m[2], m[3], m[4], m[5], m[6]);
    assert m[1..][1..] == [m[2], m[3], m[4], m[5], m[6]] && m[1..][0] == m[1];
    assert DoAll(s, m) == DoAll(s1, m[1..]) == DoAll(s2, m[1..][1..]);
  }

  /** An approval is checked, rendering clears the file, and the approval commits. */
  lemma ClearedThenCommitted(d: Db, env: ReviewEnv, approval: Approval, fp: Digest)
    requires Inv(d) && Approvable(d, env) && d.versions == []
    ensures var s3 := Do(Do(Do(System(d, map[]), Load(0)), Check(0, env)), Other(DoRenderRequest(fp)));
            var after := Do(Do(s3, Other(DoRenderHandler(fp, RendererCrashed))), Commit(0, approval));
            after.db.status == Approved && after.db.fileId.None?
  {
    assert ApproveCheck(d, RowOf(d), env) == Verified(TicketOf(d));
    var s2 := Do(Do(System(d, map[]), Load(0)), Check(0, env));
    assert s2 == System(d, map[0 := AtVerified(TicketOf(d))]);
    var s4 := Do(Do(s2, Other(DoRenderRequest(fp))), Other(DoRenderHandler(fp, RendererCrashed)));
    assert s4.flights == s2.flights && s4.db.versions == [] && s4.db.fileId.None?;
    assert InsertAllowed(s4.db.versions, VersionOf(TicketOf(d), approval));
  }

  lemma RenderingCanOvertakeApproval(approval: Approval) returns (moves: seq<Move>)
    ensures var s := DoAll(System(NewPackage(), map[]), moves); s.db.status == Approved && s.db.fileId.None?
  {
    var steps, d := ReadyForReview(NewPackage(), 11, 1);
    var env, fp := ReviewEnv(true, 0, 11, 1), OfRecords(2);
    var others := seq(|steps|, i requires 0 <= i < |steps| => Other(steps[i]));
    OthersRun(System(NewPackage(), map[]), steps, others);
    ClearedThenCommitted(d, env, approval, fp);
    var tail := [Load(0), Check(0, env), Other(DoRenderRequest(fp)), Other(DoRenderHandler(fp, RendererCrashed)), Commit(0, approval)];
    DoFive(System(d, map[]), tail[0], tail[1], tail[2], tail[3], tail[4]);
    moves := others + tail;
    DoAllAppend(System(NewPackage(), map[]), others, tail);
  }

  lemma {:induction false} OthersRun(s: System, steps: seq<Step>, moves: seq<Move>)
    requires |moves| == |steps| && forall i :: 0 <= i < |steps| ==> moves[i] == Other(steps[i])
    ensures DoAll(s, moves) == s.(db := Run(s.db, steps))
    decreases |steps|
  {
    if steps != [] {
      OthersRun(Do(s, moves[0]), steps[1..], moves[1..]);
    }
  }

  lemma {:induction false} DoAllAppend(s: System, a: seq<Move>, b: seq<Move>)
    ensures DoAll(s, a + b) == DoAll(DoAll(s, a), b)
    decreases |a|
  {
    if a == [] {
      assert a + b == b;
    } else {
      assert (a + b)[0] == a[0] && (a + b)[1..] == a[1..] + b;
      DoAllAppend(Do(s, a[0]), a[1..], b);
    }
  }

  lemma DoFive(s: System, m1: Move, m2: Move, m3: Move, m4: Move, m5: Move)
    ensures DoAll(s, [m1, m2, m3, m4, m5]) == Do(Do(Do(Do(Do(s, m1), m2), m3), m4), m5)
  {
    var s1 := Do(s, m1);
    var s2 := Do(s1, m2);
    var s3 := Do(s2, m3);
    var s4 := Do(s3, m4);
    assert [m1, m2, m3, m4, m5][1..] == [m2, m3, m4, m5];
    assert [m2, m3, m4, m5][1..] == [m3, m4, m5];
    assert [m3, m4, m5][1..] == [m4, m5];
    assert [m4, m5][1..] == [m5];
    assert DoAll(s, [m1, m2, m3, m4, m5]) == DoAll(s1, [m2, m3, m4, m5]);
    assert DoAll(s1, [m2, m3, m4, m5]) == DoAll(s2, [m3, m4, m5]);
    assert DoAll(s2, [m3, m4, m5]) == DoAll(s3, [m4, m5]);
    assert DoAll(s3, [m4, m5]) == DoAll(s4, [m5]);
    assert DoAll(s4, [m5]) == DoAll(Do(s4, m5), []);
  }

  // ---------------------------------------------------------------- approvals racing each other

  /** A package waiting for review before the first of the racing approvals. */
  ghost predicate Waiting(d0: Db) {
    Inv(d0) && d0.status == PendingReview
  }

  function RowOf(d: Db): Row {
    Row(d.versionNo, d.fileId, d.contentHash, d.submission)
  }

  /** The only ticket the race can hand out. */
  function TicketOf(d: Db): Ticket
    requires d.fileId.Some? && d.contentHash.Some? && d.submission.Some?
  {
    Ticket(d.versionNo, d.fileId.value, d.contentHash.value, d.submission.value, d.submission.value.snapshotHash)
  }

  /** The stored version the race ends on: the review's own, or one of the same records. */
  function StoredMatch(d0: Db): (r: Option<PackageVersion>) {
    if d0.submission.None? then None else
    var s := d0.submission.value;
    var own := FindByWorkflow(d0.versions, s.workflowId);
    if own.Some? then own else FindMatch(d0.versions, s.workflowId, s.snapshotHash)
  }

  /** Some approval of the waiting package can succeed. */
  ghost predicate Releasable(d0: Db) {
    d0.submission.Some? && (StoredMatch(d0).Some? || d0.versionNo == |d0.versions|)
  }

  /** The package after the race has settled on a version. */
  ghost function SettledDb(d0: Db, v: PackageVersion): Db {
    d0.(status := Approved, versionNo := v.versionNo,
        approval := if ReviewHasVersion(d0) then d0.approval else Some(v.approval),
        versions := if StoredMatch(d0).Some? then d0.versions else d0.versions + [v])
  }

  /** The version the race may settle on. */
  ghost predicate Winner(d0: Db, v: PackageVersion)
    requires Waiting(d0)
  {
    if StoredMatch(d0).Some? then v == StoredMatch(d0).value
    else d0.submission.Some? && d0.versionNo == |d0.versions| && v == VersionOf(TicketOf(d0), v.approval)
  }

  ghost predicate FlightOf(d0: Db, f: Flight)
    requires Waiting(d0)
  {
    match f
    case AtLoaded(row) => row == RowOf(d0)
    case AtVerified(t) => d0.submission.Some? && !ReviewHasVersion(d0) && t == TicketOf(d0)
    case Done(reply) => reply.Raised? ==> !Releasable(d0)
  }

  ghost predicate Unsettled(d0: Db, s: System)
    requires Waiting(d0)
  {
    && s.db == d0
    && forall a | a in s.flights :: FlightOf(d0, s.flights[a]) && !(s.flights[a].Done? && s.flights[a].reply.Returned?)
  }

  ghost predicate SettledOn(d0: Db, s: System, v: PackageVersion)
    requires Waiting(d0)
  {
    && Winner(d0, v) && s.db == SettledDb(d0, v)
    && forall a | a in s.flights ::
         && FlightOf(d0, s.flights[a])
         && (s.flights[a].Done? && s.flights[a].reply.Returned? ==> s.flights[a].reply.version == v)
  }

  ghost predicate RaceState(d0: Db, s: System)
    requires Waiting(d0)
  {
    Unsettled(d0, s) || exists v :: SettledOn(d0, s, v)
  }

  lemma WinnerIsTheMatch(d0: Db, v: PackageVersion)
    requires Waiting(d0) && Winner(d0, v)
    ensures d0.submission.Some?
    ensures var sub := d0.submission.value; var versions := SettledDb(d0, v).versions;
      && v in versions
      && (!ReviewHasVersion(d0) ==> FindMatch(versions, sub.workflowId, sub.snapshotHash) == Some(v))
      && FindByWorkflow(versions, sub.workflowId) ==
           if StoredMatch(d0).Some? && !ReviewHasVersion(d0) then None else Some(v)
  {
    var sub := d0.submission.value;
    assert FindByWorkflow(d0.versions, sub.workflowId).Some? <==> ReviewHasVersion(d0);
    if StoredMatch(d0).None? {
      MatchOfAppended(d0.versions, v, sub.workflowId, sub.snapshotHash);
      assert v in d0.versions + [v];
    }
  }

  lemma {:induction false} MatchOfAppended(versions: seq<PackageVersion>, v: PackageVersion, w: nat, h: Digest)
    requires v.workflowId == w
    requires forall u | u in versions :: u.workflowId != w && u.snapshotHash != h
    ensures FindMatch(versions + [v], w, h) == Some(v) && FindByWorkflow(versions + [v], w) == Some(v)
  {
    if versions != [] {
      assert (versions + [v])[1..] == versions[1..] + [v];
      MatchOfAppended(versions[1..], v, w, h);
    }
  }

  lemma CheckOfWaiting(d0: Db, d: Db, env: ReviewEnv)
    requires Waiting(d0) && d.files == d0.files && d.workflows == d0.workflows
    ensures match ApproveCheck(d, RowOf(d0), env)
            case CheckDone(after, reply) =>
              (after, reply) == (d, Refused) ||
              (d0.submission.Some? &&
               var e := FindByWorkflow(d.versions, d0.submission.value.workflowId);
               e.Some? && reply == Returned(e.value, true) &&
               after == d.(status := Approved, versionNo := e.value.versionNo, submission := d0.submission))
            case Verified(ticket) =>
              d0.submission.Some? && ticket == TicketOf(d0) && FindByWorkflow(d.versions, d0.submission.value.workflowId).None?
  {
  }

  lemma CheckFromUnsettled(d0: Db, s: System, a: nat, env: ReviewEnv)
    requires Waiting(d0) && Unsettled(d0, s) && a in s.flights && s.flights[a].AtLoaded?
    ensures RaceState(d0, Do(s, Check(a, env)))
  {
    CheckOfWaiting(d0, d0, env);
    assert s.flights[a].row == RowOf(d0);
    match ApproveCheck(d0, RowOf(d0), env)
    case CheckDone(db, reply) =>
      var next := System(db, s.flights[a := Done(reply)]);
      if reply == Refused {
        assert Unsettled(d0, next);
      } else {
        assert ReviewHasVersion(d0);
        assert SettledOn(d0, next, reply.version);
      }
    case Verified(ticket) =>
      assert Unsettled(d0, System(d0, s.flights[a := AtVerified(ticket)]));
  }

  lemma CommitFromUnsettled(d0: Db, s: System, a: nat, approval: Approval)
    requires Waiting(d0) && Unsettled(d0, s) && a in s.flights && s.flights[a].AtVerified?
    ensures RaceState(d0, Do(s, Commit(a, approval)))
  {
    CommitOutcome(d0, TicketOf(d0), approval);
    assert StoredMatch(d0).Some? <==> Conflicts(d0.versions, TicketOf(d0));
    var (db, reply) := ApproveCommit(d0, TicketOf(d0), approval);
    assert s.flights[a].ticket == TicketOf(d0);
    var next := System(db, s.flights[a := Done(reply)]);
    if reply.Returned? {
      assert SettledOn(d0, next, reply.version);
    } else {
      assert Unsettled(d0, next);
    }
  }

  lemma MoveFromUnsettled(d0: Db, s: System, move: Move)
    requires Waiting(d0) && Unsettled(d0, s) && !move.Other?
    ensures RaceState(d0, Do(s, move))
  {
    match move
    case Load(a) =>
      assert Unsettled(d0, Do(s, move));
    case Check(a, env) =>
      if a in s.flights && s.flights[a].AtLoaded? {
        CheckFromUnsettled(d0, s, a, env);
      }
    case Commit(a, approval) =>
      if a in s.flights && s.flights[a].AtVerified? {
        CommitFromUnsettled(d0, s, a, approval);
      }
  }

  /** Any request that ends on the settled version leaves the package as it is. */
  lemma FlightSettles(d0: Db, s: System, v: PackageVersion, a: nat, f: Flight)
    requires Waiting(d0) && SettledOn(d0, s, v) && FlightOf(d0, f)
    requires f.Done? && f.reply.Returned? ==> f.reply.version == v
    ensures SettledOn(d0, s.(flights := s.flights[a := f]), v)
  {
  }

  lemma CheckFromSettled(d0: Db, s: System, v: PackageVersion, a: nat, env: ReviewEnv)
    requires Waiting(d0) && SettledOn(d0, s, v) && a in s.flights && s.flights[a].AtLoaded?
    ensures SettledOn(d0, Do(s, Check(a, env)), v)
  {
    WinnerIsTheMatch(d0, v);
    CheckOfWaiting(d0, s.db, env);
    assert s.flights[a].row == RowOf(d0);
    match ApproveCheck(s.db, RowOf(d0), env)
    case CheckDone(db, reply) => FlightSettles(d0, s, v, a, Done(reply));
    case Verified(ticket) => FlightSettles(d0, s, v, a, AtVerified(ticket));
  }

  lemma CommitFromSettled(d0: Db, s: System, v: PackageVersion, a: nat, approval: Approval)
    requires Waiting(d0) && SettledOn(d0, s, v) && a in s.flights && s.flights[a].AtVerified?
    ensures SettledOn(d0, Do(s, Commit(a, approval)), v)
  {
    WinnerIsTheMatch(d0, v);
    assert s.flights[a].ticket == TicketOf(d0);
    assert !InsertAllowed(s.db.versions, VersionOf(TicketOf(d0), approval));
    FlightSettles(d0, s, v, a, Done(Returned(v, true)));
  }

  lemma LoadFromSettled(d0: Db, s: System, v: PackageVersion, a: nat)
    requires Waiting(d0) && SettledOn(d0, s, v)
    ensures SettledOn(d0, Do(s, Load(a)), v)
  {
    WinnerIsTheMatch(d0, v);
    match ApproveLoad(s.db)
    case LoadDone(reply) => FlightSettles(d0, s, v, a, Done(reply));
    case LoadedRow(row) =>
  }

  lemma MoveFromSettled(d0: Db, s: System, v: PackageVersion, move: Move)
    requires Waiting(d0) && SettledOn(d0, s, v) && !move.Other?
    ensures SettledOn(d0, Do(s, move), v)
  {
    match move
    case Load(a) =>
      LoadFromSettled(d0, s, v, a);
    case Check(a, env) =>
      if a in s.flights && s.flights[a].AtLoaded? {
        CheckFromSettled(d0, s, v, a, env);
      }
    case Commit(a, approval) =>
      if a in s.flights && s.flights[a].AtVerified? {
        CommitFromSettled(d0, s, v, a, approval);
      }
  }

  lemma {:induction false} RaceRun(d0: Db, s: System, moves: seq<Move>)
    requires Waiting(d0) && RaceState(d0, s)
    requires forall i :: 0 <= i < |moves| ==> !moves[i].Other?
    ensures RaceState(d0, DoAll(s, moves))
    decreases |moves|
  {
    if moves != [] {
      if Unsettled(d0, s) {
        MoveFromUnsettled(d0, s, moves[0]);
      } else {
        var v :| SettledOn(d0, s, v);
        MoveFromSettled(d0, s, v, moves[0]);
      }
      assert !moves[0].Other?;
      var rest := moves[1..];
      assert forall i :: 0 <= i < |rest| ==> rest[i] == moves[i + 1];
      RaceRun(d0, Do(s, moves[0]), rest);
    }
  }

  /** Approvals racing for one waiting package, in any number and any order: all that return
      normally return the same version, the package is approved with that version's number and,
      unless the review had a version before, its approver, at most one version is added, and an
      approval raises only when none can succeed. */
  lemma RacingApprovalsAgree(d0: Db, moves: seq<Move>)
    requires Waiting(d0) && forall i :: 0 <= i < |moves| ==> !moves[i].Other?
    ensures var s := DoAll(System(d0, map[]), moves);
      && (forall a | a in s.flights && s.flights[a].Done? && s.flights[a].reply.Returned? ::
            var v := s.flights[a].reply.version;
            && Releasable(d0) && s.db.status == Approved && s.db.versionNo == v.versionNo
            && s.db.approval == (if ReviewHasVersion(d0) then d0.approval else Some(v.approval))
            && v in s.db.versions && s.db.fileId == d0.fileId)
      && (forall a, b | a in s.flights && b in s.flights && s.flights[a].Done? && s.flights[b].Done?
                        && s.flights[a].reply.Returned? && s.flights[b].reply.Returned? ::
            s.flights[a].reply.version == s.flights[b].reply.version)
      && (forall a | a in s.flights && s.flights[a].Done? && s.flights[a].reply.Raised? :: !Releasable(d0))
      && d0.versions <= s.db.versions && |s.db.versions| <= |d0.versions| + 1
  {
    var s := DoAll(System(d0, map[]), moves);
    assert Unsettled(d0, System(d0, map[]));
    RaceRun(d0, System(d0, map[]), moves);
    if !Unsettled(d0, s) {
      var v :| SettledOn(d0, s, v);
      WinnerIsTheMatch(d0, v);
    }
  }
}
