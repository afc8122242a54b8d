/**
 Requests and workers that nothing interrupts, and from them the runs that break each of the
 conditions on versions, confirmations and jobs.
 */
module BatchImportRuns {
  import opened Basics
  import opened BatchImport
  import opened BatchImportVersions
  import opened BatchImportExact

  lemma RunOne(b: Batch, m: Move)
    ensures DoAll(b, [m]) == Do(b, m)
  {
    assert [m][1..] == [];
  }

  lemma RunTwo(b: Batch, m1: Move, m2: Move)
    ensures DoAll(b, [m1, m2]) == Do(Do(b, m1), m2)
  {
    assert [m1, m2][1..] == [m2];
    RunOne(Do(b, m1), m2);
  }

  lemma RunThree(b: Batch, m1: Move, m2: Move, m3: Move)
    ensures DoAll(b, [m1, m2, m3]) == Do(Do(Do(b, m1), m2), m3)
  {
    assert [m1, m2, m3][1..] == [m2, m3];
    RunTwo(Do(b, m1), m2, m3);
  }

  lemma RunFour(b: Batch, m1: Move, m2: Move, m3: Move, m4: Move)
    ensures DoAll(b, [m1, m2, m3, m4]) == Do(Do(Do(Do(b, m1), m2), m3), m4)
  {
    assert [m1, m2, m3, m4][1..] == [m2, m3, m4];
    RunThree(Do(b, m1), m2, m3, m4);
  }

  /** One run after another. */
  lemma Then(b: Batch, first: seq<Move>, c: Batch, second: seq<Move>) returns (moves: seq<Move>)
    requires DoAll(b, first) == c
    ensures DoAll(b, moves) == DoAll(c, second)
  {
    DoAllAppend(b, first, second);
    moves := first + second;
  }

  // ---------------------------------------------------------------- undisturbed

  lemma ReopenChecks(b: Batch, r: nat)
    requires r !in b.flights && (b.jobId.Some? ==> b.jobId.value < |b.jobs|)
    ensures Do(Do(b, Reads(r, ReadForReopen)), Reads(r, CheckForReopen)) ==
      SetFlight(b, r, if b.jobId.Some? && Retryable(b.jobs[b.jobId.value].status) then ReopenChecked(b.version) else Ended(Conflict))
  {
    if b.jobId.Some? {
      var read := ReopenRead(b.version, b.jobId.value);
      var f := if Retryable(b.jobs[b.jobId.value].status) then ReopenChecked(b.version) else Ended(Conflict);
      assert b.flights[r := read][r := f] == b.flights[r := f];
    }
  }

  /** A reopening that nothing interrupts takes effect exactly for an attached job that ended without
      success. */
  lemma ReopenOutcome(b: Batch, r: nat)
    requires r !in b.flights && (b.jobId.Some? ==> b.jobId.value < |b.jobs|)
    ensures Do(Do(Do(b, Reads(r, ReadForReopen)), Reads(r, CheckForReopen)), Row(UpdateReopen(r))) ==
      if b.jobId.Some? && b.jobs[b.jobId.value].status in {JobFailed, JobPartial, JobCancelled}
      then b.(status := Preview, version := b.version + 1, jobId := None, flights := b.flights[r := Ended(Reopened)])
      else b.(flights := b.flights[r := Ended(Conflict)])
  {
    ReopenChecks(b, r);
    assert b.flights[r := ReopenChecked(b.version)][r := Ended(Reopened)] == b.flights[r := Ended(Reopened)];
  }

  lemma Reopen(b: Batch, r: nat) returns (moves: seq<Move>, after: Batch)
    requires r !in b.flights && b.jobId.Some? && b.jobId.value < |b.jobs| && Retryable(b.jobs[b.jobId.value].status)
    ensures after == DoAll(b, moves)
    ensures after == b.(status := Preview, version := b.version + 1, jobId := None, flights := b.flights[r := Ended(Reopened)])
  {
    ReopenOutcome(b, r);
    moves := [Reads(r, ReadForReopen), Reads(r, CheckForReopen), Row(UpdateReopen(r))];
    RunThree(b, moves[0], moves[1], moves[2]);
    after := DoAll(b, moves);
  }

  /** An apply with a stale version is a conflict at once; it changes nothing but its own answer, and
      neither does a request that crashes. */
  lemma LoadOutcome(b: Batch, r: nat, expected: nat)
    requires r !in b.flights
    ensures var next := Do(b, Reads(r, Load(expected)));
      && next == b.(flights := next.flights) && r in next.flights
      && (next.flights[r] == Ended(Conflict) <==> b.version != expected)
      && (b.version == expected ==> next.flights[r] == Loaded(expected, b.status == Preview))
      && var crashed := Do(next, Reads(r, Crash));
      && crashed == b.(flights := crashed.flights)
      && crashed.flights[r] == Ended(if b.version == expected then Crashed else Conflict)
  {
  }

  /** A preview is loaded and confirmed. */
  lemma ConfirmOnly(b: Batch, r: nat) returns (moves: seq<Move>, after: Batch)
    requires b.status == Preview && r !in b.flights
    ensures after == DoAll(b, moves)
    ensures after == b.(status := Queued, confirmations := b.confirmations + [b.version], flights := b.flights[r := Confirmed])
  {
    moves := [Reads(r, Load(b.version)), Row(Confirm(r, true))];
    RunTwo(b, moves[0], moves[1]);
    after := DoAll(b, moves);
    assert b.flights[r := Loaded(b.version, true)][r := Confirmed] == b.flights[r := Confirmed];
  }

  /** The version is read again and its one job enqueued. */
  lemma EnqueueOnly(b: Batch, r: nat) returns (moves: seq<Move>, after: Batch)
    requires FlightOf(b, r) == Some(Confirmed)
    ensures after == DoAll(b, moves)
    ensures var (jobs, j) := CreateOrGet(b.jobs, VersionKey(b.version), b.version, true);
      after == b.(jobs := jobs, flights := b.flights[r := Enqueued(j)])
  {
    moves := [Reads(r, Reread), Table(Enqueue(r))];
    RunTwo(b, moves[0], moves[1]);
    after := DoAll(b, moves);
    assert Do(b, moves[0]) == SetFlight(b, r, Keyed(b.version));
    var j := CreateOrGet(b.jobs, VersionKey(b.version), b.version, true).1;
    assert b.flights[r := Keyed(b.version)][r := Enqueued(j)] == b.flights[r := Enqueued(j)];
  }

  /** Applying a preview confirms its version and attaches the job of that version. */
  lemma Apply(b: Batch, r: nat) returns (moves: seq<Move>, after: Batch)
    requires b.status == Preview && r !in b.flights
    ensures after == DoAll(b, moves)
    ensures var (jobs, j) := CreateOrGet(b.jobs, VersionKey(b.version), b.version, true);
      after == b.(status := Queued, confirmations := b.confirmations + [b.version], jobs := jobs, jobId := Some(j),
                  flights := b.flights[r := Ended(Answered(j))])
  {
    var m1, c := ConfirmOnly(b, r);
    var m2, d := EnqueueOnly(c, r);
    var m3 := [Row(Attach(r))];
    RunOne(d, m3[0]);
    moves := Then(b, m1, c, m2);
    moves := Then(b, moves, d, m3);
    after := Do(d, m3[0]);
    var j := CreateOrGet(b.jobs, VersionKey(b.version), b.version, true).1;
    assert b.flights[r := Confirmed][r := Enqueued(j)][r := Ended(Answered(j))] == b.flights[r := Ended(Answered(j))];
  }

  /** Applying again a batch that is no preview. */
  lemma Repeat(b: Batch, r: nat) returns (moves: seq<Move>, after: Batch)
    requires b.status != Preview && r !in b.flights
    ensures after == DoAll(b, moves)
    ensures var (jobs, j) := CreateOrGet(b.jobs, VersionKey(b.version), b.version, true);
      after == b.(jobs := jobs, jobId := Some(j), flights := b.flights[r := Ended(Answered(j))])
  {
    moves := [Reads(r, Load(b.version)), Table(Enqueue(r)), Row(Attach(r))];
    RunThree(b, moves[0], moves[1], moves[2]);
    after := DoAll(b, moves);
    var j := CreateOrGet(b.jobs, VersionKey(b.version), b.version, true).1;
    assert b.flights[r := Loaded(b.version, false)][r := Enqueued(j)][r := Ended(Answered(j))] == b.flights[r := Ended(Answered(j))];
  }

  lemma Cancel(b: Batch, r: nat, j: nat) returns (moves: seq<Move>, after: Batch)
    requires r !in b.flights && j < |b.jobs| && b.jobs[j].status in {JobQueued, JobRunning}
    ensures after == DoAll(b, moves)
    ensures after == b.(jobs := b.jobs[j := b.jobs[j].(status := JobCancelled)], flights := b.flights[r := Ended(Acted)])
  {
    moves := [Reads(r, CheckJob(j, Cancelling)), Table(ActOnJob(r))];
    RunTwo(b, moves[0], moves[1]);
    after := DoAll(b, moves);
    assert Do(b, moves[0]) == SetFlight(b, r, JobChecked(j, Cancelling));
    assert b.flights[r := JobChecked(j, Cancelling)][r := Ended(Acted)] == b.flights[r := Ended(Acted)];
  }

  /** Rerunning a finished job for the first time gives its version a second job. */
  lemma Rerun(b: Batch, r: nat, j: nat) returns (moves: seq<Move>, after: Batch)
    requires r !in b.flights && j < |b.jobs| && b.jobs[j].status in {JobCompleted, JobPartial}
    requires FindJob(b.jobs, RerunKey(j)).None?
    ensures after == DoAll(b, moves)
    ensures after == b.(jobs := b.jobs + [Job(RerunKey(j), b.jobs[j].version, true, JobQueued)], flights := b.flights[r := Ended(Acted)])
  {
    moves := [Reads(r, CheckJob(j, Rerunning(true))), Table(ActOnJob(r))];
    RunTwo(b, moves[0], moves[1]);
    after := DoAll(b, moves);
    assert Do(b, moves[0]) == SetFlight(b, r, JobChecked(j, Rerunning(true)));
    assert b.flights[r := JobChecked(j, Rerunning(true))][r := Ended(Acted)] == b.flights[r := Ended(Acted)];
  }

  /** The job may be started: it is the owner's, not cancelled, and the batch is at its version and
      no preview. */
  predicate Runnable(b: Batch, j: nat) {
    && j < |b.jobs| && b.jobs[j].byOwner && b.jobs[j].status != JobCancelled
    && b.jobs[j].version == b.version && b.status != Preview
  }

  lemma Work(b: Batch, w: nat, j: nat) returns (moves: seq<Move>, after: Batch)
    requires w !in b.workers && Runnable(b, j)
    ensures after == DoAll(b, moves)
    ensures after == b.(status := Running, jobs := b.jobs[j := b.jobs[j].(status := JobRunning)], workers := b.workers[w := Working(j)])
  {
    moves := [Looks(w, Fetch(j)), Table(Start(w)), Looks(w, ReadBatch), Row(WriteRunning(w))];
    RunFour(b, moves[0], moves[1], moves[2], moves[3]);
    after := DoAll(b, moves);
    var passed := Passed(j, b.status == Running);
    assert b.workers[w := Fetched(j)][w := Started(j)][w := passed][w := Working(j)] == b.workers[w := Working(j)];
  }

  lemma Finish(b: Batch, w: nat, j: nat, tally: Tally) returns (moves: seq<Move>, after: Batch)
    requires WorkerOf(b, w) == Some(Working(j)) && j < |b.jobs| && b.jobs[j].status != JobCancelled
    ensures after == DoAll(b, moves)
    ensures after == b.(status := BatchResult(tally), jobs := b.jobs[j := b.jobs[j].(status := JobResult(tally))], workers := b.workers[w := Gone])
  {
    moves := [Row(WriteFinal(w, tally)), Looks(w, ReadJob), Table(CloseJob(w))];
    RunThree(b, moves[0], moves[1], moves[2]);
    after := DoAll(b, moves);
    assert Do(Do(b, moves[0]), moves[1]).workers[w] == Closing(j, tally);
    assert b.workers[w := Wrote(j, tally)][w := Closing(j, tally)][w := Gone] == b.workers[w := Gone];
  }

  /** A worker that nothing disturbs: batch and job end as completed, partial or failed together, by
      how the items ended. */
  lemma WorkOutcome(b: Batch, w: nat, j: nat, tally: Tally) returns (moves: seq<Move>, after: Batch)
    requires w !in b.workers && Runnable(b, j)
    ensures after == DoAll(b, moves)
    ensures var (s, t) := match tally
        case AllDone => (Completed, JobCompleted)
        case SomeFailed => (Partial, JobPartial)
        case AllFailed => (Failed, JobFailed);
      after == b.(status := s, jobs := b.jobs[j := b.jobs[j].(status := t)], workers := b.workers[w := Gone])
  {
    var m1, c := Work(b, w, j);
    var m2;
    m2, after := Finish(c, w, j, tally);
    moves := Then(b, m1, c, m2);
    assert b.workers[w := Working(j)][w := Gone] == b.workers[w := Gone];
    var done := b.jobs[j].(status := JobResult(tally));
    assert b.jobs[j := b.jobs[j].(status := JobRunning)][j := done] == b.jobs[j := done];
  }

  /** A worker that starts a job of a batch that is a preview or has another version, or the rerun of
      another user, fails the job and leaves the batch as it is. */
  lemma RefusedWork(b: Batch, w: nat, j: nat) returns (moves: seq<Move>)
    requires w !in b.workers && j < |b.jobs| && b.jobs[j].status != JobCancelled
    requires b.status == Preview || b.jobs[j].version != b.version || !b.jobs[j].byOwner
    ensures DoAll(b, moves) == b.(jobs := b.jobs[j := b.jobs[j].(status := JobFailed)], workers := b.workers[w := Gone])
  {
    moves := [Looks(w, Fetch(j)), Table(Start(w)), Looks(w, ReadBatch), Table(Raise(w))];
    RunFour(b, moves[0], moves[1], moves[2], moves[3]);
    assert Do(Do(Do(b, moves[0]), moves[1]), moves[2]).workers[w] == Refused(j);
    assert b.workers[w := Fetched(j)][w := Started(j)][w := Refused(j)][w := Gone] == b.workers[w := Gone];
    var failed := b.jobs[j].(status := JobFailed);
    assert b.jobs[j := b.jobs[j].(status := JobRunning)][j := failed] == b.jobs[j := failed];
  }

  /** A job cancelled while its handler ran stays cancelled, and the worker ends. */
  lemma CancelledJobStays(b: Batch, w: nat, j: nat, tally: Tally)
    requires WorkerOf(b, w) == Some(Working(j)) && j < |b.jobs| && b.jobs[j].status == JobCancelled
    ensures var after := Do(Do(b, Row(WriteFinal(w, tally))), Looks(w, ReadJob));
            after.jobs == b.jobs && after.workers == b.workers[w := Gone] && Do(after, Table(CloseJob(w))) == after
  {
    assert b.workers[w := Wrote(j, tally)][w := Gone] == b.workers[w := Gone];
  }

  /** A reopening between a handler's read and its first commit is overwritten by that commit, unless
      the handler had read a running batch and so writes nothing. */
  lemma ReopenedBeforeRunning(b: Batch, w: nat, j: nat, r: nat, version: nat)
    requires WorkerOf(b, w) == Some(Started(j)) && Runnable(b, j) && FlightOf(b, r) == Some(ReopenChecked(version))
    ensures var after := Do(Do(Do(b, Looks(w, ReadBatch)), Row(UpdateReopen(r))), Row(WriteRunning(w)));
            after.version == version + 1 && after.status == if b.status == Running then Preview else Running
  {
  }

  lemma GoneStays(b: Batch, move: Move, w: nat)
    requires WorkerOf(b, w) == Some(Gone)
    ensures WorkerOf(Do(b, move), w) == Some(Gone)
  {
  }

  /** A worker that dies leaves the batch and its jobs as they are, and does nothing in any run after. */
  lemma {:induction false} DeadWorkersRest(b: Batch, w: nat, moves: seq<Move>)
    requires w in b.workers
    ensures var dead := Do(b, Looks(w, Die));
            dead == b.(workers := b.workers[w := Gone]) && WorkerOf(DoAll(dead, moves), w) == Some(Gone)
    decreases |moves|
  {
    var dead := Do(b, Looks(w, Die));
    if moves != [] {
      var next := Do(dead, moves[0]);
      GoneStays(dead, moves[0], w);
      DeadWorkersRest(next, w, moves[1..]);
      assert next.workers[w := Gone] == next.workers;
      assert Do(next, Looks(w, Die)) == next;
    }
  }

  /** Exactly the jobs that are queued or running can be cancelled, those that ended without success and
      have retries left queued again, and those that ended with some success rerun. */
  lemma JobActions(b: Batch, r: nat, j: nat, action: Action)
    requires r !in b.flights && j < |b.jobs|
    ensures var s := b.jobs[j].status;
      var allowed := match action
        case Cancelling => s in {JobQueued, JobRunning}
        case Retrying(retriesLeft) => retriesLeft && s in {JobFailed, JobPartial, JobCancelled}
        case Rerunning(_) => s in {JobCompleted, JobPartial};
      var after := Do(Do(b, Reads(r, CheckJob(j, action))), Table(ActOnJob(r)));
      && r in after.flights && after.flights[r] == Ended(if allowed then Acted else Conflict)
      && after.status == b.status && after.version == b.version && after.jobId == b.jobId && after.confirmations == b.confirmations
      && (!allowed ==> after.jobs == b.jobs)
      && (allowed && action.Cancelling? ==> after.jobs == b.jobs[j := b.jobs[j].(status := JobCancelled)])
      && (allowed && action.Retrying? ==> after.jobs == b.jobs[j := b.jobs[j].(status := JobQueued)])
      && (allowed && action.Rerunning? && (forall k :: 0 <= k < |b.jobs| ==> b.jobs[k].key != RerunKey(j)) ==>
            after.jobs == b.jobs + [Job(RerunKey(j), b.jobs[j].version, action.byOwner, JobQueued)])
  {
  }

  // ---------------------------------------------------------------- runs that break a condition

  /** The attached first job is cancelled and the batch reopened. */
  lemma Abandon(b: Batch) returns (moves: seq<Move>, after: Batch)
    requires 10 !in b.flights && 11 !in b.flights && b.jobId == Some(0) && |b.jobs| > 0
    requires b.jobs[0].status in {JobQueued, JobRunning}
    ensures after == DoAll(b, moves)
    ensures after == b.(status := Preview, version := b.version + 1, jobId := None,
                        jobs := b.jobs[0 := b.jobs[0].(status := JobCancelled)],
                        flights := b.flights[10 := Ended(Acted)][11 := Ended(Reopened)])
  {
    var m1, c := Cancel(b, 10, 0);
    var m2;
    m2, after := Reopen(c, 11);
    moves := Then(b, m1, c, m2);
  }

  /** The first version applied. */
  lemma FirstApplied() returns (moves: seq<Move>, after: Batch)
    ensures after == DoAll(NewBatch(), moves)
    ensures after == Batch(Queued, 1, Some(0), [Job(VersionKey(1), 1, true, JobQueued)], [1], map[0 := Ended(Answered(0))], map[])
  {
    moves, after := Apply(NewBatch(), 0);
  }

  /** A worker outlives the reopening of its batch and ends it as failed; the next apply takes that
      for a confirmed batch and enqueues a job for version 2, which nobody confirmed. */
  lemma HandlerEndsPreview() returns (moves: seq<Move>)
    ensures var b := DoAll(NewBatch(), moves); |b.jobs| == 2 && b.jobs[1].version == 2 && b.confirmations == [1]
  {
    var m1, b := FirstApplied();
    var m2, c := Work(b, 0, 0);
    var m3, d := Abandon(c);
    var m4 := [Row(WriteFinal(0, AllFailed))];
    RunOne(d, m4[0]);
    var e := Do(d, m4[0]);
    assert e == d.(status := Failed, workers := d.workers[0 := Wrote(0, AllFailed)]);
    var m5, f := Repeat(e, 3);
    moves := Then(NewBatch(), m1, b, m2);
    moves := Then(NewBatch(), moves, c, m3);
    moves := Then(NewBatch(), moves, d, m4);
    moves := Then(NewBatch(), moves, e, m5);
  }

  /** A reopening inside an apply: the apply reads its version again after the reopening and enqueues
      a job for version 2, which nobody confirmed. */
  lemma ReopenInsideApply() returns (moves: seq<Move>)
    ensures var b := DoAll(NewBatch(), moves); |b.jobs| == 2 && b.jobs[1].version == 2 && b.confirmations == [1]
  {
    var m1, b := ConfirmOnly(NewBatch(), 0);
    var m2, c := Repeat(b, 1);
    var m3, d := Abandon(c);
    var m4, e := EnqueueOnly(d, 0);
    moves := Then(NewBatch(), m1, b, m2);
    moves := Then(NewBatch(), moves, c, m3);
    moves := Then(NewBatch(), moves, d, m4);
  }

  /** Two requests have enqueued the one job of version 1, and one of them has attached it. */
  lemma EnqueuedTwice() returns (moves: seq<Move>, after: Batch)
    ensures after == DoAll(NewBatch(), moves)
    ensures after.status == Queued && after.version == 1 && after.jobId == Some(0)
    ensures after.jobs == [Job(VersionKey(1), 1, true, JobQueued)]
    ensures FlightOf(after, 0) == Some(Enqueued(0)) && 10 !in after.flights && 11 !in after.flights
  {
    var m1, b := ConfirmOnly(NewBatch(), 0);
    var m2, c := EnqueueOnly(b, 0);
    assert c.jobs == [Job(VersionKey(1), 1, true, JobQueued)] && c.version == 1;
    var m3;
    m3, after := Repeat(c, 1);
    moves := Then(NewBatch(), m1, b, m2);
    moves := Then(NewBatch(), moves, c, m3);
  }

  /** A reopening between the enqueue and the attach of an apply: the batch is a preview of version 2
      with the job of version 1 attached. */
  lemma AttachesEarlierJob() returns (moves: seq<Move>)
    ensures var b := DoAll(NewBatch(), moves);
      b.status == Preview && b.version == 2 && b.jobId == Some(0) && b.jobs != [] && b.jobs[0].version == 1
  {
    var m1, b := EnqueuedTwice();
    var m2, c := Abandon(b);
    var m3 := [Row(Attach(0))];
    RunOne(c, m3[0]);
    moves := Then(NewBatch(), m1, b, m2);
    moves := Then(NewBatch(), moves, c, m3);
  }

  /** Two reopenings that have both read version 1: the second takes the batch back to version 2
      after that was confirmed, and it is confirmed again. */
  lemma TwoReopensConfirmTwice() returns (moves: seq<Move>)
    ensures DoAll(NewBatch(), moves).confirmations == [1, 2, 2]
  {
    var m1, b := FirstApplied();
    var m2, c := Cancel(b, 10, 0);
    var m3 := [Reads(2, ReadForReopen), Reads(2, CheckForReopen)];
    RunTwo(c, m3[0], m3[1]);
    var d := DoAll(c, m3);
    assert d == c.(flights := c.flights[2 := ReopenRead(1, 0)][2 := ReopenChecked(1)]);
    var m4, e := Reopen(d, 11);
    var m5 := SecondReopenLands(e);
    moves := Then(NewBatch(), m1, b, m2);
    moves := Then(NewBatch(), moves, c, m3);
    moves := Then(NewBatch(), moves, d, m4);
    moves := Then(NewBatch(), moves, e, m5);
  }

  lemma SecondReopenLands(b: Batch) returns (moves: seq<Move>)
    requires b.status == Preview && b.version == 2 && b.confirmations == [1] && FlightOf(b, 2) == Some(ReopenChecked(1))
    requires 3 !in b.flights && 4 !in b.flights
    ensures DoAll(b, moves).confirmations == [1, 2, 2]
  {
    var m1, c := ConfirmOnly(b, 3);
    var m2 := [Row(UpdateReopen(2))];
    RunOne(c, m2[0]);
    var d := Do(c, m2[0]);
    var m3, e := ConfirmOnly(d, 4);
    moves := Then(b, m1, c, m2);
    moves := Then(b, moves, d, m3);
  }

  /** A finished import rerun: version 1 has two jobs. */
  lemma RerunGivesTwoJobs() returns (moves: seq<Move>)
    ensures var b := DoAll(NewBatch(), moves); !OneJobPerVersion(b) && b.confirmations == [1]
  {
    var m1, b := FirstApplied();
    var m2, c := Work(b, 0, 0);
    var m3, d := Finish(c, 0, 0, AllDone);
    assert d.jobs == [Job(VersionKey(1), 1, true, JobCompleted)];
    var m4, e := Rerun(d, 1, 0);
    assert e.jobs[0].version == e.jobs[1].version;
    moves := Then(NewBatch(), m1, b, m2);
    moves := Then(NewBatch(), moves, c, m3);
    moves := Then(NewBatch(), moves, d, m4);
  }
}
