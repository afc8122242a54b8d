/** Exactly when a batch, its jobs and the job it shows stay those of a confirmed version. */
module BatchImportExact {
  import opened Basics
  import opened BatchImport
  import opened BatchImportVersions

  ghost predicate ConfirmedJobs(b: Batch) {
    forall j :: 0 <= j < |b.jobs| ==> b.jobs[j].version in b.confirmations
  }

  // ---------------------------------------------------------------- what a job is enqueued for

  /** A request enqueues a version nobody has confirmed. */
  ghost predicate EnqueuesUnconfirmed(b: Batch, move: Move) {
    match move
    case Table(Enqueue(r)) => (match Held(FlightOf(b, r)) case Some(version) => version !in b.confirmations case None => false)
    case _ => false
  }

  ghost predicate NeverEnqueuesUnconfirmed(b: Batch, moves: seq<Move>)
    decreases |moves|
  {
    moves == [] || (!EnqueuesUnconfirmed(b, moves[0]) && NeverEnqueuesUnconfirmed(Do(b, moves[0]), moves[1..]))
  }

  ghost predicate AlwaysConfirmedJobs(b: Batch, moves: seq<Move>)
    decreases |moves|
  {
    ConfirmedJobs(b) && (moves == [] || AlwaysConfirmedJobs(Do(b, moves[0]), moves[1..]))
  }

  lemma EnqueueAndJobs(b: Batch, r: nat)
    requires Inv(b) && ConfirmedJobs(b)
    ensures ConfirmedJobs(DoEnqueue(b, r)) <==> !EnqueuesUnconfirmed(b, Table(Enqueue(r)))
  {
    EnqueueKeepsInv(b, r);
  }

  lemma TableAndJobs(b: Batch, write: TableWrite)
    requires Inv(b) && ConfirmedJobs(b)
    ensures ConfirmedJobs(WriteTable(b, write)) <==> !EnqueuesUnconfirmed(b, Table(write))
  {
    match write
    case Enqueue(r) => EnqueueAndJobs(b, r);
    case ActOnJob(r) => ActKeepsInv(b, r);
    case _ =>
  }

  lemma MoveAndJobs(b: Batch, move: Move)
    requires Inv(b) && ConfirmedJobs(b)
    ensures ConfirmedJobs(Do(b, move)) <==> !EnqueuesUnconfirmed(b, move)
  {
    match move
    case Row(write) => RowKeepsInv(b, write);
    case Table(write) => TableAndJobs(b, write);
    case _ =>
  }

  lemma {:induction false} RunAndJobs(b: Batch, moves: seq<Move>)
    requires Inv(b) && ConfirmedJobs(b)
    ensures AlwaysConfirmedJobs(b, moves) <==> NeverEnqueuesUnconfirmed(b, moves)
    decreases |moves|
  {
    if moves != [] {
      DoKeepsInv(b, moves[0]);
      MoveAndJobs(b, moves[0]);
      if !EnqueuesUnconfirmed(b, moves[0]) {
        RunAndJobs(Do(b, moves[0]), moves[1..]);
      }
    }
  }

  /** Along any run jobs, reruns included, exist for confirmed versions only, exactly as long as no
      request enqueues an unconfirmed one. */
  lemma JobsAreConfirmedExactly(moves: seq<Move>)
    ensures AlwaysConfirmedJobs(NewBatch(), moves) <==> NeverEnqueuesUnconfirmed(NewBatch(), moves)
  {
    RunAndJobs(NewBatch(), moves);
  }

  // ---------------------------------------------------------------- how that comes about

  ghost predicate UnconfirmedPreview(b: Batch) {
    b.status == Preview && b.version !in b.confirmations
  }

  /** A batch that is no preview is confirmed, and so is every version a request holds and every
      job. */
  ghost predicate AllConfirmed(b: Batch) {
    && (b.status != Preview ==> b.version in b.confirmations)
    && (forall r | r in b.flights :: HoldsConfirmed(b.flights[r], b.confirmations))
    && ConfirmedJobs(b)
  }

  ghost predicate HoldsConfirmed(f: Flight, confirmations: seq<nat>) {
    match Held(Some(f)) case Some(version) => version in confirmations case None => true
  }

  /** A handler writes its status onto a batch that is an unconfirmed preview again. */
  ghost predicate WritesOntoPreview(b: Batch, move: Move) {
    UnconfirmedPreview(b) &&
    match move
    case Row(WriteRunning(w)) => (match WorkerOf(b, w) case Some(Passed(_, sawRunning)) => !sawRunning case _ => false)
    case Row(WriteFinal(w, _)) => (match WorkerOf(b, w) case Some(Working(_)) => true case _ => false)
    case _ => false
  }

  /** A request that has confirmed reads the version of a batch that is an unconfirmed preview again. */
  ghost predicate RereadsPreview(b: Batch, move: Move) {
    UnconfirmedPreview(b) &&
    match move
    case Reads(r, Reread) => FlightOf(b, r) == Some(Confirmed)
    case _ => false
  }

  ghost predicate NeverMistakesPreview(b: Batch, moves: seq<Move>)
    decreases |moves|
  {
    moves == [] ||
    (!WritesOntoPreview(b, moves[0]) && !RereadsPreview(b, moves[0]) && NeverMistakesPreview(Do(b, moves[0]), moves[1..]))
  }

  ghost predicate AlwaysAllConfirmed(b: Batch, moves: seq<Move>)
    decreases |moves|
  {
    AllConfirmed(b) && (moves == [] || AlwaysAllConfirmed(Do(b, moves[0]), moves[1..]))
  }

  lemma RowAndConfirmed(b: Batch, write: RowWrite)
    requires AllConfirmed(b)
    ensures AllConfirmed(WriteRow(b, write)) <==> !WritesOntoPreview(b, Row(write))
  {
  }

  lemma ReadAndConfirmed(b: Batch, r: nat, reading: Reading)
    requires AllConfirmed(b)
    ensures AllConfirmed(DoRead(b, r, reading)) <==> !RereadsPreview(b, Reads(r, reading))
  {
    var f := Answer(b, FlightOf(b, r), reading);
    if f.Some? {
      assert DoRead(b, r, reading).flights[r] == f.value;
    }
  }

  lemma TableAndConfirmed(b: Batch, write: TableWrite)
    requires Inv(b) && AllConfirmed(b)
    ensures AllConfirmed(WriteTable(b, write))
  {
    TableKeepsRow(b, write);
    TableAndJobs(b, write);
  }

  lemma MoveAndConfirmed(b: Batch, move: Move)
    requires Inv(b) && AllConfirmed(b)
    ensures AllConfirmed(Do(b, move)) <==> !WritesOntoPreview(b, move) && !RereadsPreview(b, move)
  {
    match move
    case Reads(r, reading) => ReadAndConfirmed(b, r, reading);
    case Looks(_, _) =>
    case Row(write) => RowAndConfirmed(b, write);
    case Table(write) => TableAndConfirmed(b, write);
  }

  lemma {:induction false} RunAndConfirmed(b: Batch, moves: seq<Move>)
    requires Inv(b) && AllConfirmed(b)
    ensures AlwaysAllConfirmed(b, moves) <==> NeverMistakesPreview(b, moves)
    ensures AlwaysAllConfirmed(b, moves) ==> AlwaysConfirmedJobs(b, moves)
    decreases |moves|
  {
    if moves != [] {
      DoKeepsInv(b, moves[0]);
      MoveAndConfirmed(b, moves[0]);
      if !WritesOntoPreview(b, moves[0]) && !RereadsPreview(b, moves[0]) {
        RunAndConfirmed(Do(b, moves[0]), moves[1..]);
      }
    }
  }

  /** Along any run the batch, unless it is a preview, every version a request goes on to enqueue and
      every job are confirmed, exactly as long as no handler writes onto an unconfirmed preview and
      no request reads its version again from one. */
  lemma AllIsConfirmedExactly(moves: seq<Move>)
    ensures AlwaysAllConfirmed(NewBatch(), moves) <==> NeverMistakesPreview(NewBatch(), moves)
    ensures NeverMistakesPreview(NewBatch(), moves) ==> AlwaysConfirmedJobs(NewBatch(), moves)
  {
    RunAndConfirmed(NewBatch(), moves);
  }

  // ---------------------------------------------------------------- the attached job

  /** The attached job is one of the current version, and the batch is no preview. */
  ghost predicate AttachedIsCurrent(b: Batch) {
    b.jobId.Some? ==> b.jobId.value < |b.jobs| && b.jobs[b.jobId.value].version == b.version && b.status != Preview
  }

  /** A request attaches its job after the batch moved on. */
  ghost predicate AttachesStale(b: Batch, move: Move) {
    match move
    case Row(Attach(r)) =>
      (match FlightOf(b, r)
       case Some(Enqueued(j)) => j < |b.jobs| && (b.jobs[j].version != b.version || b.status == Preview)
       case _ => false)
    case _ => false
  }

  ghost predicate NeverAttachesStale(b: Batch, moves: seq<Move>)
    decreases |moves|
  {
    moves == [] || (!AttachesStale(b, moves[0]) && NeverAttachesStale(Do(b, moves[0]), moves[1..]))
  }

  ghost predicate AlwaysAttachedIsCurrent(b: Batch, moves: seq<Move>)
    decreases |moves|
  {
    AttachedIsCurrent(b) && (moves == [] || AlwaysAttachedIsCurrent(Do(b, moves[0]), moves[1..]))
  }

  lemma MoveAndAttached(b: Batch, move: Move)
    requires Inv(b) && AttachedIsCurrent(b)
    ensures AttachedIsCurrent(Do(b, move)) <==> !AttachesStale(b, move)
  {
    DoKeepsInv(b, move);
    if move.Table? {
      TableKeepsRow(b, move.table);
    }
  }

  lemma {:induction false} RunAndAttached(b: Batch, moves: seq<Move>)
    requires Inv(b) && AttachedIsCurrent(b)
    ensures AlwaysAttachedIsCurrent(b, moves) <==> NeverAttachesStale(b, moves)
    decreases |moves|
  {
    if moves != [] {
      DoKeepsInv(b, moves[0]);
      MoveAndAttached(b, moves[0]);
      if !AttachesStale(b, moves[0]) {
        RunAndAttached(Do(b, moves[0]), moves[1..]);
      }
    }
  }

  /** Along any run the attached job is one of the current version, exactly as long as no request
      attaches a job after the batch moved on. */
  lemma AttachedIsCurrentExactly(moves: seq<Move>)
    ensures AlwaysAttachedIsCurrent(NewBatch(), moves) <==> NeverAttachesStale(NewBatch(), moves)
  {
    RunAndAttached(NewBatch(), moves);
  }

  /** A request that holds version v for its job, or has its job for v, or has ended. */
  predicate Carries(f: Flight, jobs: seq<Job>, v: nat) {
    match f
    case Enqueued(j) => j < |jobs| && jobs[j].version == v
    case Ended(_) => true
    case _ => Held(Some(f)) == Some(v)
  }

  lemma ReadKeepsCarried(b: Batch, r: nat, q: nat, reading: Reading, v: nat)
    requires r in b.flights && Carries(b.flights[r], b.jobs, v)
    ensures var next := DoRead(b, q, reading); r in next.flights && Carries(next.flights[r], next.jobs, v)
  {
  }

  lemma RowKeepsCarried(b: Batch, r: nat, write: RowWrite, v: nat)
    requires r in b.flights && Carries(b.flights[r], b.jobs, v)
    ensures var next := WriteRow(b, write); r in next.flights && Carries(next.flights[r], next.jobs, v)
  {
  }

  lemma EnqueueKeepsCarried(b: Batch, r: nat, q: nat, v: nat)
    requires Inv(b) && r in b.flights && Carries(b.flights[r], b.jobs, v)
    ensures var next := DoEnqueue(b, q); r in next.flights && Carries(next.flights[r], next.jobs, v)
  {
    EnqueueKeepsInv(b, q);
  }

  lemma TableKeepsCarried(b: Batch, r: nat, write: TableWrite, v: nat)
    requires Inv(b) && r in b.flights && Carries(b.flights[r], b.jobs, v)
    ensures var next := WriteTable(b, write); r in next.flights && Carries(next.flights[r], next.jobs, v)
  {
    if write.Enqueue? {
      EnqueueKeepsCarried(b, r, write.request, v);
    } else {
      TableKeepsInv(b, write);
    }
  }

  lemma {:induction false} RunKeepsCarried(b: Batch, moves: seq<Move>, r: nat, v: nat)
    requires Inv(b) && r in b.flights && Carries(b.flights[r], b.jobs, v)
    ensures var after := DoAll(b, moves); r in after.flights && Carries(after.flights[r], after.jobs, v)
    decreases |moves|
  {
    if moves != [] {
      match moves[0] {
        case Reads(q, reading) => ReadKeepsCarried(b, r, q, reading, v);
        case Looks(_, _) =>
        case Row(write) => RowKeepsCarried(b, r, write, v);
        case Table(write) => TableKeepsCarried(b, r, write, v);
      }
      DoKeepsInv(b, moves[0]);
      RunKeepsCarried(Do(b, moves[0]), moves[1..], r, v);
    }
  }

  lemma {:induction false} NoPreviewUnlessMovedOn(b: Batch, moves: seq<Move>)
    requires b.status != Preview && TimesMovedOn(b, moves) == 0
    ensures DoAll(b, moves).status != Preview
    decreases |moves|
  {
    if moves != [] {
      if moves[0].Table? {
        TableKeepsRow(b, moves[0].table);
      }
      NoPreviewUnlessMovedOn(Do(b, moves[0]), moves[1..]);
    }
  }

  /** A request has read the version of a batch that was no preview. When it comes to attach its job
      after any moves, that job is stale exactly if a revision or reopening took effect in between;
      unless the update of a reopening was itself stale. */
  lemma StaleMeansMovedOn(b: Batch, moves: seq<Move>, r: nat)
    requires Inv(b) && NobodyAhead(b) && NeverStale(b, moves)
    requires Held(FlightOf(b, r)) == Some(b.version) && b.status != Preview
    ensures var after := DoAll(b, moves);
      && r in after.flights
      && (after.flights[r].Enqueued? ==> (AttachesStale(after, Row(Attach(r))) <==> TimesMovedOn(b, moves) > 0))
  {
    RunAndVersion(b, moves);
    RunKeepsCarried(b, moves, r, b.version);
    if TimesMovedOn(b, moves) == 0 {
      NoPreviewUnlessMovedOn(b, moves);
    }
  }

  // ---------------------------------------------------------------- reopening at rest

  /** Between its read and its last write a request that applies or reopens. */
  predicate BusyFlight(f: Flight) {
    match f
    case Loaded(_, sawPreview) => !sawPreview
    case JobChecked(_, _) => false
    case Ended(_) => false
    case _ => true
  }

  predicate BusyWorker(w: Worker) {
    w.Passed? || w.Working?
  }

  /** A reopening takes effect while another request or a handler is under way. */
  ghost predicate Disturbs(b: Batch, move: Move) {
    match move
    case Row(UpdateReopen(r)) =>
      MovesOn(b, move) &&
      ((exists q :: q in b.flights && q != r && BusyFlight(b.flights[q])) || (exists w :: w in b.workers && BusyWorker(b.workers[w])))
    case _ => false
  }

  ghost predicate NeverDisturbs(b: Batch, moves: seq<Move>)
    decreases |moves|
  {
    moves == [] || (!Disturbs(b, moves[0]) && NeverDisturbs(Do(b, moves[0]), moves[1..]))
  }

  /** What a busy request holds is still so. */
  predicate Holds(f: Flight, b: Batch) {
    && (BusyFlight(f) ==> b.status != Preview)
    && match f
       case Loaded(version, sawPreview) => sawPreview || version == b.version
       case Keyed(version) => version == b.version
       case Enqueued(j) => j < |b.jobs| && b.jobs[j].version == b.version
       case ReopenRead(version, _) => version == b.version
       case ReopenChecked(version) => version == b.version
       case _ => true
  }

  ghost predicate Calm(b: Batch) {
    && AttachedIsCurrent(b)
    && (forall r | r in b.flights :: Holds(b.flights[r], b))
    && (forall w | w in b.workers :: BusyWorker(b.workers[w]) ==> b.status != Preview)
  }

  lemma RowKeepsCalm(b: Batch, write: RowWrite)
    requires Calm(b) && !Disturbs(b, Row(write))
    ensures Calm(WriteRow(b, write))
  {
  }

  /** The row is as it was, jobs keep their versions, and who has moved is no longer busy. */
  lemma SameRowKeepsCalm(b: Batch, next: Batch)
    requires Calm(b) && Extends(b.jobs, next.jobs)
    requires next.status == b.status && next.version == b.version && next.jobId == b.jobId
    requires forall r | r in next.flights :: (r in b.flights && next.flights[r] == b.flights[r]) || next.flights[r].Ended?
    requires forall w | w in next.workers :: (w in b.workers && next.workers[w] == b.workers[w]) || !BusyWorker(next.workers[w])
    ensures Calm(next)
  {
  }

  lemma EnqueueKeepsCalm(b: Batch, r: nat)
    requires Inv(b) && Calm(b)
    ensures Calm(DoEnqueue(b, r))
  {
    EnqueueKeepsInv(b, r);
  }

  lemma TableKeepsCalm(b: Batch, write: TableWrite)
    requires Inv(b) && Calm(b)
    ensures Calm(WriteTable(b, write))
  {
    if write.Enqueue? {
      EnqueueKeepsCalm(b, write.request);
    } else {
      TableKeepsRow(b, write);
      TableKeepsInv(b, write);
      SameRowKeepsCalm(b, WriteTable(b, write));
    }
  }

  lemma MoveKeepsCalm(b: Batch, move: Move)
    requires Inv(b) && Calm(b) && !Disturbs(b, move)
    ensures Calm(Do(b, move))
    ensures !Stale(b, move) && !WritesOntoPreview(b, move) && !RereadsPreview(b, move) && !AttachesStale(b, move)
  {
    match move
    case Reads(_, _) =>
    case Looks(_, _) =>
    case Row(write) => RowKeepsCalm(b, write);
    case Table(write) => TableKeepsCalm(b, write);
  }

  lemma {:induction false} RunKeepsCalm(b: Batch, moves: seq<Move>)
    requires Inv(b) && Calm(b) && NeverDisturbs(b, moves)
    ensures NeverStale(b, moves) && NeverMistakesPreview(b, moves) && NeverAttachesStale(b, moves)
    decreases |moves|
  {
    if moves != [] {
      DoKeepsInv(b, moves[0]);
      MoveKeepsCalm(b, moves[0]);
      RunKeepsCalm(Do(b, moves[0]), moves[1..]);
    }
  }

  /** If no reopening takes effect while another apply or reopening or a handler is under way, all of
      this holds along the run: versions grow, none is confirmed twice, the batch unless a preview
      and all jobs are confirmed, and the attached job is one of the current version. */
  lemma ReopeningAtRest(moves: seq<Move>)
    requires NeverDisturbs(NewBatch(), moves)
    ensures AlwaysGrows(NewBatch(), moves) && Distinct(DoAll(NewBatch(), moves).confirmations)
    ensures AlwaysAllConfirmed(NewBatch(), moves) && AlwaysAttachedIsCurrent(NewBatch(), moves)
  {
    RunKeepsCalm(NewBatch(), moves);
    VersionsGrowExactly(moves);
    ConfirmedOnce(moves);
    AllIsConfirmedExactly(moves);
    AttachedIsCurrentExactly(moves);
  }
}
