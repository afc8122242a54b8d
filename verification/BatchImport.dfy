/**
 Confirming an import batch, backend/app/api/batch_imports.py, with the jobs that import it.
 Requests and workers are cut at every read and every commit. An apply request loads the batch,
 confirms a preview by compare-and-set, enqueues the import job under a key made of batch and
 version, and attaches the job; reopening reads batch and job and then updates without comparing;
 a worker checks the batch and writes its status twice. All of them overlap and may stop anywhere.
 One batch is modelled, so the key of its job is its version.
 */
module BatchImport {
  import opened Basics

  datatype BatchStatus = Preview | Queued | Running | Completed | Failed | Partial

  datatype JobStatus = JobQueued | JobRunning | JobCompleted | JobFailed | JobPartial | JobCancelled

  datatype JobKey = VersionKey(version: nat) | RerunKey(job: nat)

  /** version: the preview version in the job's payload. byOwner: created by the batch's creator. */
  datatype Job = Job(key: JobKey, version: nat, byOwner: bool, status: JobStatus)

  /** What the job endpoints do to one job. */
  datatype Action = Cancelling | Retrying(retriesLeft: bool) | Rerunning(byOwner: bool)

  datatype Outcome = Conflict | Answered(job: nat) | Reopened | Acted | Crashed

  /** What a request holds between two of its parts. */
  datatype Flight =
    | Loaded(version: nat, sawPreview: bool)
    | Confirmed
    | Keyed(version: nat)
    | Enqueued(job: nat)
    | ReopenRead(version: nat, job: nat)
    | ReopenChecked(version: nat)
    | JobChecked(job: nat, action: Action)
    | Ended(outcome: Outcome)

  /** How the items of one handler call ended. */
  datatype Tally = AllDone | SomeFailed | AllFailed

  /** What a worker holds between two of its parts. */
  datatype Worker =
    | Fetched(job: nat)
    | Started(job: nat)
    | Refused(job: nat)
    | Passed(job: nat, sawRunning: bool)
    | Working(job: nat)
    | Wrote(job: nat, tally: Tally)
    | Closing(job: nat, tally: Tally)
    | Gone

  /** confirmations: the versions confirmed so far, in order. */
  datatype Batch = Batch(
    status: BatchStatus, version: nat, jobId: Option<nat>,
    jobs: seq<Job>, confirmations: seq<nat>, flights: map<nat, Flight>, workers: map<nat, Worker>)

  /** A move reads, and then only what the reader holds changes; or it commits a write to the row
      of the batch; or it commits a write to the job table. */
  datatype Move =
    | Reads(request: nat, reading: Reading)
    | Looks(worker: nat, look: Look)
    | Row(row: RowWrite)
    | Table(table: TableWrite)

  datatype Reading =
    | Load(expected: nat)
    | Reread
    | ReadForReopen
    | CheckForReopen
    | CheckJob(job: nat, action: Action)
    | Crash

  datatype Look = Fetch(job: nat) | ReadBatch | ReadJob | Die

  datatype RowWrite =
    | Confirm(request: nat, previewUnchanged: bool)
    | Attach(request: nat)
    | UpdateReopen(request: nat)
    | Revise(expected: nat)
    | WriteRunning(worker: nat)
    | WriteFinal(worker: nat, tally: Tally)

  datatype TableWrite =
    | Enqueue(request: nat)
    | ActOnJob(request: nat)
    | Start(worker: nat)
    | CloseJob(worker: nat)
    | Raise(worker: nat)

  function NewBatch(): Batch {
    Batch(Preview, 1, None, [], [], map[], map[])
  }

  // ---------------------------------------------------------------- the job table

  /** Position of the job with this key. */
  function FindJob(jobs: seq<Job>, key: JobKey): (r: Option<nat>)
    ensures r.Some? ==> r.value < |jobs| && jobs[r.value].key == key
    ensures r.None? ==> forall j :: 0 <= j < |jobs| ==> jobs[j].key != key
  {
    if jobs == [] then None
    else if jobs[|jobs| - 1].key == key then Some(|jobs| - 1)
    else FindJob(jobs[..|jobs| - 1], key)
  }

  /** create_or_get_job behind the unique key. */
  function CreateOrGet(jobs: seq<Job>, key: JobKey, version: nat, byOwner: bool): (r: (seq<Job>, nat))
    ensures jobs <= r.0 && r.1 < |r.0| && r.0[r.1].key == key
  {
    var existing := FindJob(jobs, key);
    if existing.Some? then (jobs, existing.value)
    else (jobs + [Job(key, version, byOwner, JobQueued)], |jobs|)
  }

  predicate Retryable(s: JobStatus) {
    s == JobFailed || s == JobPartial || s == JobCancelled
  }

  predicate Allowed(action: Action, s: JobStatus) {
    match action
    case Cancelling => s == JobQueued || s == JobRunning
    case Retrying(retriesLeft) => Retryable(s) && retriesLeft
    case Rerunning(_) => s == JobCompleted || s == JobPartial
  }

  function BatchResult(t: Tally): BatchStatus {
    match t case AllDone => Completed case SomeFailed => Partial case AllFailed => Failed
  }

  function JobResult(t: Tally): JobStatus {
    match t case AllDone => JobCompleted case SomeFailed => JobPartial case AllFailed => JobFailed
  }

  // ---------------------------------------------------------------- reading

  function FlightOf(b: Batch, r: nat): Option<Flight> {
    if r in b.flights then Some(b.flights[r]) else None
  }

  function WorkerOf(b: Batch, w: nat): Option<Worker> {
    if w in b.workers then Some(b.workers[w]) else None
  }

  function JobStatusOf(b: Batch, j: nat): Option<JobStatus> {
    if j < |b.jobs| then Some(b.jobs[j].status) else None
  }

  /** What a request holds after it has read. Reopening reads the batch, and then the job; the
      commit of a confirmation expires the loaded row, so the version is read again. */
  function Answer(b: Batch, f: Option<Flight>, reading: Reading): Option<Flight> {
    match (reading, f)
    case (Load(expected), None) =>
      Some(if b.version != expected then Ended(Conflict) else Loaded(b.version, b.status == Preview))
    case (Reread, Some(Confirmed)) => Some(Keyed(b.version))
    case (ReadForReopen, None) =>
      Some(if b.jobId.None? then Ended(Conflict) else ReopenRead(b.version, b.jobId.value))
    case (CheckForReopen, Some(ReopenRead(version, j))) =>
      var s := JobStatusOf(b, j);
      Some(if s.Some? && Retryable(s.value) then ReopenChecked(version) else Ended(Conflict))
    case (CheckJob(j, action), None) =>
      var s := JobStatusOf(b, j);
      Some(if s.Some? && Allowed(action, s.value) then JobChecked(j, action) else Ended(Conflict))
    case (Crash, Some(flight)) => if flight.Ended? then None else Some(Ended(Crashed))
    case _ => None
  }

  /** What a worker holds after it has read. Its handler refuses a batch that is a preview or has
      another version, and a job of somebody else. */
  function Sees(b: Batch, w: Option<Worker>, look: Look): Option<Worker> {
    match (look, w)
    case (Fetch(j), None) =>
      var s := JobStatusOf(b, j);
      if s.None? || s.value == JobCancelled then None else Some(Fetched(j))
    case (ReadBatch, Some(Started(j))) =>
      if j >= |b.jobs| then None
      else if !b.jobs[j].byOwner || b.status == Preview || b.jobs[j].version != b.version then Some(Refused(j))
      else Some(Passed(j, b.status == Running))
    case (ReadJob, Some(Wrote(j, tally))) =>
      Some(if JobStatusOf(b, j) == Some(JobCancelled) then Gone else Closing(j, tally))
    case (Die, Some(_)) => Some(Gone)
    case _ => None
  }

  // ---------------------------------------------------------------- writing the row

  function SetFlight(b: Batch, r: nat, f: Flight): Batch {
    b.(flights := b.flights[r := f])
  }

  function SetWorker(b: Batch, w: nat, state: Worker): Batch {
    b.(workers := b.workers[w := state])
  }

  function DoConfirm(b: Batch, r: nat, previewUnchanged: bool): Batch {
    match FlightOf(b, r)
    case Some(Loaded(version, true)) =>
      if previewUnchanged && b.version == version && b.status == Preview
      then SetFlight(b, r, Confirmed).(status := Queued, confirmations := b.confirmations + [b.version])
      else SetFlight(b, r, Ended(Conflict))
    case _ => b
  }

  function DoAttach(b: Batch, r: nat): Batch {
    match FlightOf(b, r)
    case Some(Enqueued(j)) => SetFlight(b, r, Ended(Answered(j))).(jobId := Some(j))
    case _ => b
  }

  /** The update compares no version: it writes the successor of the one that was read. */
  function DoUpdateReopen(b: Batch, r: nat): Batch {
    match FlightOf(b, r)
    case Some(ReopenChecked(version)) =>
      SetFlight(b, r, Ended(Reopened)).(status := Preview, version := version + 1, jobId := None)
    case _ => b
  }

  function DoRevise(b: Batch, expected: nat): Batch {
    if b.version == expected && b.status == Preview then b.(version := b.version + 1) else b
  }

  /** The row is written only if its status changes from what was read. */
  function DoWriteRunning(b: Batch, w: nat): Batch {
    match WorkerOf(b, w)
    case Some(Passed(j, sawRunning)) =>
      SetWorker(b, w, Working(j)).(status := if sawRunning then b.status else Running)
    case _ => b
  }

  /** Whatever the batch is by then, the handler ends it. */
  function DoWriteFinal(b: Batch, w: nat, tally: Tally): Batch {
    match WorkerOf(b, w)
    case Some(Working(j)) => SetWorker(b, w, Wrote(j, tally)).(status := BatchResult(tally))
    case _ => b
  }

  function WriteRow(b: Batch, write: RowWrite): Batch {
    match write
    case Confirm(r, previewUnchanged) => DoConfirm(b, r, previewUnchanged)
    case Attach(r) => DoAttach(b, r)
    case UpdateReopen(r) => DoUpdateReopen(b, r)
    case Revise(expected) => DoRevise(b, expected)
    case WriteRunning(w) => DoWriteRunning(b, w)
    case WriteFinal(w, tally) => DoWriteFinal(b, w, tally)
  }

  // ---------------------------------------------------------------- writing the job table

  function SetJob(b: Batch, j: nat, s: JobStatus): Batch {
    if j < |b.jobs| then b.(jobs := b.jobs[j := b.jobs[j].(status := s)]) else b
  }

  /** The version a request goes on to enqueue: the one it read again after its confirmation, or
      the one of a batch that was no preview when it loaded it. */
  function Held(f: Option<Flight>): Option<nat> {
    match f
    case Some(Loaded(version, false)) => Some(version)
    case Some(Keyed(version)) => Some(version)
    case _ => None
  }

  function DoEnqueue(b: Batch, r: nat): Batch {
    match Held(FlightOf(b, r))
    case Some(version) =>
      var (jobs, j) := CreateOrGet(b.jobs, VersionKey(version), version, true);
      SetFlight(b, r, Enqueued(j)).(jobs := jobs)
    case None => b
  }

  /** A rerun enqueues a job of its own with the payload of the original. */
  function DoActOnJob(b: Batch, r: nat): Batch {
    match FlightOf(b, r)
    case Some(JobChecked(j, Cancelling)) => SetFlight(SetJob(b, j, JobCancelled), r, Ended(Acted))
    case Some(JobChecked(j, Retrying(_))) => SetFlight(SetJob(b, j, JobQueued), r, Ended(Acted))
    case Some(JobChecked(j, Rerunning(byOwner))) =>
      if j >= |b.jobs| then b else
      SetFlight(b, r, Ended(Acted)).(jobs := CreateOrGet(b.jobs, RerunKey(j), b.jobs[j].version, byOwner).0)
    case _ => b
  }

  function DoStart(b: Batch, w: nat): Batch {
    match WorkerOf(b, w)
    case Some(Fetched(j)) => SetWorker(SetJob(b, j, JobRunning), w, Started(j))
    case _ => b
  }

  function DoCloseJob(b: Batch, w: nat): Batch {
    match WorkerOf(b, w)
    case Some(Closing(j, tally)) => SetWorker(SetJob(b, j, JobResult(tally)), w, Gone)
    case _ => b
  }

  /** An exception of the handler fails the job and leaves the batch as it is. */
  function DoRaise(b: Batch, w: nat): Batch {
    match WorkerOf(b, w)
    case Some(state) =>
      if state.Fetched? || state.Closing? || state.Gone? then b
      else SetWorker(SetJob(b, state.job, JobFailed), w, Gone)
    case None => b
  }

  function WriteTable(b: Batch, write: TableWrite): Batch {
    match write
    case Enqueue(r) => DoEnqueue(b, r)
    case ActOnJob(r) => DoActOnJob(b, r)
    case Start(w) => DoStart(b, w)
    case CloseJob(w) => DoCloseJob(b, w)
    case Raise(w) => DoRaise(b, w)
  }

  // ---------------------------------------------------------------- runs

  function DoRead(b: Batch, r: nat, reading: Reading): Batch {
    match Answer(b, FlightOf(b, r), reading) case Some(f) => SetFlight(b, r, f) case None => b
  }

  function DoLook(b: Batch, w: nat, look: Look): Batch {
    match Sees(b, WorkerOf(b, w), look) case Some(state) => SetWorker(b, w, state) case None => b
  }

  function Do(b: Batch, move: Move): Batch {
    match move
    case Reads(r, reading) => DoRead(b, r, reading)
    case Looks(w, look) => DoLook(b, w, look)
    case Row(write) => WriteRow(b, write)
    case Table(write) => WriteTable(b, write)
  }

  function DoAll(b: Batch, moves: seq<Move>): Batch
    decreases |moves|
  {
    if moves == [] then b else DoAll(Do(b, moves[0]), moves[1..])
  }

  lemma {:induction false} DoAllAppend(b: Batch, first: seq<Move>, second: seq<Move>)
    ensures DoAll(b, first + second) == DoAll(DoAll(b, first), second)
    decreases |first|
  {
    if first == [] {
      assert first + second == second;
    } else {
      assert (first + second)[0] == first[0] && (first + second)[1..] == first[1..] + second;
      DoAllAppend(Do(b, first[0]), first[1..], second);
    }
  }

  // ---------------------------------------------------------------- the job table, in every run

  /** No two jobs have one key; a job's payload names the version of its key, or of the job it
      reruns, which is older. */
  ghost predicate WellKeyed(jobs: seq<Job>) {
    && (forall i, j :: 0 <= i < j < |jobs| ==> jobs[i].key != jobs[j].key)
    && (forall j :: 0 <= j < |jobs| ==>
          match jobs[j].key
          case VersionKey(v) => jobs[j].version == v
          case RerunKey(k) => k < j && jobs[j].version == jobs[k].version)
  }

  predicate FlightJobExists(f: Flight, n: nat) {
    match f
    case Enqueued(j) => j < n
    case ReopenRead(_, j) => j < n
    case JobChecked(j, _) => j < n
    case _ => true
  }

  ghost predicate JobsExist(b: Batch) {
    && (b.jobId.Some? ==> b.jobId.value < |b.jobs|)
    && (forall r | r in b.flights :: FlightJobExists(b.flights[r], |b.jobs|))
    && (forall w | w in b.workers :: b.workers[w].Gone? || b.workers[w].job < |b.jobs|)
  }

  ghost predicate Inv(b: Batch) {
    WellKeyed(b.jobs) && JobsExist(b)
  }

  /** Jobs are only added, and a job keeps its key and payload. */
  ghost predicate Extends(jobs: seq<Job>, next: seq<Job>) {
    |jobs| <= |next| && forall j :: 0 <= j < |jobs| ==> next[j] == jobs[j].(status := next[j].status)
  }

  lemma CreateKeepsKeys(jobs: seq<Job>, key: JobKey, version: nat, byOwner: bool)
    requires WellKeyed(jobs)
    requires key == VersionKey(version) || (key.RerunKey? && key.job < |jobs| && version == jobs[key.job].version)
    ensures var (next, j) := CreateOrGet(jobs, key, version, byOwner);
            WellKeyed(next) && Extends(jobs, next) && next[j].version == version
  {
  }

  lemma StatusKeepsKeys(b: Batch, j: nat, s: JobStatus)
    requires WellKeyed(b.jobs)
    ensures var next := SetJob(b, j, s); WellKeyed(next.jobs) && Extends(b.jobs, next.jobs)
  {
  }

  /** The job a request goes on to attach is that of the version it held. */
  lemma EnqueueKeepsInv(b: Batch, r: nat)
    requires Inv(b)
    ensures var next := DoEnqueue(b, r);
      && Inv(next) && Extends(b.jobs, next.jobs)
      && (Held(FlightOf(b, r)).Some? ==>
            next.flights[r].Enqueued? && next.jobs[next.flights[r].job].version == Held(FlightOf(b, r)).value)
  {
    match Held(FlightOf(b, r))
    case Some(version) => CreateKeepsKeys(b.jobs, VersionKey(version), version, true);
    case None =>
  }

  lemma ActKeepsInv(b: Batch, r: nat)
    requires Inv(b)
    ensures Inv(DoActOnJob(b, r)) && Extends(b.jobs, DoActOnJob(b, r).jobs)
  {
    match FlightOf(b, r)
    case Some(JobChecked(j, Cancelling)) => StatusKeepsKeys(b, j, JobCancelled);
    case Some(JobChecked(j, Retrying(_))) => StatusKeepsKeys(b, j, JobQueued);
    case Some(JobChecked(j, Rerunning(byOwner))) => CreateKeepsKeys(b.jobs, RerunKey(j), b.jobs[j].version, byOwner);
    case _ =>
  }

  /** A worker moves on with another status for its job. */
  lemma WorkerStepKeepsInv(b: Batch, w: nat, state: Worker, j: nat, s: JobStatus)
    requires Inv(b) && (state.Gone? || state.job < |b.jobs|)
    ensures var next := SetWorker(SetJob(b, j, s), w, state); Inv(next) && Extends(b.jobs, next.jobs)
  {
    StatusKeepsKeys(b, j, s);
  }

  lemma TableKeepsInv(b: Batch, write: TableWrite)
    requires Inv(b)
    ensures Inv(WriteTable(b, write)) && Extends(b.jobs, WriteTable(b, write).jobs)
  {
    match write
    case Enqueue(r) => EnqueueKeepsInv(b, r);
    case ActOnJob(r) => ActKeepsInv(b, r);
    case Start(w) =>
      if w in b.workers && b.workers[w].Fetched? {
        WorkerStepKeepsInv(b, w, Started(b.workers[w].job), b.workers[w].job, JobRunning);
      }
    case CloseJob(w) =>
      if w in b.workers && b.workers[w].Closing? {
        WorkerStepKeepsInv(b, w, Gone, b.workers[w].job, JobResult(b.workers[w].tally));
      }
    case Raise(w) =>
      if w in b.workers && !b.workers[w].Gone? {
        WorkerStepKeepsInv(b, w, Gone, b.workers[w].job, JobFailed);
      }
  }

  lemma RowKeepsInv(b: Batch, write: RowWrite)
    requires Inv(b)
    ensures Inv(WriteRow(b, write)) && WriteRow(b, write).jobs == b.jobs
  {
  }

  lemma DoKeepsInv(b: Batch, move: Move)
    requires Inv(b)
    ensures Inv(Do(b, move)) && Extends(b.jobs, Do(b, move).jobs)
  {
    match move
    case Reads(_, _) =>
    case Looks(_, _) =>
    case Row(write) => RowKeepsInv(b, write);
    case Table(write) => TableKeepsInv(b, write);
  }

  lemma {:induction false} RunKeepsInv(b: Batch, moves: seq<Move>)
    requires Inv(b)
    ensures Inv(DoAll(b, moves)) && Extends(b.jobs, DoAll(b, moves).jobs)
    decreases |moves|
  {
    if moves != [] {
      DoKeepsInv(b, moves[0]);
      RunKeepsInv(Do(b, moves[0]), moves[1..]);
    }
  }

  ghost predicate OneJobPerVersion(b: Batch) {
    forall i, j :: 0 <= i < j < |b.jobs| ==> b.jobs[i].version != b.jobs[j].version
  }

  ghost predicate NoReruns(b: Batch) {
    forall j :: 0 <= j < |b.jobs| ==> b.jobs[j].key.VersionKey?
  }

  /** The job enqueued for the version of job i. */
  lemma {:induction false} FirstOfVersion(jobs: seq<Job>, i: nat) returns (k: nat)
    requires WellKeyed(jobs) && i < |jobs|
    ensures k <= i && jobs[k].key == VersionKey(jobs[i].version)
    decreases i
  {
    match jobs[i].key
    case VersionKey(_) => k := i;
    case RerunKey(original) => k := FirstOfVersion(jobs, original);
  }

  lemma SameVersionMeansRerun(jobs: seq<Job>, i: nat, j: nat)
    requires WellKeyed(jobs) && i < j < |jobs| && jobs[i].version == jobs[j].version
    ensures jobs[j].key.RerunKey?
  {
    var k := FirstOfVersion(jobs, i);
    assert jobs[k].key != jobs[j].key;
  }

  /** In every interleaving, crash and reopening no two jobs have one key, so a version has at most
      one job enqueued for it and a job at most one rerun; and no version has two jobs exactly if
      nothing was rerun. */
  lemma OneJobUnlessRerun(moves: seq<Move>)
    ensures var b := DoAll(NewBatch(), moves); Inv(b) && (OneJobPerVersion(b) <==> NoReruns(b))
  {
    RunKeepsInv(NewBatch(), moves);
    var b := DoAll(NewBatch(), moves);
    forall i, j | 0 <= i < j < |b.jobs| && b.jobs[i].version == b.jobs[j].version ensures b.jobs[j].key.RerunKey? {
      SameVersionMeansRerun(b.jobs, i, j);
    }
    if !NoReruns(b) {
      var j :| 0 <= j < |b.jobs| && !b.jobs[j].key.VersionKey?;
      assert b.jobs[b.jobs[j].key.job].version == b.jobs[j].version;
    }
  }

  // ---------------------------------------------------------------- recovery

  /** Applying again a confirmed version, whatever became of earlier requests, ends with its one
      job attached: a new one if the version had none, the existing one otherwise. */
  lemma ApplyRecovers(b: Batch, r: nat)
    requires Inv(b) && b.status != Preview && r !in b.flights
    ensures var after := DoAttach(DoEnqueue(DoRead(b, r, Load(b.version)), r), r);
      && after.status == b.status && after.version == b.version && after.confirmations == b.confirmations
      && after.jobId.Some? && after.jobId.value < |after.jobs| && after.jobs[after.jobId.value].key == VersionKey(b.version)
      && after.jobs == (if FindJob(b.jobs, VersionKey(b.version)).Some? then b.jobs
                        else b.jobs + [Job(VersionKey(b.version), b.version, true, JobQueued)])
      && after.flights[r] == Ended(Answered(after.jobId.value))
  {
  }
}
