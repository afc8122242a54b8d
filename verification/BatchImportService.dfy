/** The batch endpoints, the job endpoints and the import handler as code over one batch row, the
    job table and what the requests and workers hold between their parts. */
module BatchImportService {
  import opened Basics
  import opened BatchImport
  import opened BatchImportVersions
  import opened BatchImportRuns

  class ImportBatch {
    var status: BatchStatus
    var version: nat
    var jobId: Option<nat>
    var jobs: seq<Job>
    var confirmations: seq<nat>
    var flights: map<nat, Flight>
    var workers: map<nat, Worker>

    ghost function View(): Batch
      reads this
    {
      Batch(status, version, jobId, jobs, confirmations, flights, workers)
    }

    ghost predicate Valid()
      reads this
    {
      Inv(View())
    }

    constructor ()
      ensures View() == NewBatch() && Valid()
    {
      status, version, jobId, jobs, confirmations, flights, workers := Preview, 1, None, [], [], map[], map[];
    }

    // -------------------------------------------------------------- applying

    method LoadForApply(r: nat, expected: nat)
      requires Valid()
      modifies this
      ensures Valid() && View() == Do(old(View()), Reads(r, Load(expected)))
      ensures r !in old(flights) ==> r in flights && (flights[r] == Ended(Conflict) <==> version != expected)
    {
      if r !in flights {
        LoadOutcome(View(), r, expected);
      }
      DoKeepsInv(View(), Reads(r, Load(expected)));
      if r in flights {
        return;
      }
      if version != expected {
        flights := flights[r := Ended(Conflict)];
      } else {
        flights := flights[r := Loaded(version, status == Preview)];
      }
    }

    /** The conditional update; a row count other than one is a conflict. */
    method ConfirmPreview(r: nat, previewUnchanged: bool)
      requires Valid()
      modifies this
      ensures Valid() && View() == Do(old(View()), Row(Confirm(r, previewUnchanged)))
      ensures forall v :: FlightOf(old(View()), r) == Some(Loaded(v, true)) ==>
        confirmations == if previewUnchanged && old(status) == Preview && version == v then old(confirmations) + [v] else old(confirmations)
    {
      if r in flights && flights[r].Loaded? && flights[r].sawPreview {
        ConfirmOutcome(View(), r, flights[r].version, previewUnchanged);
      }
      DoKeepsInv(View(), Row(Confirm(r, previewUnchanged)));
      if r !in flights || !flights[r].Loaded? || !flights[r].sawPreview {
        return;
      }
      if previewUnchanged && version == flights[r].version && status == Preview {
        status := Queued;
        confirmations := confirmations + [version];
        flights := flights[r := Confirmed];
      } else {
        flights := flights[r := Ended(Conflict)];
      }
    }

    /** The first use of the row after the confirmation was committed. */
    method ReloadVersion(r: nat)
      requires Valid()
      modifies this
      ensures Valid() && View() == Do(old(View()), Reads(r, Reread))
    {
      DoKeepsInv(View(), Reads(r, Reread));
      if r in flights && flights[r].Confirmed? {
        flights := flights[r := Keyed(version)];
      }
    }

    method GetOrCreate(key: JobKey, version: nat, byOwner: bool) returns (j: nat)
      modifies this`jobs
      ensures (jobs, j) == CreateOrGet(old(jobs), key, version, byOwner)
    {
      var existing := FindJob(jobs, key);
      if existing.Some? {
        return existing.value;
      }
      j := |jobs|;
      jobs := jobs + [Job(key, version, byOwner, JobQueued)];
    }

    method EnqueueJob(r: nat)
      requires Valid()
      modifies this
      ensures Valid() && View() == Do(old(View()), Table(Enqueue(r)))
    {
      DoKeepsInv(View(), Table(Enqueue(r)));
      if r in flights && ((flights[r].Loaded? && !flights[r].sawPreview) || flights[r].Keyed?) {
        var j := GetOrCreate(VersionKey(flights[r].version), flights[r].version, true);
        flights := flights[r := Enqueued(j)];
      }
    }

    method AttachJob(r: nat)
      requires Valid()
      modifies this
      ensures Valid() && View() == Do(old(View()), Row(Attach(r)))
    {
      DoKeepsInv(View(), Row(Attach(r)));
      if r in flights && flights[r].Enqueued? {
        jobId := Some(flights[r].job);
        flights := flights[r := Ended(Answered(flights[r].job))];
      }
    }

    // -------------------------------------------------------------- revising and reopening

    /** The conditional update of the preview's options. */
    method SaveOptions(expected: nat) returns (ok: bool)
      requires Valid()
      modifies this
      ensures Valid() && View() == Do(old(View()), Row(Revise(expected)))
      ensures ok <==> MovesOn(old(View()), Row(Revise(expected)))
    {
      DoKeepsInv(View(), Row(Revise(expected)));
      ok := version == expected && status == Preview;
      if ok {
        version := version + 1;
      }
    }

    method ReadBatchForReopen(r: nat)
      requires Valid()
      modifies this
      ensures Valid() && View() == Do(old(View()), Reads(r, ReadForReopen))
    {
      DoKeepsInv(View(), Reads(r, ReadForReopen));
      if r !in flights {
        flights := flights[r := if jobId.None? then Ended(Conflict) else ReopenRead(version, jobId.value)];
      }
    }

    method CheckJobForReopen(r: nat)
      requires Valid()
      modifies this
      ensures Valid() && View() == Do(old(View()), Reads(r, CheckForReopen))
    {
      DoKeepsInv(View(), Reads(r, CheckForReopen));
      if r in flights && flights[r].ReopenRead? {
        var (v, j) := (flights[r].version, flights[r].job);
        assert FlightJobExists(flights[r], |jobs|);
        flights := flights[r := if Retryable(jobs[j].status) then ReopenChecked(v) else Ended(Conflict)];
      }
    }

    /** The update has no condition on version or status. */
    method UpdateForReopen(r: nat)
      requires Valid()
      modifies this
      ensures Valid() && View() == Do(old(View()), Row(UpdateReopen(r)))
      ensures NobodyAhead(old(View())) && MovesOn(old(View()), Row(UpdateReopen(r))) ==>
        (version > old(version) <==> !Stale(old(View()), Row(UpdateReopen(r))))
    {
      DoKeepsInv(View(), Row(UpdateReopen(r)));
      if r in flights && flights[r].ReopenChecked? {
        status, version, jobId := Preview, flights[r].version + 1, None;
        flights := flights[r := Ended(Reopened)];
      }
    }

    /** A reopening that nothing interrupts. */
    method ReopenBatch(r: nat) returns (ok: bool)
      requires Valid() && r !in flights
      modifies this
      ensures Valid()
      ensures ok <==> old(jobId).Some? && old(jobs)[old(jobId).value].status in {JobFailed, JobPartial, JobCancelled}
      ensures View() == if ok then old(View()).(status := Preview, version := old(version) + 1, jobId := None,
                                                flights := old(flights)[r := Ended(Reopened)])
                        else old(View()).(flights := old(flights)[r := Ended(Conflict)])
    {
      ReopenOutcome(View(), r);
      ReadBatchForReopen(r);
      CheckJobForReopen(r);
      UpdateForReopen(r);
      ok := flights[r] == Ended(Reopened);
    }

    // -------------------------------------------------------------- the job endpoints

    method CheckJobStatus(r: nat, j: nat, action: Action)
      requires Valid()
      modifies this
      ensures Valid() && View() == Do(old(View()), Reads(r, CheckJob(j, action)))
    {
      DoKeepsInv(View(), Reads(r, CheckJob(j, action)));
      if r !in flights {
        flights := flights[r := if j < |jobs| && Allowed(action, jobs[j].status) then JobChecked(j, action) else Ended(Conflict)];
      }
    }

    method WriteJobStatus(j: nat, s: JobStatus)
      modifies this`jobs
      ensures View() == SetJob(old(View()), j, s)
    {
      if j < |jobs| {
        jobs := jobs[j := jobs[j].(status := s)];
      }
    }

    method ChangeJob(r: nat)
      requires Valid()
      modifies this
      ensures Valid() && View() == Do(old(View()), Table(ActOnJob(r)))
    {
      DoKeepsInv(View(), Table(ActOnJob(r)));
      if r !in flights || !flights[r].JobChecked? {
        return;
      }
      var j := flights[r].job;
      assert FlightJobExists(flights[r], |jobs|);
      match flights[r].action {
        case Cancelling => WriteJobStatus(j, JobCancelled);
        case Retrying(_) => WriteJobStatus(j, JobQueued);
        case Rerunning(byOwner) =>
          var rerun := GetOrCreate(RerunKey(j), jobs[j].version, byOwner);
      }
      flights := flights[r := Ended(Acted)];
    }

    /** The queue refuses a job that is not over or has no retries left. */
    method RetryImport(r: nat, retriesLeft: bool) returns (ok: bool)
      requires Valid() && r !in flights
      modifies this
      ensures Valid()
      ensures ok <==> old(jobId).Some? && old(jobs)[old(jobId).value].status in {JobFailed, JobPartial, JobCancelled} && retriesLeft
      ensures status == old(status) && version == old(version) && jobId == old(jobId) && confirmations == old(confirmations)
      ensures jobs == if ok then old(jobs)[old(jobId).value := old(jobs)[old(jobId).value].(status := JobQueued)] else old(jobs)
    {
      if jobId.None? {
        return false;
      }
      CheckJobStatus(r, jobId.value, Retrying(retriesLeft));
      ok := flights[r].JobChecked?;
      ChangeJob(r);
    }

    // -------------------------------------------------------------- the handler

    method FetchJob(w: nat, j: nat)
      requires Valid()
      modifies this
      ensures Valid() && View() == Do(old(View()), Looks(w, Fetch(j)))
    {
      DoKeepsInv(View(), Looks(w, Fetch(j)));
      if w !in workers && j < |jobs| && jobs[j].status != JobCancelled {
        workers := workers[w := Fetched(j)];
      }
    }

    method StartJob(w: nat)
      requires Valid()
      modifies this
      ensures Valid() && View() == Do(old(View()), Table(Start(w)))
    {
      DoKeepsInv(View(), Table(Start(w)));
      if w in workers && workers[w].Fetched? {
        WriteJobStatus(workers[w].job, JobRunning);
        workers := workers[w := Started(workers[w].job)];
      }
    }

    /** A batch that is a preview or has moved on, or another user's rerun, is refused. */
    method CheckBatch(w: nat)
      requires Valid()
      modifies this
      ensures Valid() && View() == Do(old(View()), Looks(w, ReadBatch))
    {
      DoKeepsInv(View(), Looks(w, ReadBatch));
      if w in workers && workers[w].Started? && workers[w].job < |jobs| {
        var j := workers[w].job;
        if !jobs[j].byOwner || status == Preview || jobs[j].version != version {
          workers := workers[w := Refused(j)];
        } else {
          workers := workers[w := Passed(j, status == Running)];
        }
      }
    }

    method CommitRunning(w: nat)
      requires Valid()
      modifies this
      ensures Valid() && View() == Do(old(View()), Row(WriteRunning(w)))
    {
      DoKeepsInv(View(), Row(WriteRunning(w)));
      if w in workers && workers[w].Passed? {
        if !workers[w].sawRunning {
          status := Running;
        }
        workers := workers[w := Working(workers[w].job)];
      }
    }

    /** The last commit of the handler does not look at the batch again. */
    method CommitFinal(w: nat, tally: Tally)
      requires Valid()
      modifies this
      ensures Valid() && View() == Do(old(View()), Row(WriteFinal(w, tally)))
    {
      DoKeepsInv(View(), Row(WriteFinal(w, tally)));
      if w in workers && workers[w].Working? {
        status := BatchResult(tally);
        workers := workers[w := Wrote(workers[w].job, tally)];
      }
    }

    /** After the handler: a job that was cancelled meanwhile stays so. */
    method RefreshJob(w: nat)
      requires Valid()
      modifies this
      ensures Valid() && View() == Do(old(View()), Looks(w, ReadJob))
    {
      DoKeepsInv(View(), Looks(w, ReadJob));
      if w in workers && workers[w].Wrote? {
        var (j, tally) := (workers[w].job, workers[w].tally);
        workers := workers[w := if jobs[j].status == JobCancelled then Gone else Closing(j, tally)];
      }
    }

    method CommitJob(w: nat)
      requires Valid()
      modifies this
      ensures Valid() && View() == Do(old(View()), Table(CloseJob(w)))
    {
      DoKeepsInv(View(), Table(CloseJob(w)));
      if w in workers && workers[w].Closing? {
        WriteJobStatus(workers[w].job, JobResult(workers[w].tally));
        workers := workers[w := Gone];
      }
    }

    method FailJob(w: nat)
      requires Valid()
      modifies this
      ensures Valid() && View() == Do(old(View()), Table(Raise(w)))
    {
      DoKeepsInv(View(), Table(Raise(w)));
      if w in workers && !workers[w].Fetched? && !workers[w].Closing? && !workers[w].Gone? {
        WriteJobStatus(workers[w].job, JobFailed);
        workers := workers[w := Gone];
      }
    }
  }
}
