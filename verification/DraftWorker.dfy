/** The batch draft worker as code over the job's items. */
module DraftWorker {
  import opened Basics
  import opened DraftModel
  import opened DraftOutcomes

  class DraftHandler {
    const world: DraftWorld
    var items: map<nat, DraftStatus>
    var clock: nat
    var success: nat
    var blocked: nat
    var failed: nat
    var stopped: bool
    ghost var generated: seq<nat>
    ghost var lost: seq<nat>

    ghost function View(): Job
      reads this
    {
      Job(items, generated, lost, clock, success, blocked, failed, stopped)
    }

    constructor (world: DraftWorld)
      ensures this.world == world && View() == NewJob()
    {
      this.world := world;
      items, clock, success, blocked, failed, stopped := map[], 0, 0, 0, 0, false;
      generated, lost := [], [];
    }

    /** A generator call with the record of its result, or of what it raised. */
    method GenerateDraft(r: nat)
      modifies this
      ensures View() == GenerateRow(world, old(View()), r)
    {
      var outcome := world.generate(clock);
      clock := clock + 1;
      if outcome.Generated? || outcome.Unrecorded? {
        generated := generated + [r];
        success := success + 1;
        if outcome.Generated? {
          items := items[r := Completed];
          return;
        }
        lost := lost + [r];
      }
      if outcome.Refused? {
        blocked := blocked + 1;
        items := items[r := Blocked];
      } else {
        failed := failed + 1;
        items := items[r := Failed];
      }
    }

    method RefuseAll(rows: seq<nat>, status: DraftStatus)
      requires status != Completed
      modifies this
      ensures var n := |rows|;
              View() == old(View()).(items := Overwrite(old(items), rows, status),
                                     blocked := old(blocked) + if status == Blocked then n else 0,
                                     failed := old(failed) + if status == Failed then n else 0)
    {
      for i := 0 to |rows|
        invariant View() == old(View()).(items := items,
                                         blocked := old(blocked) + if status == Blocked then i else 0,
                                         failed := old(failed) + if status == Failed then i else 0)
        invariant Overwrite(items, rows[i..], status) == Overwrite(old(items), rows, status)
      {
        assert rows[i..][0] == rows[i] && rows[i..][1..] == rows[i + 1..];
        items := items[rows[i] := status];
        if status == Blocked {
          blocked := blocked + 1;
        } else {
          failed := failed + 1;
        }
      }
    }

    /** One row: counted if it was completed before, left if the job is cancelled. */
    method VisitRow(prior: map<nat, DraftStatus>, r: nat)
      requires !stopped
      modifies this
      ensures View() == HandleRow(world, old(View()), prior, r)
      ensures SameItem(prior, old(items), r) && !stopped ==> RowStep(old(View()), View(), r)
    {
      if SameItem(prior, items, r) {
        HandleRowSteps(world, View(), prior, r);
      }
      if r in prior && prior[r] == Completed {
        success := success + 1;
        return;
      }
      var cancelled := world.cancelled(clock);
      clock := clock + 1;
      if cancelled {
        stopped := true;
        return;
      }
      GenerateDraft(r);
    }

    /** The loop over the rows. */
    method GenerateAll(prior: map<nat, DraftStatus>, rows: seq<nat>)
      modifies this
      ensures View() == HandleRows(world, old(View()), prior, rows)
    {
      var i := 0;
      while i < |rows| && !stopped
        invariant i <= |rows|
        invariant HandleRows(world, View(), prior, rows[i..]) == HandleRows(world, old(View()), prior, rows)
      {
        assert rows[i..][0] == rows[i] && rows[i..][1..] == rows[i + 1..];
        VisitRow(prior, rows[i]);
        i := i + 1;
      }
    }

    /** One attempt of the job. */
    method RunJob(scope: ScopeResult, rows: seq<nat>) returns (ghost visited: nat)
      requires Distinct(rows)
      modifies this
      ensures View() == Run(old(View()), DraftAttempt(world, scope, rows))
      ensures visited <= |rows| && (stopped || visited == |rows|)
      ensures success + blocked + failed == visited + Lost(old(View()), View())
      ensures success == CountStatus(items, rows[..visited], Completed) + Lost(old(View()), View())
      ensures scope.Authorized? ==>
        ItemsFollow(world, old(clock), old(items), items, Drafted(world, old(clock), old(items), rows))
    {
      visited := CountersMatchItems(View(), DraftAttempt(world, scope, rows));
      if scope.Authorized? {
        AttemptOutcome(View(), DraftAttempt(world, scope, rows));
      }
      success, blocked, failed, stopped := 0, 0, 0, false;
      match scope {
        case Denied => RefuseAll(rows, Blocked);
        case Faulty => RefuseAll(rows, Failed);
        case Authorized => GenerateAll(items, rows);
      }
    }
  }
}
