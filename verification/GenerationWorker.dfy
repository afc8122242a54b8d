/** The generation worker as code over the job's items and the locals of the attempt. */
module GenerationWorker {
  import opened Basics
  import opened GenerationModel
  import opened GenerationInvariants
  import opened GenerationStops

  class Worker {
    const world: World
    var items: map<Key, ItemStatus>
    var content: set<Key>
    var clock: nat
    var completed: set<Key>
    var blockedFields: set<nat>
    var failedFields: set<nat>
    var success: nat
    var failed: nat
    var blocked: nat
    var skipped: nat
    var mode: Mode
    ghost var generated: seq<Key>
    ghost var entered: seq<nat>
    ghost var ledger: Ledger

    ghost function View(): State
      reads this
    {
      State(items, content, generated, entered, clock, completed, blockedFields, failedFields,
            Tally(success, failed, blocked, skipped), mode, ledger)
    }

    /** A new attempt at a job with these items. */
    constructor (world: World, ghost s: State, items: map<Key, ItemStatus>, content: set<Key>, clock: nat)
      requires s.items == items && s.content == content && s.clock == clock
      ensures this.world == world && View() == Begin(s)
    {
      this.world, this.items, this.content, this.clock := world, items, content, clock;
      completed := set k | k in items && items[k] == Completed;
      blockedFields, failedFields := {}, {};
      success, failed, blocked, skipped, mode := 0, 0, 0, 0, Going;
      generated, entered, ledger := s.generated, s.entered, s.ledger;
    }

    method Advance()
      modifies this
      ensures View() == Tick(world, old(View()))
    {
      var edited := world.edit(clock, content);
      content, clock, ledger := edited, clock + 1, Settle(ledger, edited);
    }

    method RefreshJob()
      modifies this
      ensures View() == AskCancelled(world, old(View()))
    {
      if world.cancelled(clock) {
        mode := Stopped;
      }
      Advance();
    }

    method MayRaise()
      requires mode.Going?
      modifies this
      ensures View() == if world.crashes(old(clock)) then Tick(world, old(View())).(mode := Crashed) else old(View())
    {
      if world.crashes(clock) {
        mode := Crashed;
        Advance();
      }
    }

    /** _run_deliverable_generation: the outcome is recorded and committed in either branch. */
    method RunGeneration(k: Key) returns (outcome: ItemStatus)
      modifies this
      ensures outcome == match world.generate(old(clock)) case Drafted => Completed case Refused => Blocked case Broke => Failed
      ensures View() == Tick(world, old(View()).(items := old(items)[k := outcome],
                                                 content := if outcome == Completed then old(content) + {k} else old(content),
                                                 generated := if outcome == Completed then old(generated) + [k] else old(generated),
                                                 ledger := if outcome == Completed then old(ledger).(drafts := old(ledger).drafts + {k}) else old(ledger)))
    {
      match world.generate(clock) {
        case Drafted =>
          content := content + {k};
          generated := generated + [k];
          ledger := ledger.(drafts := ledger.drafts + {k});
          outcome := Completed;
        case Refused => outcome := Blocked;
        case Broke => outcome := Failed;
      }
      items := items[k := outcome];
      Advance();
    }

    method VisitMapping(f: nat, k: Key)
      modifies this
      ensures View() == Visit(world, old(View()), f, k)
    {
      if IsShared(k) && k in completed {
        return;
      }
      if k in content {
        items := items[k := Skipped];
        Advance();
        return;
      }
      var outcome := RunGeneration(k);
      if outcome == Completed {
        if IsShared(k) {
          completed := completed + {k};
        }
      } else if outcome == Blocked {
        blockedFields := blockedFields + {f};
      } else {
        failedFields := failedFields + {f};
      }
    }

    /** One stage's loop; each shared mapping stays generated at most once, exactly when its item
        is completed. */
    method VisitMappings(f: nat, ks: seq<Key>)
      modifies this
      ensures View() == VisitAll(world, old(View()), f, ks)
      ensures Sound(old(View()), false) ==> Sound(View(), false)
    {
      if Sound(View(), false) {
        VisitAllKeepsSound(world, View(), f, ks, false);
      }
      for i := 0 to |ks|
        invariant VisitAll(world, View(), f, ks[i..]) == VisitAll(world, old(View()), f, ks)
      {
        assert ks[i..][0] == ks[i] && ks[i..][1..] == ks[i + 1..];
        VisitMapping(f, ks[i]);
      }
    }

    method RunStage(f: nat, ks: seq<Key>)
      requires mode.Going?
      modifies this
      ensures View() == Stage(world, old(View()), f, ks)
    {
      if world.crashes(clock) {
        mode := Crashed;
        Advance();
        return;
      }
      Advance();
      VisitMappings(f, ks);
      RefreshJob();
    }

    method RunStages(f: Field)
      requires mode.Going?
      modifies this
      ensures View() == Stages(world, old(View()), f)
    {
      RunStage(f.id, f.business);
      if mode.Going? {
        RunStage(f.id, f.technical);
      }
      if mode.Going? {
        RunStage(f.id, f.sources);
      }
      if mode.Going? {
        RunStage(f.id, f.marts);
      }
    }

    method WriteField(f: nat, status: ItemStatus)
      requires status != Skipped
      modifies this
      ensures View() == RecordField(old(View()), f, status)
    {
      items := items[FieldKey(f) := status];
      if status == Failed {
        failed := failed + 1;
      } else if status == Blocked {
        blocked := blocked + 1;
      } else {
        success := success + 1;
      }
    }

    method FinishField(f: nat)
      modifies this
      ensures View() == Conclude(world, old(View()), f)
    {
      if mode.Stopped? {
        return;
      }
      if mode.Crashed? {
        mode := Going;
        WriteField(f, Failed);
        return;
      }
      var approved := world.approved(clock);
      Advance();
      WriteField(f, if f in failedFields then Failed else if f in blockedFields || !approved then Blocked else Completed);
    }

    method ProcessField(f: Field)
      requires mode.Going?
      modifies this
      ensures View() == Process(world, old(View()), f)
    {
      entered := entered + [f.id];
      RunStages(f);
      if mode.Going? {
        MayRaise();
      }
      FinishField(f.id);
    }

    /** One field: its item and one counter move together, or the attempt stops at it. */
    method NextField(f: Field)
      requires mode.Going? && WellKeyed(f)
      modifies this
      ensures View() == HandleField(world, old(View()), f)
      ensures FieldStep(old(View()), View(), f.id)
      ensures world.cancelled(old(clock)) ==>
        mode.Stopped? && items == old(items) && generated == old(generated) && clock == old(clock) + 1
    {
      HandleFieldSteps(world, View(), f);
      RefreshJob();
      if mode.Stopped? {
        return;
      }
      if FieldKey(f.id) in completed {
        skipped := skipped + 1;
        return;
      }
      ProcessField(f);
    }

    /** The outer loop: the counters are the statuses of the fields it handled. */
    method HandleAll(fs: seq<Field>)
      requires mode.Going? && DistinctIds(fs) && InStep(View(), fs) && forall f :: f in fs ==> WellKeyed(f)
      requires Handled(View().tally) == 0
      modifies this
      ensures View() == HandleFields(world, old(View()), fs)
      ensures var n := Handled(View().tally);
              TalliedTo(old(View()), View(), fs, n) && n <= |fs| && (!mode.Stopped? ==> n == |fs|)
    {
      ghost var n := HandleFieldsTally(world, View(), fs);
      var i := 0;
      while i < |fs| && !mode.Stopped?
        invariant i <= |fs| && !mode.Crashed?
        invariant HandleFields(world, View(), fs[i..]) == HandleFields(world, old(View()), fs)
      {
        assert fs[i..][0] == fs[i] && fs[i..][1..] == fs[i + 1..];
        NextField(fs[i]);
        i := i + 1;
      }
    }

    /** The package status after the outer loop, with the last question for a cancellation. */
    method ClosePackage(fs: seq<Field>) returns (status: PackageStatus)
      ensures status == FinalStatus(View(), Attempt(world, ScopeGranted, fs))
    {
      var tooLate := world.cancelled(clock);
      status := if mode.Stopped? || tooLate then Cancelled
                else if failed > 0 && success == 0 then GenerationFailed
                else Draft;
    }

    /** The handler of an attempt whose scope check passed. */
    method RunGranted(fs: seq<Field>) returns (status: PackageStatus)
      requires View() == Begin(View()) && DistinctIds(fs) && forall f :: f in fs ==> WellKeyed(f)
      modifies this
      ensures View() == HandleFields(world, old(View()), fs)
      ensures status == FinalStatus(View(), Attempt(world, ScopeGranted, fs))
    {
      HandleAll(fs);
      status := ClosePackage(fs);
    }

    /** The whole handler after its scope check. */
    method RunAttempt(scope: ScopeCheck, fs: seq<Field>) returns (status: PackageStatus)
      requires View() == Begin(View()) && DistinctIds(fs) && forall f :: f in fs ==> WellKeyed(f)
      modifies this
      ensures View() == Run(old(View()), Attempt(world, scope, fs))
      ensures status == FinalStatus(View(), Attempt(world, scope, fs))
      ensures scope.ScopeGranted? ==>
        (mode.Stopped? <==> exists q :: q in Questions(world, old(View()), fs) && world.cancelled(q))
    {
      if scope.ScopeGranted? {
        StopsExactly(View(), Attempt(world, scope, fs));
      }
      match scope {
        case ScopeRefused =>
          items, blocked := items[PackageKey := Blocked], 1;
          status := Draft;
        case ScopeBroke =>
          items, failed := items[PackageKey := Failed], 1;
          status := GenerationFailed;
        case ScopeGranted =>
          status := RunGranted(fs);
      }
    }
  }
}
