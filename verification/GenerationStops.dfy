/**
 How the world's answers decide an attempt of the generation worker: when it stops and what it
 leaves then, what every visited mapping's item says, and how a field ends.
 */
module GenerationStops {
  import opened Basics
  import opened GenerationModel
  import opened GenerationInvariants
  import opened GenerationFields

  // ---------------------------------------------------------------- the questions of an attempt

  function StagesOf(f: Field): seq<seq<Key>> {
    [f.business, f.technical, f.sources, f.marts]
  }

  function RunStages(w: World, s: State, f: nat, stages: seq<seq<Key>>): State
    decreases |stages|
  {
    if stages == [] then s else RunStages(w, Stage(w, s, f, stages[0]), f, stages[1..])
  }

  lemma StagesAreRun(w: World, s: State, f: Field)
    ensures Stages(w, s, f) == RunStages(w, s, f.id, StagesOf(f))
  {
    var s1 := Stage(w, s, f.id, f.business);
    var s2 := Stage(w, s1, f.id, f.technical);
    var s3 := Stage(w, s2, f.id, f.sources);
    var all := StagesOf(f);
    assert all[1..] == [f.technical, f.sources, f.marts] && all[1..][1..] == [f.sources, f.marts];
    assert all[1..][1..][1..] == [f.marts] && [f.marts][1..] == [];
    assert RunStages(w, s, f.id, all) == RunStages(w, s1, f.id, all[1..]) == RunStages(w, s2, f.id, all[1..][1..]);
    assert RunStages(w, s2, f.id, [f.sources, f.marts]) == RunStages(w, s3, f.id, [f.marts]);
  }

  /** The numbers of the questions for a cancellation: one after every stage that is visited. */
  function StageQuestions(w: World, s: State, f: nat, stages: seq<seq<Key>>): seq<nat>
    decreases |stages|
  {
    if stages == [] || !s.mode.Going? || w.crashes(s.clock) then []
    else [VisitAll(w, Tick(w, s), f, stages[0]).clock] + StageQuestions(w, Stage(w, s, f, stages[0]), f, stages[1..])
  }

  /** The state in which a field's stages begin. */
  function Entered(w: World, s: State, f: Field): State {
    Tick(w, s).(entered := s.entered + [f.id])
  }

  /** One before every field, and those after its stages if it is processed. */
  function Questions(w: World, s: State, fs: seq<Field>): seq<nat>
    decreases |fs|
  {
    if fs == [] || !s.mode.Going? then [] else
    [s.clock]
      + (if w.cancelled(s.clock) || FieldKey(fs[0].id) in s.done then [] else StageQuestions(w, Entered(w, s, fs[0]), fs[0].id, StagesOf(fs[0])))
      + Questions(w, HandleField(w, s, fs[0]), fs[1..])
  }

  // ---------------------------------------------------------------- when an attempt stops

  /** The attempt stopped at its last question, the only one answered yes, and asked the world
      nothing more; or every answer was no. */
  ghost predicate Obeys(w: World, questions: seq<nat>, t: State) {
    if t.mode.Stopped? then
      && questions != [] && w.cancelled(questions[|questions| - 1]) && t.clock == questions[|questions| - 1] + 1
      && forall i :: 0 <= i < |questions| - 1 ==> !w.cancelled(questions[i])
    else forall i :: 0 <= i < |questions| ==> !w.cancelled(questions[i])
  }

  lemma ObeysAppend(w: World, first: seq<nat>, second: seq<nat>, t: State)
    requires forall i :: 0 <= i < |first| ==> !w.cancelled(first[i])
    requires Obeys(w, second, t)
    ensures Obeys(w, first + second, t)
  {
    var all := first + second;
    forall i | |first| <= i < |all| ensures all[i] == second[i - |first|] {
    }
  }

  lemma {:induction false} StagesObey(w: World, s: State, f: nat, stages: seq<seq<Key>>)
    requires !s.mode.Stopped?
    ensures Obeys(w, StageQuestions(w, s, f, stages), RunStages(w, s, f, stages))
    decreases |stages|
  {
    if stages == [] {
    } else if !s.mode.Going? || w.crashes(s.clock) {
      HaltedStays(w, Stage(w, s, f, stages[0]), f, stages[1..]);
    } else {
      var t := Stage(w, s, f, stages[0]);
      var q := VisitAll(w, Tick(w, s), f, stages[0]).clock;
      VisitAllKeepsMode(w, Tick(w, s), f, stages[0]);
      if w.cancelled(q) {
        HaltedStays(w, t, f, stages[1..]);
        assert StageQuestions(w, t, f, stages[1..]) == [];
      } else {
        StagesObey(w, t, f, stages[1..]);
        ObeysAppend(w, [q], StageQuestions(w, t, f, stages[1..]), RunStages(w, t, f, stages[1..]));
      }
    }
  }

  lemma {:induction false} VisitAllKeepsMode(w: World, s: State, f: nat, ks: seq<Key>)
    ensures VisitAll(w, s, f, ks).mode == s.mode
    decreases |ks|
  {
    if ks != [] {
      VisitAllKeepsMode(w, Visit(w, s, f, ks[0]), f, ks[1..]);
    }
  }

  /** No later stage is visited once an attempt has stopped or a field has raised. */
  lemma {:induction false} HaltedStays(w: World, s: State, f: nat, stages: seq<seq<Key>>)
    requires !s.mode.Going?
    ensures RunStages(w, s, f, stages) == s
    decreases |stages|
  {
    if stages != [] {
      HaltedStays(w, s, f, stages[1..]);
    }
  }

  lemma FieldObeys(w: World, s: State, f: Field)
    requires s.mode.Going?
    ensures var asked := if w.cancelled(s.clock) || FieldKey(f.id) in s.done then [] else StageQuestions(w, Entered(w, s, f), f.id, StagesOf(f));
            Obeys(w, [s.clock] + asked, HandleField(w, s, f))
  {
    if !w.cancelled(s.clock) && FieldKey(f.id) !in s.done {
      var u := Entered(w, s, f);
      StagesObey(w, u, f.id, StagesOf(f));
      StagesAreRun(w, u, f);
      assert HandleField(w, s, f) == Process(w, Tick(w, s), f);
      ObeysAppend(w, [s.clock], StageQuestions(w, u, f.id, StagesOf(f)), HandleField(w, s, f));
    }
  }

  lemma {:induction false} FieldsObey(w: World, s: State, fs: seq<Field>)
    requires s.mode.Going? && forall f :: f in fs ==> WellKeyed(f)
    ensures Obeys(w, Questions(w, s, fs), HandleFields(w, s, fs))
    decreases |fs|
  {
    if fs != [] {
      var t, f := HandleField(w, s, fs[0]), fs[0];
      var asked := [s.clock] +
        if w.cancelled(s.clock) || FieldKey(f.id) in s.done then [] else StageQuestions(w, Entered(w, s, f), f.id, StagesOf(f));
      FieldObeys(w, s, f);
      HandleFieldSteps(w, s, f);
      if t.mode.Stopped? {
        assert Questions(w, s, fs) == asked;
      } else {
        FieldsObey(w, t, fs[1..]);
        ObeysAppend(w, asked, Questions(w, t, fs[1..]), HandleFields(w, t, fs[1..]));
      }
    }
  }

  /** An attempt stops exactly if one of its questions for a cancellation is answered yes; that is
      then its last question, and it asks the world for nothing after it. Its package ends as
      cancelled exactly if one of them or the question at the end is answered yes. */
  lemma StopsExactly(s: State, a: Attempt)
    requires a.scope.ScopeGranted? && WellFormed(a)
    ensures var t, w, questions := Run(s, a), a.world, Questions(a.world, Begin(s), a.fields);
      && Obeys(w, questions, t)
      && (t.mode.Stopped? <==> exists q :: q in questions && w.cancelled(q))
      && (FinalStatus(t, a) == Cancelled <==> exists q :: q in questions + [t.clock] && w.cancelled(q))
  {
    var t, w, questions := Run(s, a), a.world, Questions(a.world, Begin(s), a.fields);
    FieldsObey(w, Begin(s), a.fields);
    if t.mode.Stopped? {
      assert questions[|questions| - 1] in questions;
    }
    assert t.clock in questions + [t.clock];
    assert forall q :: q in questions ==> q in questions + [t.clock];
  }

  // ---------------------------------------------------------------- what a stopped attempt leaves

  /** A yes before a field: no item, counter or draft is added from there on. */
  lemma YesBeforeField(w: World, s: State, fs: seq<Field>)
    requires s.mode.Going? && fs != [] && w.cancelled(s.clock)
    ensures var t := HandleFields(w, s, fs);
      && t.mode.Stopped? && t.items == s.items && t.tally == s.tally && t.done == s.done
      && t.generated == s.generated && t.entered == s.entered && t.clock == s.clock + 1
  {
    assert HandleFields(w, s, fs) == HandleFields(w, HandleField(w, s, fs[0]), fs[1..]);
  }

  lemma {:induction false} RunStagesAppend(w: World, s: State, f: nat, a: seq<seq<Key>>, b: seq<seq<Key>>)
    ensures RunStages(w, s, f, a + b) == RunStages(w, RunStages(w, s, f, a), f, b)
    decreases |a|
  {
    if a == [] {
      assert a + b == b;
    } else {
      assert (a + b)[0] == a[0] && (a + b)[1..] == a[1..] + b;
      RunStagesAppend(w, Stage(w, s, f, a[0]), f, a[1..], b);
    }
  }

  /** A yes after stage i of a field: the mappings of that stage are as they were visited, those of
      later stages are not visited, and the field's item and the counters are as before it. */
  lemma YesAfterStage(w: World, s: State, f: Field, i: nat)
    requires s.mode.Going? && WellKeyed(f) && !w.cancelled(s.clock) && FieldKey(f.id) !in s.done && i < 4
    requires var before := RunStages(w, Entered(w, s, f), f.id, StagesOf(f)[..i]); before.mode.Going? && !w.crashes(before.clock)
    requires w.cancelled(VisitAll(w, Tick(w, RunStages(w, Entered(w, s, f), f.id, StagesOf(f)[..i])), f.id, StagesOf(f)[i]).clock)
    ensures var visited := VisitAll(w, Tick(w, RunStages(w, Entered(w, s, f), f.id, StagesOf(f)[..i])), f.id, StagesOf(f)[i]);
      var t := HandleField(w, s, f);
      && t.mode.Stopped? && t.items == visited.items && t.generated == visited.generated && t.clock == visited.clock + 1
      && StatusOf(t, f.id) == StatusOf(s, f.id) && t.tally == s.tally
  {
    var u, all := Entered(w, s, f), StagesOf(f);
    var before := RunStages(w, u, f.id, all[..i]);
    var after := Stage(w, before, f.id, all[i]);
    VisitAllKeepsMode(w, Tick(w, before), f.id, all[i]);
    assert all == all[..i] + all[i..] && all[i..][0] == all[i] && all[i..][1..] == all[i + 1..];
    RunStagesAppend(w, u, f.id, all[..i], all[i..]);
    HaltedStays(w, after, f.id, all[i + 1..]);
    StagesAreRun(w, u, f);
    assert Stages(w, u, f) == after;
    HandleFieldSteps(w, s, f);
    assert HandleField(w, s, f) == Process(w, Tick(w, s), f) == after;
  }

  // ---------------------------------------------------------------- what a visited mapping's item says

  /** The item of a mapping after its visit: a shared one that is done keeps its item; one with
      content is skipped; for any other the generator's answer decides. */
  function ItemAfter(w: World, s: State, k: Key): Option<ItemStatus> {
    if (k.SourceToMart? || k.MartToYbt?) && k in s.done then (if k in s.items then Some(s.items[k]) else None)
    else if k in s.content then Some(Skipped)
    else match w.generate(s.clock) case Drafted => Some(Completed) case Refused => Some(Blocked) case Broke => Some(Failed)
  }

  lemma VisitOutcome(w: World, s: State, f: nat, k: Key)
    ensures var t := Visit(w, s, f, k);
      && (if k in t.items then Some(t.items[k]) else None) == ItemAfter(w, s, k)
      && (forall j :: j != k ==> (j in t.items <==> j in s.items) && (j in s.items ==> t.items[j] == s.items[j]))
      && t.generated == (if ItemAfter(w, s, k) == Some(Completed) && !((k.SourceToMart? || k.MartToYbt?) && k in s.done)
                         then s.generated + [k] else s.generated)
  {
  }

  lemma {:induction false} VisitAllLeaves(w: World, s: State, f: nat, ks: seq<Key>, k: Key)
    requires k !in ks
    ensures var t := VisitAll(w, s, f, ks); (k in t.items <==> k in s.items) && (k in s.items ==> t.items[k] == s.items[k])
    decreases |ks|
  {
    if ks != [] {
      VisitOutcome(w, s, f, ks[0]);
      VisitAllLeaves(w, Visit(w, s, f, ks[0]), f, ks[1..], k);
    }
  }

  /** After a stage the item of its i-th mapping is what the visit of that mapping made of it. */
  lemma {:induction false} MappingOutcome(w: World, s: State, f: nat, ks: seq<Key>, i: nat)
    requires Distinct(ks) && i < |ks|
    ensures var t := VisitAll(w, s, f, ks);
      (if ks[i] in t.items then Some(t.items[ks[i]]) else None) == ItemAfter(w, VisitAll(w, s, f, ks[..i]), ks[i])
    decreases |ks|
  {
    var next := Visit(w, s, f, ks[0]);
    VisitOutcome(w, s, f, ks[0]);
    if i == 0 {
      VisitAllLeaves(w, next, f, ks[1..], ks[0]);
    } else {
      MappingOutcome(w, next, f, ks[1..], i - 1);
      assert ks[..i][0] == ks[0] && ks[..i][1..] == ks[1..][..i - 1];
    }
  }

  // ---------------------------------------------------------------- how a field ends

  /** Reading the mappings of some stage raises, or assembling the field after the last one does. */
  ghost predicate Raises(w: World, s: State, f: nat, stages: seq<seq<Key>>)
    decreases |stages|
  {
    s.mode.Going? && (w.crashes(s.clock) || (stages != [] && Raises(w, Stage(w, s, f, stages[0]), f, stages[1..])))
  }

  lemma {:induction false} RaisedStages(w: World, s: State, f: nat, stages: seq<seq<Key>>)
    requires s.mode.Going?
    ensures var v := Assemble(w, RunStages(w, s, f, stages));
      && (v.mode.Crashed? <==> Raises(w, s, f, stages))
      && (v.mode.Stopped? <==> exists q :: q in StageQuestions(w, s, f, stages) && w.cancelled(q))
    decreases |stages|
  {
    StagesObey(w, s, f, stages);
    var questions := StageQuestions(w, s, f, stages);
    if RunStages(w, s, f, stages).mode.Stopped? {
      assert questions[|questions| - 1] in questions;
    }
    if stages != [] {
      var t := Stage(w, s, f, stages[0]);
      if t.mode.Going? {
        RaisedStages(w, t, f, stages[1..]);
      } else {
        HaltedStays(w, t, f, stages[1..]);
        VisitAllKeepsMode(w, Tick(w, s), f, stages[0]);
      }
    }
  }

  /** How a field ends that is processed: the attempt stops exactly on a yes after one of its stages;
      else the item is failed if reading or assembling it raised or one of its mappings failed,
      blocked if one is blocked or the field is not ready, and completed in all other cases. */
  lemma FieldOutcome(w: World, s: State, f: Field)
    requires WellKeyed(f) && DistinctKeys(f) && s.mode.Going? && DoneShared(s.items, s.done)
    requires f.id !in s.failedFields && f.id !in s.blockedFields
    requires !w.cancelled(s.clock) && FieldKey(f.id) !in s.done
    ensures var t, u, v := HandleField(w, s, f), Entered(w, s, f), Stages(w, Entered(w, s, f), f);
      && (t.mode.Stopped? <==> exists q :: q in StageQuestions(w, u, f.id, StagesOf(f)) && w.cancelled(q))
      && (!t.mode.Stopped? ==>
            StatusOf(t, f.id) == Some(
              if Raises(w, u, f.id, StagesOf(f)) || HasStatus(v, Mappings(f), Failed) then Failed
              else if HasStatus(v, Mappings(f), Blocked) || !w.approved(v.clock) then Blocked
              else Completed))
  {
    var u := Entered(w, s, f);
    StagesAreRun(w, u, f);
    RaisedStages(w, u, f.id, StagesOf(f));
    FinishedFieldMeans(w, u, f);
    assert HandleField(w, s, f) == Process(w, Tick(w, s), f) == Conclude(w, Assemble(w, Stages(w, u, f)), f.id);
  }

  // ---------------------------------------------------------------- a refused scope

  /** An attempt whose scope check fails writes the package's item and one counter, and generates
      nothing. */
  lemma ScopeOutcome(s: State, a: Attempt)
    requires !a.scope.ScopeGranted?
    ensures var t, status := Run(s, a), if a.scope.ScopeRefused? then Blocked else Failed;
      && t.items == s.items[PackageKey := status] && t.generated == s.generated && t.content == s.content && t.entered == s.entered
      && t.tally == (if a.scope.ScopeRefused? then Tally(0, 0, 1, 0) else Tally(0, 1, 0, 0))
      && FinalStatus(t, a) == (if a.scope.ScopeRefused? then Draft else GenerationFailed)
  {
  }
}
