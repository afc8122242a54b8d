/** What the item of a field says about the mappings that were visited for it. */
module GenerationFields {
  import opened Basics
  import opened GenerationModel
  import opened GenerationInvariants

  ghost predicate HasStatus(s: State, ks: set<Key>, status: ItemStatus) {
    exists k :: k in ks && k in s.items && s.items[k] == status
  }

  /** The flags of field f say which statuses the mappings visited for it have. */
  ghost predicate Reflects(s: State, f: nat, seen: set<Key>) {
    && (forall k :: k in seen ==> k in s.items)
    && (f in s.failedFields <==> HasStatus(s, seen, Failed))
    && (f in s.blockedFields <==> HasStatus(s, seen, Blocked))
    && DoneShared(s.items, s.done)
  }

  lemma RecordReflects(s: State, t: State, f: nat, seen: set<Key>, k: Key)
    requires Reflects(s, f, seen) && k !in seen && k in t.items && t.items == s.items[k := t.items[k]]
    requires t.failedFields == if t.items[k] == Failed then s.failedFields + {f} else s.failedFields
    requires t.blockedFields == if t.items[k] == Blocked then s.blockedFields + {f} else s.blockedFields
    requires DoneShared(t.items, t.done)
    ensures Reflects(t, f, seen + {k})
  {
    forall status | status in {Failed, Blocked}
      ensures HasStatus(t, seen + {k}, status) <==> HasStatus(s, seen, status) || t.items[k] == status
    {
      if HasStatus(s, seen, status) {
        var j :| j in seen && j in s.items && s.items[j] == status;
        assert j in seen + {k} && t.items[j] == status;
      }
      if t.items[k] == status {
        assert k in seen + {k};
      }
    }
  }

  lemma VisitReflects(w: World, s: State, f: nat, seen: set<Key>, k: Key)
    requires Reflects(s, f, seen) && k !in seen
    ensures Reflects(Visit(w, s, f, k), f, seen + {k})
  {
    var t := Visit(w, s, f, k);
    if IsShared(k) && k in s.done {
      assert s.items == s.items[k := Completed];
    }
    RecordReflects(s, t, f, seen, k);
  }

  lemma {:induction false} VisitAllReflects(w: World, s: State, f: nat, seen: set<Key>, ks: seq<Key>) returns (all: set<Key>)
    requires Reflects(s, f, seen) && Distinct(ks) && forall k :: k in ks ==> k !in seen
    ensures Reflects(VisitAll(w, s, f, ks), f, all) && all == seen + set k | k in ks
    decreases |ks|
  {
    all := seen;
    if ks != [] {
      VisitReflects(w, s, f, seen, ks[0]);
      assert forall k :: k in ks[1..] ==> k in ks && k != ks[0];
      all := VisitAllReflects(w, Visit(w, s, f, ks[0]), f, seen + {ks[0]}, ks[1..]);
      assert ks == [ks[0]] + ks[1..];
    }
  }

  function Members(ks: seq<Key>): set<Key> {
    set k | k in ks
  }

  lemma StageReflects(w: World, s: State, f: nat, seen: set<Key>, ks: seq<Key>)
    requires s.mode.Going? ==> Reflects(s, f, seen)
    requires Distinct(ks) && forall k :: k in ks ==> k !in seen && !k.FieldKey?
    ensures Stage(w, s, f, ks).mode.Going? ==> s.mode.Going? && Reflects(Stage(w, s, f, ks), f, seen + Members(ks))
  {
    if s.mode.Going? && !w.crashes(s.clock) {
      assert Reflects(Tick(w, s), f, seen);
      var all := VisitAllReflects(w, Tick(w, s), f, seen, ks);
      var t := VisitAll(w, Tick(w, s), f, ks);
      assert Reflects(Tick(w, t), f, seen + Members(ks));
    }
  }

  ghost predicate DistinctKeys(f: Field) {
    Distinct(f.business) && Distinct(f.technical) && Distinct(f.sources) && Distinct(f.marts)
  }

  function Mappings(f: Field): set<Key> {
    Members(f.business) + Members(f.technical) + Members(f.sources) + Members(f.marts)
  }

  lemma StagesReflect(w: World, s: State, f: Field)
    requires WellKeyed(f) && DistinctKeys(f) && s.mode.Going? && Reflects(s, f.id, {})
    ensures Stages(w, s, f).mode.Going? ==> Reflects(Stages(w, s, f), f.id, Mappings(f))
  {
    var s1 := Stage(w, s, f.id, f.business);
    var s2 := Stage(w, s1, f.id, f.technical);
    var s3 := Stage(w, s2, f.id, f.sources);
    StageReflects(w, s, f.id, {}, f.business);
    StageReflects(w, s1, f.id, Members(f.business), f.technical);
    StageReflects(w, s2, f.id, Members(f.business) + Members(f.technical), f.sources);
    StageReflects(w, s3, f.id, Members(f.business) + Members(f.technical) + Members(f.sources), f.marts);
    assert {} + Members(f.business) == Members(f.business);
  }

  /** A processed field failed if one of its mappings failed; it completed only if every mapping
      was drafted or already had content, and it is blocked if one is blocked and none failed
      (unless reading or assembling the field raised). */
  ghost predicate ItemReflects(s: State, t: State, f: Field) {
    t.mode.Going? && FieldKey(f.id) !in s.done ==>
      && (HasStatus(t, Mappings(f), Failed) ==> StatusOf(t, f.id) == Some(Failed))
      && (HasStatus(t, Mappings(f), Blocked) ==> StatusOf(t, f.id) in {Some(Failed), Some(Blocked)})
      && (StatusOf(t, f.id) == Some(Completed) ==>
            forall k :: k in Mappings(f) ==> k in t.items && t.items[k] in {Completed, Skipped})
  }

  lemma ConcludeReflects(w: World, s: State, v: State, f: Field)
    requires WellKeyed(f) && (v.mode.Going? ==> Reflects(v, f.id, Mappings(f)))
    ensures ItemReflects(s, Conclude(w, v, f.id), f)
  {
    var t := Conclude(w, v, f.id);
    assert forall k :: k in Mappings(f) ==> !k.FieldKey?;
    assert forall k :: k in Mappings(f) && k in t.items ==> k in v.items && t.items[k] == v.items[k];
    if v.mode.Going? {
      assert HasStatus(t, Mappings(f), Failed) ==> HasStatus(v, Mappings(f), Failed);
      assert HasStatus(t, Mappings(f), Blocked) ==> HasStatus(v, Mappings(f), Blocked);
      forall k | k in Mappings(f) && StatusOf(t, f.id) == Some(Completed)
        ensures k in t.items && t.items[k] in {Completed, Skipped}
      {
        assert k in v.items && !HasStatus(v, Mappings(f), Failed) && !HasStatus(v, Mappings(f), Blocked);
      }
    }
  }

  lemma HandleFieldReflects(w: World, s: State, f: Field)
    requires WellKeyed(f) && DistinctKeys(f) && s.mode.Going? && DoneShared(s.items, s.done)
    requires f.id !in s.failedFields && f.id !in s.blockedFields
    ensures ItemReflects(s, HandleField(w, s, f), f)
  {
    var t := AskCancelled(w, s);
    var u := t.(entered := t.entered + [f.id]);
    if t.mode.Going? && FieldKey(f.id) !in t.done {
      StagesReflect(w, u, f);
      ConcludeReflects(w, s, Assemble(w, Stages(w, u, f)), f);
    }
  }

  /** The item of a field whose processing reached the end, from its mappings and its readiness. */
  lemma FinishedFieldMeans(w: World, s: State, f: Field)
    requires WellKeyed(f) && DistinctKeys(f) && s.mode.Going? && DoneShared(s.items, s.done)
    requires f.id !in s.failedFields && f.id !in s.blockedFields
    ensures var v := Assemble(w, Stages(w, s, f));
            v.mode.Going? ==>
              StatusOf(Conclude(w, v, f.id), f.id) == Some(if HasStatus(v, Mappings(f), Failed) then Failed
                                                           else if HasStatus(v, Mappings(f), Blocked) || !w.approved(v.clock) then Blocked
                                                           else Completed)
  {
    StagesReflect(w, s, f);
  }

  // ---------------------------------------------------------------- every field of an attempt

  ghost predicate FlagsGrowBy(s: State, t: State, f: nat) {
    t.failedFields <= s.failedFields + {f} && t.blockedFields <= s.blockedFields + {f}
  }

  lemma {:induction false} VisitAllFlags(w: World, s: State, f: nat, ks: seq<Key>)
    ensures FlagsGrowBy(s, VisitAll(w, s, f, ks), f)
    decreases |ks|
  {
    if ks != [] {
      assert FlagsGrowBy(s, Visit(w, s, f, ks[0]), f);
      VisitAllFlags(w, Visit(w, s, f, ks[0]), f, ks[1..]);
    }
  }

  lemma StageFlags(w: World, s: State, f: nat, ks: seq<Key>)
    ensures FlagsGrowBy(s, Stage(w, s, f, ks), f)
  {
    VisitAllFlags(w, Tick(w, s), f, ks);
  }

  lemma StagesFlags(w: World, s: State, f: Field)
    ensures FlagsGrowBy(s, Stages(w, s, f), f.id)
  {
    var s1 := Stage(w, s, f.id, f.business);
    var s2 := Stage(w, s1, f.id, f.technical);
    var s3 := Stage(w, s2, f.id, f.sources);
    StageFlags(w, s, f.id, f.business);
    StageFlags(w, s1, f.id, f.technical);
    StageFlags(w, s2, f.id, f.sources);
    StageFlags(w, s3, f.id, f.marts);
  }

  lemma HandleFieldFlags(w: World, s: State, f: Field)
    ensures FlagsGrowBy(s, HandleField(w, s, f), f.id)
  {
    var t := AskCancelled(w, s);
    var u := t.(entered := t.entered + [f.id]);
    StagesFlags(w, u, f);
  }

  /** Every field handled from s on has an item that reflects its mappings when it is written. */
  ghost predicate EachReflects(w: World, s: State, fs: seq<Field>)
    decreases |fs|
  {
    fs == [] || s.mode.Stopped? ||
    (ItemReflects(s, HandleField(w, s, fs[0]), fs[0]) && EachReflects(w, HandleField(w, s, fs[0]), fs[1..]))
  }

  lemma {:induction false} HandleFieldsReflect(w: World, s: State, fs: seq<Field>)
    requires Sound(s, false) && !s.mode.Crashed? && DistinctIds(fs)
    requires forall f :: f in fs ==> WellKeyed(f) && DistinctKeys(f) && f.id !in s.failedFields && f.id !in s.blockedFields
    ensures EachReflects(w, s, fs)
    decreases |fs|
  {
    if fs != [] && s.mode.Going? {
      var t, f := HandleField(w, s, fs[0]), fs[0];
      HandleFieldReflects(w, s, f);
      HandleFieldFlags(w, s, f);
      HandleFieldKeepsSound(w, s, f, false);
      HandleFieldSteps(w, s, f);
      forall g | g in fs[1..]
        ensures g.id !in t.failedFields && g.id !in t.blockedFields && g in fs
      {
        var i :| 0 <= i < |fs[1..]| && fs[1..][i] == g;
        assert fs[i + 1] == g && g.id != f.id;
      }
      HandleFieldsReflect(w, t, fs[1..]);
    }
  }

  /** In every attempt at a job, each field's item agrees with its mappings' items. */
  lemma EveryFieldReflectsItsMappings(content: set<Key>, earlier: seq<Attempt>, a: Attempt)
    requires DistinctIds(a.fields) && forall f :: f in a.fields ==> WellKeyed(f) && DistinctKeys(f)
    ensures EachReflects(a.world, Begin(Retries(NewJob(content), earlier)), a.fields)
  {
    RetriesKeepResumable(NewJob(content), earlier, false);
    HandleFieldsReflect(a.world, Begin(Retries(NewJob(content), earlier)), a.fields);
  }
}
