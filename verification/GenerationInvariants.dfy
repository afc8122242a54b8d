/** What the generation worker keeps over every attempt and every sequence of attempts. */
module GenerationInvariants {
  import opened Basics
  import opened GenerationModel

  // ---------------------------------------------------------------- shared mappings

  /** Successful generations of one key. */
  function Times(generated: seq<Key>, k: Key): nat {
    multiset(generated)[k]
  }

  ghost predicate SharedOnce(items: map<Key, ItemStatus>, generated: seq<Key>) {
    forall k: Key :: IsShared(k) ==> Times(generated, k) == if IsCompleted(items, k) then 1 else 0
  }

  /** The attempt's completed set holds the shared mappings that are completed. */
  ghost predicate DoneShared(items: map<Key, ItemStatus>, done: set<Key>) {
    forall k: Key :: IsShared(k) ==> (k in done <==> IsCompleted(items, k))
  }

  function One(b: bool): nat {
    if b then 1 else 0
  }

  /** Every generation of a mapping is either the draft it still holds or one an edit cleared. */
  ghost predicate Accounted(content: set<Key>, generated: seq<Key>, l: Ledger) {
    l.drafts <= content && forall k: Key :: Times(generated, k) == One(k in l.drafts) + l.cleared[k]
  }

  /** Editors add content but never clear it. */
  ghost predicate NeverClears(w: World) {
    forall n: nat, content: set<Key> :: content <= w.edit(n, content)
  }

  ghost predicate Sound(s: State, kept: bool) {
    && SharedOnce(s.items, s.generated) && DoneShared(s.items, s.done)
    && Accounted(s.content, s.generated, s.ledger) && (kept ==> s.ledger.cleared == multiset{})
  }

  lemma TimesAppend(generated: seq<Key>, k: Key)
    ensures forall j: Key :: Times(generated + [k], j) == Times(generated, j) + if j == k then 1 else 0
  {
    assert multiset(generated + [k]) == multiset(generated) + multiset{k};
  }

  lemma TickKeepsSound(w: World, s: State, kept: bool)
    requires Sound(s, kept) && (kept ==> NeverClears(w))
    ensures Sound(Tick(w, s), kept)
  {
    var content := w.edit(s.clock, s.content);
    if kept {
      assert s.content <= content;
      assert s.ledger.drafts - content == {};
    }
    assert forall k :: multiset(s.ledger.drafts - content)[k] == One(k in s.ledger.drafts && k !in content);
  }

  /** A record that is not about a completed shared mapping, and not a completion of one. */
  lemma RecordKeepsSound(items: map<Key, ItemStatus>, done: set<Key>, generated: seq<Key>, k: Key, status: ItemStatus)
    requires SharedOnce(items, generated) && DoneShared(items, done)
    requires IsShared(k) ==> k !in done && status != Completed
    ensures SharedOnce(items[k := status], generated) && DoneShared(items[k := status], done)
  {
  }

  lemma DraftKeepsSound(items: map<Key, ItemStatus>, done: set<Key>, generated: seq<Key>, k: Key)
    requires SharedOnce(items, generated) && DoneShared(items, done) && (IsShared(k) ==> k !in done)
    ensures SharedOnce(items[k := Completed], generated + [k])
    ensures DoneShared(items[k := Completed], if IsShared(k) then done + {k} else done)
  {
    TimesAppend(generated, k);
  }

  lemma GenerateKeepsSound(w: World, s: State, f: nat, k: Key, kept: bool)
    requires Sound(s, kept) && (kept ==> NeverClears(w)) && k !in s.content && (IsShared(k) ==> k !in s.done)
    ensures Sound(Generate(w, s, f, k), kept)
  {
    var items, generated, done := s.items, s.generated, s.done;
    match w.generate(s.clock)
    case Drafted =>
      DraftKeepsSound(items, done, generated, k);
      TimesAppend(generated, k);
      TickKeepsSound(w, s.(items := items[k := Completed], content := s.content + {k}, generated := generated + [k],
                           done := if IsShared(k) then done + {k} else done,
                           ledger := s.ledger.(drafts := s.ledger.drafts + {k})), kept);
    case Refused =>
      RecordKeepsSound(items, done, generated, k, Blocked);
      TickKeepsSound(w, s.(items := items[k := Blocked], blockedFields := s.blockedFields + {f}), kept);
    case Broke =>
      RecordKeepsSound(items, done, generated, k, Failed);
      TickKeepsSound(w, s.(items := items[k := Failed], failedFields := s.failedFields + {f}), kept);
  }

  lemma VisitKeepsSound(w: World, s: State, f: nat, k: Key, kept: bool)
    requires Sound(s, kept) && (kept ==> NeverClears(w))
    ensures Sound(Visit(w, s, f, k), kept)
  {
    if IsShared(k) && k in s.done {
    } else if k in s.content {
      RecordKeepsSound(s.items, s.done, s.generated, k, Skipped);
      TickKeepsSound(w, s.(items := s.items[k := Skipped]), kept);
    } else {
      GenerateKeepsSound(w, s, f, k, kept);
    }
  }

  lemma {:induction false} VisitAllKeepsSound(w: World, s: State, f: nat, ks: seq<Key>, kept: bool)
    requires Sound(s, kept) && (kept ==> NeverClears(w))
    ensures Sound(VisitAll(w, s, f, ks), kept)
    decreases |ks|
  {
    if ks != [] {
      VisitKeepsSound(w, s, f, ks[0], kept);
      VisitAllKeepsSound(w, Visit(w, s, f, ks[0]), f, ks[1..], kept);
    }
  }

  /** Only five fields matter. */
  lemma SameSound(s: State, t: State, kept: bool)
    requires Sound(s, kept)
    requires t.items == s.items && t.generated == s.generated && t.done == s.done && t.content == s.content && t.ledger == s.ledger
    ensures Sound(t, kept)
  {
  }

  lemma AskKeepsSound(w: World, s: State, kept: bool)
    requires Sound(s, kept) && (kept ==> NeverClears(w))
    ensures Sound(AskCancelled(w, s), kept)
  {
    TickKeepsSound(w, s, kept);
    SameSound(Tick(w, s), AskCancelled(w, s), kept);
  }

  lemma StageKeepsSound(w: World, s: State, f: nat, ks: seq<Key>, kept: bool)
    requires Sound(s, kept) && (kept ==> NeverClears(w))
    ensures Sound(Stage(w, s, f, ks), kept)
  {
    if s.mode.Going? {
      TickKeepsSound(w, s, kept);
      if w.crashes(s.clock) {
        SameSound(Tick(w, s), Stage(w, s, f, ks), kept);
      } else {
        VisitAllKeepsSound(w, Tick(w, s), f, ks, kept);
        AskKeepsSound(w, VisitAll(w, Tick(w, s), f, ks), kept);
      }
    }
  }

  lemma StagesKeepSound(w: World, s: State, f: Field, kept: bool)
    requires Sound(s, kept) && (kept ==> NeverClears(w))
    ensures Sound(Stages(w, s, f), kept)
  {
    var s1 := Stage(w, s, f.id, f.business);
    var s2 := Stage(w, s1, f.id, f.technical);
    var s3 := Stage(w, s2, f.id, f.sources);
    StageKeepsSound(w, s, f.id, f.business, kept);
    StageKeepsSound(w, s1, f.id, f.technical, kept);
    StageKeepsSound(w, s2, f.id, f.sources, kept);
    StageKeepsSound(w, s3, f.id, f.marts, kept);
  }

  lemma AssembleKeepsSound(w: World, s: State, kept: bool)
    requires Sound(s, kept) && (kept ==> NeverClears(w))
    ensures Sound(Assemble(w, s), kept)
  {
    TickKeepsSound(w, s, kept);
    if s.mode.Going? && w.crashes(s.clock) {
      SameSound(Tick(w, s), Assemble(w, s), kept);
    }
  }

  lemma RecordFieldKeepsSound(s: State, f: nat, status: ItemStatus, kept: bool)
    requires Sound(s, kept)
    ensures Sound(RecordField(s, f, status), kept)
  {
    RecordKeepsSound(s.items, s.done, s.generated, FieldKey(f), status);
  }

  lemma ConcludeKeepsSound(w: World, s: State, f: nat, kept: bool)
    requires Sound(s, kept) && (kept ==> NeverClears(w))
    ensures Sound(Conclude(w, s, f), kept)
  {
    match s.mode
    case Stopped =>
    case Crashed =>
      SameSound(s, s.(mode := Going), kept);
      RecordFieldKeepsSound(s.(mode := Going), f, Failed, kept);
    case Going =>
      TickKeepsSound(w, s, kept);
      RecordFieldKeepsSound(Tick(w, s), f, FieldStatus(s, f, w.approved(s.clock)), kept);
  }

  lemma ProcessKeepsSound(w: World, s: State, f: Field, kept: bool)
    requires Sound(s, kept) && (kept ==> NeverClears(w))
    ensures Sound(Process(w, s, f), kept)
  {
    var u := s.(entered := s.entered + [f.id]);
    SameSound(s, u, kept);
    StagesKeepSound(w, u, f, kept);
    AssembleKeepsSound(w, Stages(w, u, f), kept);
    ConcludeKeepsSound(w, Assemble(w, Stages(w, u, f)), f.id, kept);
  }

  lemma HandleFieldKeepsSound(w: World, s: State, f: Field, kept: bool)
    requires Sound(s, kept) && (kept ==> NeverClears(w))
    ensures Sound(HandleField(w, s, f), kept)
  {
    var t := AskCancelled(w, s);
    AskKeepsSound(w, s, kept);
    if !t.mode.Stopped? {
      if FieldKey(f.id) in t.done {
        SameSound(t, HandleField(w, s, f), kept);
      } else {
        ProcessKeepsSound(w, t, f, kept);
      }
    }
  }

  lemma {:induction false} HandleFieldsKeepSound(w: World, s: State, fs: seq<Field>, kept: bool)
    requires Sound(s, kept) && (kept ==> NeverClears(w))
    ensures Sound(HandleFields(w, s, fs), kept)
    decreases |fs|
  {
    if fs != [] && !s.mode.Stopped? {
      HandleFieldKeepsSound(w, s, fs[0], kept);
      HandleFieldsKeepSound(w, HandleField(w, s, fs[0]), fs[1..], kept);
    }
  }

  /** What holds between attempts. */
  ghost predicate Resumable(s: State, kept: bool) {
    && SharedOnce(s.items, s.generated)
    && Accounted(s.content, s.generated, s.ledger) && (kept ==> s.ledger.cleared == multiset{})
  }

  lemma RunKeepsResumable(s: State, a: Attempt, kept: bool)
    requires Resumable(s, kept) && (kept ==> NeverClears(a.world))
    ensures Resumable(Run(s, a), kept)
  {
    HandleFieldsKeepSound(a.world, Begin(s), a.fields, kept);
    RecordKeepsSound(s.items, CompletedKeys(s.items), s.generated, PackageKey, Blocked);
    RecordKeepsSound(s.items, CompletedKeys(s.items), s.generated, PackageKey, Failed);
  }

  lemma {:induction false} RetriesKeepResumable(s: State, attempts: seq<Attempt>, kept: bool)
    requires Resumable(s, kept) && forall a :: a in attempts && kept ==> NeverClears(a.world)
    ensures Resumable(Retries(s, attempts), kept)
    decreases |attempts|
  {
    if attempts != [] {
      RunKeepsResumable(s, attempts[0], kept);
      RetriesKeepResumable(Run(s, attempts[0]), attempts[1..], kept);
    }
  }

  /** Over any attempts of a job, whatever editors do meanwhile, a mapping shared by several
      fields is generated successfully at most once, and exactly when its item is completed. */
  lemma SharedMappingsAreGeneratedOnce(content: set<Key>, attempts: seq<Attempt>, k: Key)
    requires k.SourceToMart? || k.MartToYbt?
    ensures var s := Retries(NewJob(content), attempts);
            Times(s.generated, k) <= 1 && (Times(s.generated, k) == 1 <==> IsCompleted(s.items, k))
  {
    RetriesKeepResumable(NewJob(content), attempts, false);
  }

  /** Over any attempts and any edits a mapping, shared or not, is generated once for the draft it
      still holds and once for every draft of it that an edit cleared; so at most once while
      nobody clears content. */
  lemma DraftsAreGeneratedOnce(content: set<Key>, attempts: seq<Attempt>, k: Key)
    ensures var s := Retries(NewJob(content), attempts);
            && Times(s.generated, k) == One(k in s.ledger.drafts) + s.ledger.cleared[k]
            && s.ledger.drafts <= s.content
            && ((forall a :: a in attempts ==> NeverClears(a.world)) ==>
                  Times(s.generated, k) <= 1 && (k in s.generated ==> k in s.content))
  {
    RetriesKeepResumable(NewJob(content), attempts, false);
    if forall a :: a in attempts ==> NeverClears(a.world) {
      RetriesKeepResumable(NewJob(content), attempts, true);
    }
  }

  // ---------------------------------------------------------------- cleared content

  /** A world where everything succeeds, no field is ready and editors clear all content. */
  function Clearing(): World {
    World(n => false, n => false, n => Drafted, n => false, (n, content) => {})
  }

  /** Of two attempts over a field with one business mapping, the second generates it again. */
  lemma ClearedContentIsGeneratedAgain(m: nat)
    ensures var a := Attempt(Clearing(), ScopeGranted, [Field(1, [Business(m)], [], [], [])]);
            Retries(NewJob({}), [a, a]).generated == [Business(m), Business(m)]
  {
    var f := Field(1, [Business(m)], [], [], []);
    var a := Attempt(Clearing(), ScopeGranted, [f]);
    var s := NewJob({});
    ClearedRun(s, m);
    ClearedRun(Run(s, a), m);
    assert [a, a][1..] == [a] && [a][1..] == [];
    assert Retries(s, [a, a]) == Retries(Run(s, a), [a]) == Retries(Run(Run(s, a), a), []);
  }

  lemma ClearedRun(s: State, m: nat)
    requires s.content == {} && s.ledger.drafts == {} && !IsCompleted(s.items, FieldKey(1))
    ensures var t := Run(s, Attempt(Clearing(), ScopeGranted, [Field(1, [Business(m)], [], [], [])]));
            && t.generated == s.generated + [Business(m)] && !IsCompleted(t.items, FieldKey(1))
            && t.content == {} && t.ledger.drafts == {}
  {
    var w, k, f := Clearing(), Business(m), Field(1, [Business(m)], [], [], []);
    var b := AskCancelled(w, Begin(s));
    var u := b.(entered := b.entered + [1]);
    var t := Visit(w, Tick(w, u), 1, k);
    assert [k][1..] == [];
    assert VisitAll(w, Tick(w, u), 1, [k]) == VisitAll(w, t, 1, []) == t;
    var s1 := Stage(w, u, 1, [k]);
    assert s1 == Tick(w, t);
    EmptyStages(w, s1, f);
    assert [f][1..] == [];
    assert HandleFields(w, Begin(s), [f]) == HandleFields(w, HandleField(w, Begin(s), f), []);
  }

  lemma EmptyStages(w: World, s: State, f: Field)
    requires w == Clearing() && s.mode.Going? && s.content == {} && s.ledger.drafts == {}
    ensures var t := Stage(w, Stage(w, Stage(w, s, 1, []), 1, []), 1, []);
            t == s.(clock := s.clock + 6)
  {
  }

  // ---------------------------------------------------------------- completed fields

  ghost predicate WellFormed(a: Attempt) {
    forall f :: f in a.fields ==> WellKeyed(f)
  }

  /** What handling mappings leaves alone: the fields' items, the counters and the visit list. */
  ghost predicate FieldsUntouched(s: State, t: State) {
    && (forall f: nat :: FieldKey(f) in t.items <==> FieldKey(f) in s.items)
    && (forall f: nat :: FieldKey(f) in s.items ==> t.items[FieldKey(f)] == s.items[FieldKey(f)])
    && (forall f: nat :: FieldKey(f) in t.done <==> FieldKey(f) in s.done)
    && t.entered == s.entered
    && t.tally == s.tally
  }

  lemma VisitLeavesFields(w: World, s: State, f: nat, k: Key)
    requires !k.FieldKey?
    ensures FieldsUntouched(s, Visit(w, s, f, k)) && Visit(w, s, f, k).mode == s.mode
  {
  }

  lemma {:induction false} VisitAllLeavesFields(w: World, s: State, f: nat, ks: seq<Key>)
    requires forall k :: k in ks ==> !k.FieldKey?
    ensures FieldsUntouched(s, VisitAll(w, s, f, ks)) && VisitAll(w, s, f, ks).mode == s.mode
    decreases |ks|
  {
    if ks != [] {
      VisitLeavesFields(w, s, f, ks[0]);
      VisitAllLeavesFields(w, Visit(w, s, f, ks[0]), f, ks[1..]);
    }
  }

  lemma StageLeavesFields(w: World, s: State, f: nat, ks: seq<Key>)
    requires forall k :: k in ks ==> !k.FieldKey?
    ensures FieldsUntouched(s, Stage(w, s, f, ks))
  {
    VisitAllLeavesFields(w, Tick(w, s), f, ks);
  }

  lemma StagesLeaveFields(w: World, s: State, f: Field)
    requires WellKeyed(f)
    ensures FieldsUntouched(s, Stages(w, s, f))
  {
    var s1 := Stage(w, s, f.id, f.business);
    var s2 := Stage(w, s1, f.id, f.technical);
    var s3 := Stage(w, s2, f.id, f.sources);
    StageLeavesFields(w, s, f.id, f.business);
    StageLeavesFields(w, s1, f.id, f.technical);
    StageLeavesFields(w, s2, f.id, f.sources);
    StageLeavesFields(w, s3, f.id, f.marts);
  }

  function Handled(t: Tally): nat {
    t.success + t.failed + t.blocked + t.skipped
  }

  function StatusOf(s: State, f: nat): Option<ItemStatus> {
    if FieldKey(f) in s.items then Some(s.items[FieldKey(f)]) else None
  }

  /** What one field adds: a skip if it was completed, else a new status and its counter. */
  ghost predicate FieldCounted(s: State, t: State, f: nat) {
    if FieldKey(f) in s.done then
      t.tally == Count(s.tally, Skipped) && t.entered == s.entered && StatusOf(t, f) == StatusOf(s, f)
    else
      && StatusOf(t, f) in {Some(Completed), Some(Failed), Some(Blocked)}
      && t.tally == Count(s.tally, StatusOf(t, f).value)
      && t.entered == s.entered + [f]
  }

  /** A field the attempt stopped at keeps its item and is not counted. */
  ghost predicate FieldStopped(s: State, t: State, f: nat) {
    && StatusOf(t, f) == StatusOf(s, f)
    && t.tally == s.tally
    && (t.entered == s.entered || (t.entered == s.entered + [f] && FieldKey(f) !in s.done))
  }

  /** One step of the outer loop. */
  ghost predicate FieldStep(s: State, t: State, f: nat) {
    && (forall g: nat :: g != f ==> StatusOf(t, g) == StatusOf(s, g))
    && (forall g: nat :: FieldKey(g) in t.done <==> FieldKey(g) in s.done)
    && !t.mode.Crashed?
    && (t.mode.Going? ==> FieldCounted(s, t, f))
    && (t.mode.Stopped? ==> FieldStopped(s, t, f))
  }

  lemma ConcludeSteps(w: World, s: State, u: State, v: State, f: nat)
    requires FieldsUntouched(u, v) && u.entered == s.entered + [f] && FieldKey(f) !in s.done
    requires u.items == s.items && u.done == s.done && u.tally == s.tally
    ensures FieldStep(s, Conclude(w, v, f), f)
  {
  }

  lemma HandleFieldSteps(w: World, s: State, f: Field)
    requires WellKeyed(f) && s.mode.Going?
    ensures FieldStep(s, HandleField(w, s, f), f.id)
  {
    var t := AskCancelled(w, s);
    var u := t.(entered := t.entered + [f.id]);
    if !t.mode.Stopped? && FieldKey(f.id) !in t.done {
      StagesLeaveFields(w, u, f);
      ConcludeSteps(w, s, u, Assemble(w, Stages(w, u, f)), f.id);
    }
  }

  ghost predicate RestsCompleted(s: State, t: State, f: nat) {
    FieldKey(f) in s.done && IsCompleted(s.items, FieldKey(f)) ==>
      FieldKey(f) in t.done && IsCompleted(t.items, FieldKey(f)) && multiset(t.entered)[f] == multiset(s.entered)[f]
  }

  lemma FieldStepRests(s: State, t: State, g: nat, f: nat)
    requires FieldStep(s, t, g)
    ensures RestsCompleted(s, t, f)
  {
    if FieldKey(f) in s.done && IsCompleted(s.items, FieldKey(f)) {
      assert StatusOf(t, f) == StatusOf(s, f);
      assert t.entered == s.entered || t.entered == s.entered + [g];
      assert multiset(s.entered + [g]) == multiset(s.entered) + multiset{g};
    }
  }

  lemma {:induction false} HandleFieldsRest(w: World, s: State, fs: seq<Field>, f: nat)
    requires s.mode != Crashed && forall g :: g in fs ==> WellKeyed(g)
    ensures RestsCompleted(s, HandleFields(w, s, fs), f)
    decreases |fs|
  {
    if fs != [] && s.mode.Going? {
      HandleFieldSteps(w, s, fs[0]);
      FieldStepRests(s, HandleField(w, s, fs[0]), fs[0].id, f);
      HandleFieldsRest(w, HandleField(w, s, fs[0]), fs[1..], f);
    }
  }

  lemma RunRests(s: State, a: Attempt, f: nat)
    requires IsCompleted(s.items, FieldKey(f)) && WellFormed(a)
    ensures IsCompleted(Run(s, a).items, FieldKey(f)) && multiset(Run(s, a).entered)[f] == multiset(s.entered)[f]
  {
    HandleFieldsRest(a.world, Begin(s), a.fields, f);
  }

  /** A field that is completed after some attempt stays completed and is never processed again. */
  lemma {:induction false} CompletedFieldsRest(s: State, attempts: seq<Attempt>, f: nat)
    requires IsCompleted(s.items, FieldKey(f)) && forall a :: a in attempts ==> WellFormed(a)
    ensures IsCompleted(Retries(s, attempts).items, FieldKey(f))
    ensures multiset(Retries(s, attempts).entered)[f] == multiset(s.entered)[f]
    decreases |attempts|
  {
    if attempts != [] {
      RunRests(s, attempts[0], f);
      CompletedFieldsRest(Run(s, attempts[0]), attempts[1..], f);
    }
  }

  // ---------------------------------------------------------------- the counters

  /** How many of the fields have this status. */
  function CountStatus(s: State, fs: seq<Field>, status: ItemStatus): nat {
    if fs == [] then 0 else One(StatusOf(s, fs[0].id) == Some(status)) + CountStatus(s, fs[1..], status)
  }

  ghost predicate DistinctIds(fs: seq<Field>) {
    forall i, j :: 0 <= i < j < |fs| ==> fs[i].id != fs[j].id
  }

  /** The field is in the completed set exactly when its item is completed. */
  ghost predicate InStep(s: State, fs: seq<Field>) {
    forall f :: f in fs ==> (FieldKey(f.id) in s.done <==> StatusOf(s, f.id) == Some(Completed))
  }

  /** The counters from s to t over the fields, as counts of item statuses; other items stay. */
  ghost predicate Tallied(s: State, t: State, fs: seq<Field>) {
    && Handled(t.tally) - Handled(s.tally) == |fs|
    && t.tally.skipped - s.tally.skipped == CountStatus(s, fs, Completed)
    && t.tally.success - s.tally.success + t.tally.skipped - s.tally.skipped == CountStatus(t, fs, Completed)
    && t.tally.failed - s.tally.failed == CountStatus(t, fs, Failed)
    && t.tally.blocked - s.tally.blocked == CountStatus(t, fs, Blocked)
  }

  ghost predicate OthersStay(s: State, t: State, fs: seq<Field>) {
    forall g: nat :: (forall i :: 0 <= i < |fs| ==> fs[i].id != g) ==> StatusOf(t, g) == StatusOf(s, g)
  }

  lemma {:induction false} CountAgrees(s: State, t: State, fs: seq<Field>, status: ItemStatus)
    requires forall f :: f in fs ==> StatusOf(s, f.id) == StatusOf(t, f.id)
    ensures CountStatus(s, fs, status) == CountStatus(t, fs, status)
  {
    if fs != [] {
      CountAgrees(s, t, fs[1..], status);
    }
  }

  lemma OthersStayStep(s: State, m: State, t: State, fs: seq<Field>)
    requires fs != [] && FieldStep(s, m, fs[0].id) && OthersStay(m, t, fs[1..])
    ensures OthersStay(s, t, fs)
  {
    forall g: nat | forall i :: 0 <= i < |fs| ==> fs[i].id != g
      ensures StatusOf(t, g) == StatusOf(s, g)
    {
      assert fs[0].id != g;
      assert forall i :: 0 <= i < |fs| - 1 ==> fs[1..][i] == fs[i + 1];
    }
  }

  lemma TallyStep(s: State, m: State, t: State, fs: seq<Field>)
    requires fs != [] && DistinctIds(fs) && InStep(s, fs)
    requires FieldStep(s, m, fs[0].id) && m.mode.Going?
    requires Tallied(m, t, fs[1..]) && OthersStay(m, t, fs[1..])
    ensures Tallied(s, t, fs)
  {
    assert StatusOf(t, fs[0].id) == StatusOf(m, fs[0].id) by {
      assert forall i :: 0 <= i < |fs| - 1 ==> fs[1..][i] == fs[i + 1] && fs[i + 1].id != fs[0].id;
    }
    assert fs[0] in fs;
    CountAgrees(s, m, fs[1..], Completed);
  }

  lemma InStepStep(s: State, m: State, fs: seq<Field>)
    requires fs != [] && DistinctIds(fs) && InStep(s, fs) && FieldStep(s, m, fs[0].id)
    ensures InStep(m, fs[1..])
  {
    forall f | f in fs[1..]
      ensures FieldKey(f.id) in m.done <==> StatusOf(m, f.id) == Some(Completed)
    {
      var i :| 0 <= i < |fs[1..]| && fs[1..][i] == f;
      assert fs[i + 1] == f && f.id != fs[0].id;
    }
  }

  /** The first n fields were handled, and all of them unless the attempt stopped. */
  ghost predicate TalliedTo(s: State, t: State, fs: seq<Field>, n: nat) {
    n <= |fs| && Tallied(s, t, fs[..n]) && OthersStay(s, t, fs[..n])
    && !t.mode.Crashed? && (t.mode.Going? ==> n == |fs|)
  }

  lemma TalliedToStep(s: State, m: State, t: State, fs: seq<Field>, n: nat)
    requires fs != [] && DistinctIds(fs) && InStep(s, fs) && FieldStep(s, m, fs[0].id) && m.mode.Going?
    requires TalliedTo(m, t, fs[1..], n)
    ensures TalliedTo(s, t, fs, n + 1)
  {
    var head := fs[..n + 1];
    assert head[1..] == fs[1..][..n] && head[0] == fs[0];
    TallyStep(s, m, t, head);
    OthersStayStep(s, m, t, head);
  }

  lemma {:induction false} HandleFieldsTally(w: World, s: State, fs: seq<Field>) returns (n: nat)
    requires (forall f :: f in fs ==> WellKeyed(f)) && DistinctIds(fs) && InStep(s, fs) && s.mode.Going?
    ensures TalliedTo(s, HandleFields(w, s, fs), fs, n)
    decreases |fs|
  {
    n := 0;
    if fs != [] {
      var m, t := HandleField(w, s, fs[0]), HandleFields(w, s, fs);
      HandleFieldSteps(w, s, fs[0]);
      if m.mode.Going? {
        InStepStep(s, m, fs);
        n := HandleFieldsTally(w, m, fs[1..]);
        TalliedToStep(s, m, t, fs, n);
        n := n + 1;
      }
    }
  }

  /** The four counters add up to the fields handled, all of them unless the job was cancelled,
      and each counter is the number of handled fields that carry its status. */
  lemma CountersMatchItems(s: State, a: Attempt)
    requires a.scope.ScopeGranted? && WellFormed(a) && DistinctIds(a.fields)
    ensures var t := Run(s, a); var n := Handled(t.tally);
            && n <= |a.fields| && (!t.mode.Stopped? ==> n == |a.fields|)
            && t.tally.skipped == CountStatus(s, a.fields[..n], Completed)
            && t.tally.success + t.tally.skipped == CountStatus(t, a.fields[..n], Completed)
            && t.tally.failed == CountStatus(t, a.fields[..n], Failed)
            && t.tally.blocked == CountStatus(t, a.fields[..n], Blocked)
            && forall i :: n <= i < |a.fields| ==> StatusOf(t, a.fields[i].id) == StatusOf(s, a.fields[i].id)
  {
    var n := HandleFieldsTally(a.world, Begin(s), a.fields);
    CountAgrees(s, Begin(s), a.fields[..n], Completed);
  }

  /** An attempt ends in generation_failed exactly when it was not cancelled, some handled field
      failed and no field became completed in it; fields completed earlier do not count. */
  lemma FailedAttemptMeans(s: State, a: Attempt)
    requires a.scope.ScopeGranted? && WellFormed(a) && DistinctIds(a.fields)
    ensures var t := Run(s, a);
            FinalStatus(t, a) == GenerationFailed <==>
              && !t.mode.Stopped? && !a.world.cancelled(t.clock)
              && CountStatus(t, a.fields, Failed) > 0
              && CountStatus(t, a.fields, Completed) == CountStatus(s, a.fields, Completed)
  {
    CountersMatchItems(s, a);
    var t := Run(s, a);
    if !t.mode.Stopped? {
      assert a.fields[..|a.fields|] == a.fields;
    }
  }

  // ---------------------------------------------------------------- a package that is partly done

  /** A world where every field is ready, nobody edits or cancels, and reading a field raises at
      the questions from `from` to `to`. */
  function Raising(from: nat, to: nat): World {
    World(n => false, n => from <= n < to, n => Drafted, n => true, (n, content) => content)
  }

  predicate NoMappings(f: Field) {
    f.business == [] && f.technical == [] && f.sources == [] && f.marts == []
  }

  lemma SettledAlready(l: Ledger, content: set<Key>)
    requires l.drafts <= content
    ensures Settle(l, content) == l
  {
    assert l.drafts - content == {} && l.drafts * content == l.drafts;
  }

  lemma ReadyFieldCompletes(from: nat, to: nat, s: State, f: Field)
    requires NoMappings(f) && s.mode.Going? && FieldKey(f.id) !in s.done && f.id !in s.failedFields && f.id !in s.blockedFields
    requires s.clock + 10 <= from && s.ledger.drafts <= s.content
    ensures HandleField(Raising(from, to), s, f) ==
            RecordField(s.(entered := s.entered + [f.id], clock := s.clock + 10), f.id, Completed)
  {
    var w := Raising(from, to);
    var u := AskCancelled(w, s).(entered := s.entered + [f.id]);
    var s1 := Stage(w, u, f.id, []);
    var s2 := Stage(w, s1, f.id, []);
    var s3 := Stage(w, s2, f.id, []);
    SettledAlready(s.ledger, s.content);
    assert s1 == u.(clock := u.clock + 2);
    assert s2 == s1.(clock := s1.clock + 2);
    assert s3 == s2.(clock := s2.clock + 2);
    assert Stages(w, u, f) == Stage(w, s3, f.id, []) == s3.(clock := s3.clock + 2);
  }

  lemma RaisingFieldFails(from: nat, to: nat, s: State, f: Field)
    requires s.mode.Going? && FieldKey(f.id) !in s.done && from <= s.clock + 1 < to && s.ledger.drafts <= s.content
    ensures HandleField(Raising(from, to), s, f) ==
            RecordField(s.(entered := s.entered + [f.id], clock := s.clock + 2), f.id, Failed)
  {
    var w := Raising(from, to);
    var u := AskCancelled(w, s).(entered := s.entered + [f.id]);
    SettledAlready(s.ledger, s.content);
    assert Stages(w, u, f) == u.(clock := u.clock + 1, mode := Crashed);
  }

  lemma TwoFields(w: World, s: State, f: Field, g: Field)
    requires s.mode.Going? && HandleField(w, s, f).mode.Going?
    ensures HandleFields(w, s, [f, g]) == HandleField(w, HandleField(w, s, f), g)
  {
    assert [f, g][1..] == [g] && [g][1..] == [];
    var t := HandleField(w, s, f);
    assert HandleFields(w, s, [f, g]) == HandleFields(w, t, [g]) == HandleFields(w, HandleField(w, t, g), []);
  }

  lemma FirstOfTwoCompletes(f: Field, g: Field)
    requires NoMappings(f) && f.id == 1 && g.id == 2
    ensures var s := HandleFields(Raising(10, 20), Begin(NewJob({})), [f, g]);
            && s.ledger == Ledger({}, multiset{})
            && s.items == map[FieldKey(1) := Completed, FieldKey(2) := Failed]
            && s.mode.Going? && s.clock == 12 && s.tally == Tally(1, 1, 0, 0)
  {
    var w, s0 := Raising(10, 20), Begin(NewJob({}));
    ReadyFieldCompletes(10, 20, s0, f);
    RaisingFieldFails(10, 20, HandleField(w, s0, f), g);
    TwoFields(w, s0, f, g);
  }

  lemma SecondFailsAgain(s: State, f: Field, g: Field)
    requires f.id == 1 && g.id == 2 && s.items == map[FieldKey(1) := Completed, FieldKey(2) := Failed] && s.clock == 12
    requires s.ledger == Ledger({}, multiset{})
    ensures var t := HandleFields(Raising(0, 100), Begin(s), [f, g]);
            IsCompleted(t.items, FieldKey(1)) && t.mode.Going? && t.tally == Tally(0, 1, 0, 1)
  {
    var w, t0 := Raising(0, 100), Begin(s);
    var t1 := HandleField(w, t0, f);
    assert t1 == t0.(clock := 13, tally := Tally(0, 0, 0, 1));
    RaisingFieldFails(0, 100, t1, g);
    TwoFields(w, t0, f, g);
  }

  /** Of two fields the first attempt completes one and the second attempt fails the other again:
      the package is left as generation_failed, with a completed field. */
  lemma PartlyDonePackageFails() returns (a: Attempt, b: Attempt)
    ensures a.fields == b.fields
    ensures var s := Retries(NewJob({}), [a]); FinalStatus(s, a) == Draft && s.tally == Tally(1, 1, 0, 0)
    ensures var t := Retries(NewJob({}), [a, b]); FinalStatus(t, b) == GenerationFailed && IsCompleted(t.items, FieldKey(1))
  {
    var f, g := Field(1, [], [], [], []), Field(2, [], [], [], []);
    a, b := Attempt(Raising(10, 20), ScopeGranted, [f, g]), Attempt(Raising(0, 100), ScopeGranted, [f, g]);
    FirstOfTwoCompletes(f, g);
    var s := Run(NewJob({}), a);
    SecondFailsAgain(s, f, g);
    assert [a, b][1..] == [b] && [b][1..] == [] && [a][1..] == [];
    assert Retries(NewJob({}), [a]) == Retries(s, []);
    assert Retries(NewJob({}), [a, b]) == Retries(s, [b]) == Retries(Run(s, b), []);
  }
}
