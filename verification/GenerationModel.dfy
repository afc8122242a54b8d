/**
 The deliverable generation worker of backend/app/api/deliverables.py: one attempt of a job over
 the fields of a package, and any sequence of attempts of the same job.

 What the outside world answers (is the job cancelled, does the generator succeed, is the field
 ready, what did an editor change meanwhile) is asked of a World; every question has its own
 number, so two questions may be answered differently.
 */
module GenerationModel {
  import opened Basics

  datatype Key = PackageKey | FieldKey(field: nat) | Business(mapping: nat) | Technical(mapping: nat)
               | SourceToMart(mapping: nat) | MartToYbt(mapping: nat)

  datatype ItemStatus = Completed | Skipped | Blocked | Failed

  datatype Outcome = Drafted | Refused | Broke

  datatype World = World(cancelled: nat -> bool,
                         crashes: nat -> bool,
                         generate: nat -> Outcome,
                         approved: nat -> bool,
                         edit: (nat, set<Key>) -> set<Key>)

  /** A target field with the mappings its stages visit. */
  datatype Field = Field(id: nat, business: seq<Key>, technical: seq<Key>, sources: seq<Key>, marts: seq<Key>)

  predicate WellKeyed(f: Field) {
    && (forall k :: k in f.business ==> k.Business?)
    && (forall k :: k in f.technical ==> k.Technical?)
    && (forall k :: k in f.sources ==> k.SourceToMart?)
    && (forall k :: k in f.marts ==> k.MartToYbt?)
  }

  datatype Mode = Going | Crashed | Stopped

  /**
   The job's items, the mappings that hold governed content, and the locals of the attempt.
   `generated` lists every successful generation, `entered` every field whose processing began,
   and the ledger tells which generated drafts are still in place; the program keeps none of them.
   */
  datatype State = State(items: map<Key, ItemStatus>,
                         content: set<Key>,
                         generated: seq<Key>,
                         entered: seq<nat>,
                         clock: nat,
                         done: set<Key>,
                         blockedFields: set<nat>,
                         failedFields: set<nat>,
                         tally: Tally,
                         mode: Mode,
                         ledger: Ledger)

  /** The generated drafts that are still in place, and those an edit cleared, as often as it did. */
  datatype Ledger = Ledger(drafts: set<Key>, cleared: multiset<Key>)

  datatype Tally = Tally(success: nat, failed: nat, blocked: nat, skipped: nat)

  predicate IsShared(k: Key) {
    k.SourceToMart? || k.MartToYbt?
  }

  predicate IsCompleted(items: map<Key, ItemStatus>, k: Key) {
    k in items && items[k] == Completed
  }

  function Settle(l: Ledger, content: set<Key>): Ledger {
    Ledger(l.drafts * content, l.cleared + multiset(l.drafts - content))
  }

  /** One question to the world, and the edits made meanwhile. */
  function Tick(w: World, s: State): State {
    var content := w.edit(s.clock, s.content);
    s.(clock := s.clock + 1, content := content, ledger := Settle(s.ledger, content))
  }

  // ---------------------------------------------------------------- one mapping

  /** _run_deliverable_generation with the caller's bookkeeping for field f. */
  function Generate(w: World, s: State, f: nat, k: Key): State {
    var o := w.generate(s.clock);
    match o
    case Drafted =>
      Tick(w, s.(items := s.items[k := Completed], content := s.content + {k}, generated := s.generated + [k],
                 done := if IsShared(k) then s.done + {k} else s.done,
                 ledger := s.ledger.(drafts := s.ledger.drafts + {k})))
    case Refused => Tick(w, s.(items := s.items[k := Blocked], blockedFields := s.blockedFields + {f}))
    case Broke => Tick(w, s.(items := s.items[k := Failed], failedFields := s.failedFields + {f}))
  }

  function Visit(w: World, s: State, f: nat, k: Key): State {
    if IsShared(k) && k in s.done then s
    else if k in s.content then Tick(w, s.(items := s.items[k := Skipped]))
    else Generate(w, s, f, k)
  }

  function VisitAll(w: World, s: State, f: nat, ks: seq<Key>): State
    decreases |ks|
  {
    if ks == [] then s else VisitAll(w, Visit(w, s, f, ks[0]), f, ks[1..])
  }

  // ---------------------------------------------------------------- one field

  function AskCancelled(w: World, s: State): State {
    if w.cancelled(s.clock) then Tick(w, s).(mode := Stopped) else Tick(w, s)
  }

  /** One stage: read the mappings, which may raise, visit them, and ask whether the job is cancelled. */
  function Stage(w: World, s: State, f: nat, ks: seq<Key>): State {
    if !s.mode.Going? then s
    else if w.crashes(s.clock) then Tick(w, s).(mode := Crashed)
    else AskCancelled(w, VisitAll(w, Tick(w, s), f, ks))
  }

  function Stages(w: World, s: State, f: Field): State {
    Stage(w, Stage(w, Stage(w, Stage(w, s, f.id, f.business), f.id, f.technical), f.id, f.sources), f.id, f.marts)
  }

  /** The questions and the readiness of the field, which may raise as well. */
  function Assemble(w: World, s: State): State {
    if s.mode.Going? && w.crashes(s.clock) then Tick(w, s).(mode := Crashed) else s
  }

  /** The status the field's own item gets. */
  function FieldStatus(s: State, f: nat, approved: bool): ItemStatus {
    if f in s.failedFields then Failed
    else if f in s.blockedFields || !approved then Blocked
    else Completed
  }

  function Count(t: Tally, status: ItemStatus): Tally {
    match status
    case Completed => t.(success := t.success + 1)
    case Failed => t.(failed := t.failed + 1)
    case Blocked => t.(blocked := t.blocked + 1)
    case Skipped => t.(skipped := t.skipped + 1)
  }

  function RecordField(s: State, f: nat, status: ItemStatus): State {
    s.(items := s.items[FieldKey(f) := status], tally := Count(s.tally, status))
  }

  function Conclude(w: World, s: State, f: nat): State {
    match s.mode
    case Stopped => s
    case Crashed => RecordField(s.(mode := Going), f, Failed)
    case Going => RecordField(Tick(w, s), f, FieldStatus(s, f, w.approved(s.clock)))
  }

  function Process(w: World, s: State, f: Field): State {
    Conclude(w, Assemble(w, Stages(w, s.(entered := s.entered + [f.id]), f)), f.id)
  }

  function HandleField(w: World, s: State, f: Field): State {
    var t := AskCancelled(w, s);
    if t.mode.Stopped? then t
    else if FieldKey(f.id) in t.done then t.(tally := Count(t.tally, Skipped))
    else Process(w, t, f)
  }

  function HandleFields(w: World, s: State, fs: seq<Field>): State
    decreases |fs|
  {
    if fs == [] || s.mode.Stopped? then s else HandleFields(w, HandleField(w, s, fs[0]), fs[1..])
  }

  // ---------------------------------------------------------------- one attempt

  datatype ScopeCheck = ScopeGranted | ScopeRefused | ScopeBroke

  datatype PackageStatus = Draft | GenerationFailed | Cancelled

  datatype Attempt = Attempt(world: World, scope: ScopeCheck, fields: seq<Field>)

  function CompletedKeys(items: map<Key, ItemStatus>): set<Key> {
    set k | k in items && items[k] == Completed
  }

  /** The locals at the start of an attempt. */
  function Begin(s: State): State {
    s.(done := CompletedKeys(s.items), blockedFields := {}, failedFields := {},
       tally := Tally(0, 0, 0, 0), mode := Going)
  }

  function Run(s: State, a: Attempt): State {
    match a.scope
    case ScopeGranted => HandleFields(a.world, Begin(s), a.fields)
    case ScopeRefused => Begin(s).(items := s.items[PackageKey := Blocked], tally := Tally(0, 0, 1, 0))
    case ScopeBroke => Begin(s).(items := s.items[PackageKey := Failed], tally := Tally(0, 1, 0, 0))
  }

  function FinalStatus(s: State, a: Attempt): PackageStatus {
    match a.scope
    case ScopeRefused => Draft
    case ScopeBroke => GenerationFailed
    case ScopeGranted =>
      if s.mode.Stopped? || a.world.cancelled(s.clock) then Cancelled
      else if s.tally.failed > 0 && s.tally.success == 0 then GenerationFailed
      else Draft
  }

  function Retries(s: State, attempts: seq<Attempt>): State
    decreases |attempts|
  {
    if attempts == [] then s else Retries(Run(s, attempts[0]), attempts[1..])
  }

  function NewJob(content: set<Key>): State {
    State(map[], content, [], [], 0, {}, {}, {}, Tally(0, 0, 0, 0), Going, Ledger({}, multiset{}))
  }
}
