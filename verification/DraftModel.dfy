/**
 The batch draft worker of backend/app/api/jobs.py: one attempt of a job over the selected rows
 and any sequence of attempts. Its counters are loop locals; `generated` and `lost` are lists the
 program does not keep.
 */
module DraftModel {
  import opened Basics

  datatype DraftStatus = Completed | Blocked | Failed

  /** Unrecorded: the draft was generated, and recording that raised. */
  datatype DraftOutcome = Generated | Refused | Broke | Unrecorded

  datatype DraftWorld = DraftWorld(cancelled: nat -> bool, generate: nat -> DraftOutcome)

  datatype Job = Job(items: map<nat, DraftStatus>, generated: seq<nat>, lost: seq<nat>, clock: nat,
                     success: nat, blocked: nat, failed: nat, stopped: bool)

  datatype ScopeResult = Authorized | Denied | Faulty

  datatype DraftAttempt = DraftAttempt(world: DraftWorld, scope: ScopeResult, rows: seq<nat>)

  predicate IsCompleted(items: map<nat, DraftStatus>, r: nat) {
    r in items && items[r] == Completed
  }

  function GenerateRow(w: DraftWorld, s: Job, r: nat): Job {
    var t := s.(clock := s.clock + 1);
    match w.generate(s.clock)
    case Generated => t.(items := s.items[r := Completed], generated := s.generated + [r], success := s.success + 1)
    case Refused => t.(items := s.items[r := Blocked], blocked := s.blocked + 1)
    case Broke => t.(items := s.items[r := Failed], failed := s.failed + 1)
    case Unrecorded =>
      t.(items := s.items[r := Failed], generated := s.generated + [r], lost := s.lost + [r],
         success := s.success + 1, failed := s.failed + 1)
  }

  function HandleRow(w: DraftWorld, s: Job, prior: map<nat, DraftStatus>, r: nat): Job {
    if IsCompleted(prior, r) then s.(success := s.success + 1)
    else if w.cancelled(s.clock) then s.(clock := s.clock + 1, stopped := true)
    else GenerateRow(w, s.(clock := s.clock + 1), r)
  }

  function HandleRows(w: DraftWorld, s: Job, prior: map<nat, DraftStatus>, rows: seq<nat>): Job
    decreases |rows|
  {
    if rows == [] || s.stopped then s else HandleRows(w, HandleRow(w, s, prior, rows[0]), prior, rows[1..])
  }

  /** A refused scope is written over the item of every row. */
  function Overwrite(items: map<nat, DraftStatus>, rows: seq<nat>, status: DraftStatus): map<nat, DraftStatus>
    decreases |rows|
  {
    if rows == [] then items else Overwrite(items[rows[0] := status], rows[1..], status)
  }

  function Begin(s: Job): Job {
    s.(success := 0, blocked := 0, failed := 0, stopped := false)
  }

  function Run(s: Job, a: DraftAttempt): Job {
    match a.scope
    case Authorized => HandleRows(a.world, Begin(s), s.items, a.rows)
    case Denied => Begin(s).(items := Overwrite(s.items, a.rows, Blocked), blocked := |a.rows|)
    case Faulty => Begin(s).(items := Overwrite(s.items, a.rows, Failed), failed := |a.rows|)
  }

  function Retries(s: Job, attempts: seq<DraftAttempt>): Job
    decreases |attempts|
  {
    if attempts == [] then s else Retries(Run(s, attempts[0]), attempts[1..])
  }

  function NewJob(): Job {
    Job(map[], [], [], 0, 0, 0, 0, false)
  }

  // ---------------------------------------------------------------- the counters of one attempt

  function One(b: bool): nat {
    if b then 1 else 0
  }

  function CountStatus(items: map<nat, DraftStatus>, rows: seq<nat>, status: DraftStatus): nat
    decreases |rows|
  {
    if rows == [] then 0 else One(rows[0] in items && items[rows[0]] == status) + CountStatus(items, rows[1..], status)
  }

  function Lost(s: Job, t: Job): int {
    |t.lost| - |s.lost|
  }

  ghost predicate SameItem(a: map<nat, DraftStatus>, b: map<nat, DraftStatus>, r: nat) {
    (r in a <==> r in b) && (r in a ==> a[r] == b[r])
  }

  /** Over these visited rows the counters are the item statuses, but a lost record counts twice. */
  ghost predicate Tallied(s: Job, t: Job, rows: seq<nat>) {
    && t.success - s.success == CountStatus(t.items, rows, Completed) + Lost(s, t)
    && t.blocked - s.blocked == CountStatus(t.items, rows, Blocked)
    && t.failed - s.failed == CountStatus(t.items, rows, Failed)
    && (t.success - s.success) + (t.blocked - s.blocked) + (t.failed - s.failed) == |rows| + Lost(s, t)
    && Lost(s, t) >= 0
  }

  ghost predicate OthersStay(s: Job, t: Job, rows: seq<nat>) {
    forall r: nat :: r !in rows ==> SameItem(s.items, t.items, r)
  }

  /** What one visited row adds. */
  ghost predicate RowStep(s: Job, t: Job, r: nat) {
    && Tallied(s, t, [r]) && OthersStay(s, t, [r])
  }

  lemma HandleRowSteps(w: DraftWorld, s: Job, prior: map<nat, DraftStatus>, r: nat)
    requires SameItem(prior, s.items, r) && !s.stopped
    ensures var t := HandleRow(w, s, prior, r);
            if t.stopped then t == s.(clock := t.clock, stopped := true) else RowStep(s, t, r)
  {
  }

  lemma TallyStep(s: Job, m: Job, t: Job, rows: seq<nat>)
    requires rows != [] && Distinct(rows) && RowStep(s, m, rows[0])
    requires Tallied(m, t, rows[1..]) && OthersStay(m, t, rows[1..])
    ensures Tallied(s, t, rows) && OthersStay(s, t, rows)
  {
    var x := rows[0];
    assert x !in rows[1..];
    assert SameItem(m.items, t.items, x);
    assert forall status :: CountStatus(m.items, [x], status) == One(x in t.items && t.items[x] == status) by {
      assert [x][1..] == [];
    }
    forall r: nat | r !in rows
      ensures SameItem(s.items, t.items, r)
    {
      assert r !in [x] && r !in rows[1..];
    }
  }

  /** The first n rows were visited, and all of them unless the attempt stopped. */
  ghost predicate TalliedTo(s: Job, t: Job, rows: seq<nat>, n: nat) {
    n <= |rows| && (t.stopped || n == |rows|) && Tallied(s, t, rows[..n]) && OthersStay(s, t, rows[..n])
  }

  lemma TalliedToStep(s: Job, m: Job, t: Job, rows: seq<nat>, n: nat)
    requires rows != [] && Distinct(rows) && RowStep(s, m, rows[0]) && TalliedTo(m, t, rows[1..], n)
    ensures TalliedTo(s, t, rows, n + 1)
  {
    var head := rows[..n + 1];
    assert head[1..] == rows[1..][..n] && head[0] == rows[0];
    TallyStep(s, m, t, head);
  }

  lemma RestUntouched(s: Job, m: Job, prior: map<nat, DraftStatus>, rows: seq<nat>)
    requires rows != [] && Distinct(rows) && RowStep(s, m, rows[0]) && forall r :: r in rows ==> SameItem(prior, s.items, r)
    ensures Distinct(rows[1..]) && forall r :: r in rows[1..] ==> SameItem(prior, m.items, r)
  {
    assert forall r :: r in rows[1..] ==> r in rows && r !in [rows[0]];
  }

  lemma NoneVisited(s: Job, t: Job, rows: seq<nat>)
    requires t == s.(clock := t.clock, stopped := t.stopped) && (t.stopped || rows == [])
    ensures TalliedTo(s, t, rows, 0)
  {
    assert rows[..0] == [];
  }

  lemma {:induction false} HandleRowsTally(w: DraftWorld, s: Job, prior: map<nat, DraftStatus>, rows: seq<nat>) returns (n: nat)
    requires Distinct(rows) && !s.stopped && forall r :: r in rows ==> SameItem(prior, s.items, r)
    ensures TalliedTo(s, HandleRows(w, s, prior, rows), rows, n)
    decreases |rows|
  {
    n := 0;
    if rows == [] {
      NoneVisited(s, s, rows);
    } else {
      var m, rest := HandleRow(w, s, prior, rows[0]), rows[1..];
      HandleRowSteps(w, s, prior, rows[0]);
      if m.stopped {
        NoneVisited(s, m, rows);
      } else {
        RestUntouched(s, m, prior, rows);
        var k := HandleRowsTally(w, m, prior, rest);
        TalliedToStep(s, m, HandleRows(w, m, prior, rest), rows, k);
        n := k + 1;
      }
    }
  }

  lemma {:induction false} OverwriteMeans(items: map<nat, DraftStatus>, rows: seq<nat>, status: DraftStatus)
    ensures forall r: nat :: r in rows ==> r in Overwrite(items, rows, status) && Overwrite(items, rows, status)[r] == status
    ensures forall r: nat :: r !in rows ==> SameItem(items, Overwrite(items, rows, status), r)
    decreases |rows|
  {
    if rows != [] {
      OverwriteMeans(items[rows[0] := status], rows[1..], status);
      assert rows == [rows[0]] + rows[1..];
    }
  }

  lemma {:induction false} CountAll(items: map<nat, DraftStatus>, rows: seq<nat>, status: DraftStatus)
    requires forall r :: r in rows ==> r in items && items[r] == status
    ensures forall other :: CountStatus(items, rows, other) == if other == status then |rows| else 0
    decreases |rows|
  {
    if rows != [] {
      CountAll(items, rows[1..], status);
    }
  }

  /** Each counter of an attempt is the number of visited rows whose item carries its status, all
      rows being visited unless the job was cancelled; success alone is too high, by the number
      of drafts whose record was lost. */
  lemma CountersMatchItems(s: Job, a: DraftAttempt) returns (visited: nat)
    requires Distinct(a.rows)
    ensures var t := Run(s, a);
            && visited <= |a.rows| && (t.stopped || visited == |a.rows|)
            && t.success == CountStatus(t.items, a.rows[..visited], Completed) + Lost(s, t)
            && t.blocked == CountStatus(t.items, a.rows[..visited], Blocked)
            && t.failed == CountStatus(t.items, a.rows[..visited], Failed)
            && t.success + t.blocked + t.failed == visited + Lost(s, t)
            && forall r: nat :: r !in a.rows[..visited] ==> SameItem(s.items, t.items, r)
  {
    assert a.rows[..|a.rows|] == a.rows;
    match a.scope
    case Authorized =>
      visited := HandleRowsTally(a.world, Begin(s), s.items, a.rows);
    case Denied =>
      visited := |a.rows|;
      OverwriteMeans(s.items, a.rows, Blocked);
      CountAll(Run(s, a).items, a.rows, Blocked);
    case Faulty =>
      visited := |a.rows|;
      OverwriteMeans(s.items, a.rows, Failed);
      CountAll(Run(s, a).items, a.rows, Failed);
  }

  // ---------------------------------------------------------------- completed rows over retries

  ghost predicate CompletedGrow(s: Job, t: Job) {
    forall r: nat :: IsCompleted(s.items, r) ==> IsCompleted(t.items, r)
  }

  lemma {:induction false} HandleRowsGrow(w: DraftWorld, s: Job, prior: map<nat, DraftStatus>, rows: seq<nat>)
    requires forall r: nat :: IsCompleted(s.items, r) && r in rows ==> IsCompleted(prior, r)
    requires Distinct(rows)
    ensures CompletedGrow(s, HandleRows(w, s, prior, rows))
    decreases |rows|
  {
    if rows != [] && !s.stopped {
      var m := HandleRow(w, s, prior, rows[0]);
      assert CompletedGrow(s, m);
      assert rows == [rows[0]] + rows[1..] && rows[0] !in rows[1..];
      HandleRowsGrow(w, m, prior, rows[1..]);
    }
  }

  /** An attempt keeps every completed item exactly when its scope check passes or none of its
      rows was completed. */
  lemma CompletedItemsStay(s: Job, a: DraftAttempt)
    requires Distinct(a.rows)
    ensures CompletedGrow(s, Run(s, a)) <==> a.scope.Authorized? || forall r :: r in a.rows ==> !IsCompleted(s.items, r)
  {
    match a.scope
    case Authorized => HandleRowsGrow(a.world, Begin(s), s.items, a.rows);
    case Denied => OverwriteMeans(s.items, a.rows, Blocked);
    case Faulty => OverwriteMeans(s.items, a.rows, Failed);
  }

  /** How often a failed scope check wrote over the completed item of this row. */
  function Overwrites(s: Job, attempts: seq<DraftAttempt>, r: nat): nat
    decreases |attempts|
  {
    if attempts == [] then 0 else
    One(!attempts[0].scope.Authorized? && r in attempts[0].rows && IsCompleted(s.items, r))
      + Overwrites(Run(s, attempts[0]), attempts[1..], r)
  }

  function Times(list: seq<nat>, r: nat): nat {
    multiset(list)[r]
  }

  lemma TimesAppend(list: seq<nat>, r: nat)
    ensures forall q: nat :: Times(list + [r], q) == Times(list, q) + One(q == r)
  {
    assert multiset(list + [r]) == multiset(list) + multiset{r};
  }

  /** Generations of r that were not lost, and one more if r may still be generated. */
  function Budget(s: Job, r: nat): int {
    Spent(s.items, s.generated, s.lost, r)
  }

  function Spent(items: map<nat, DraftStatus>, generated: seq<nat>, lost: seq<nat>, r: nat): int {
    Times(generated, r) - Times(lost, r) + One(!IsCompleted(items, r))
  }

  lemma SpentSteps(items: map<nat, DraftStatus>, generated: seq<nat>, lost: seq<nat>, x: nat, r: nat)
    requires !IsCompleted(items, x)
    ensures Spent(items[x := Completed], generated + [x], lost, r) == Spent(items, generated, lost, r)
    ensures Spent(items[x := Blocked], generated, lost, r) == Spent(items, generated, lost, r)
    ensures Spent(items[x := Failed], generated, lost, r) == Spent(items, generated, lost, r)
    ensures Spent(items[x := Failed], generated + [x], lost + [x], r) == Spent(items, generated, lost, r)
  {
    TimesAppend(generated, x);
    TimesAppend(lost, x);
  }

  lemma HandleRowBudget(w: DraftWorld, s: Job, prior: map<nat, DraftStatus>, x: nat, r: nat)
    requires SameItem(prior, s.items, x)
    ensures Budget(HandleRow(w, s, prior, x), r) == Budget(s, r)
  {
    if !IsCompleted(s.items, x) {
      SpentSteps(s.items, s.generated, s.lost, x, r);
    }
  }

  lemma {:induction false} HandleRowsBudget(w: DraftWorld, s: Job, prior: map<nat, DraftStatus>, rows: seq<nat>, r: nat)
    requires Distinct(rows) && forall x :: x in rows ==> SameItem(prior, s.items, x)
    ensures Budget(HandleRows(w, s, prior, rows), r) == Budget(s, r)
    decreases |rows|
  {
    if rows != [] && !s.stopped {
      HandleRowBudget(w, s, prior, rows[0], r);
      HandleRowSteps(w, s, prior, rows[0]);
      assert forall x :: x in rows[1..] ==> x in rows && x !in [rows[0]];
      HandleRowsBudget(w, HandleRow(w, s, prior, rows[0]), prior, rows[1..], r);
    }
  }

  lemma RunBudget(s: Job, a: DraftAttempt, r: nat)
    requires Distinct(a.rows)
    ensures Budget(Run(s, a), r) == Budget(s, r) + One(!a.scope.Authorized? && r in a.rows && IsCompleted(s.items, r))
  {
    match a.scope
    case Authorized => HandleRowsBudget(a.world, Begin(s), s.items, a.rows, r);
    case Denied => OverwriteMeans(s.items, a.rows, Blocked);
    case Faulty => OverwriteMeans(s.items, a.rows, Failed);
  }

  lemma {:induction false} RetriesBudget(s: Job, attempts: seq<DraftAttempt>, r: nat)
    requires forall a :: a in attempts ==> Distinct(a.rows)
    ensures Budget(Retries(s, attempts), r) == Budget(s, r) + Overwrites(s, attempts, r)
    decreases |attempts|
  {
    if attempts != [] {
      RunBudget(s, attempts[0], r);
      RetriesBudget(Run(s, attempts[0]), attempts[1..], r);
    }
  }

  /** Over any attempts a row is generated once, less one while it is not completed, and once more
      for every completed item a failed scope check wrote over and every record that was lost. */
  lemma RowsAreGeneratedOnce(attempts: seq<DraftAttempt>, r: nat)
    requires forall a :: a in attempts ==> Distinct(a.rows)
    ensures var s := Retries(NewJob(), attempts);
            Times(s.generated, r) + One(!IsCompleted(s.items, r)) == 1 + Overwrites(NewJob(), attempts, r) + Times(s.lost, r)
  {
    RetriesBudget(NewJob(), attempts, r);
  }

  /** So a failed scope check between two attempts makes a completed row be generated again. */
  lemma FailedScopeGeneratesAgain(r: nat)
    ensures var w := DraftWorld(n => false, n => Generated);
            var run := DraftAttempt(w, Authorized, [r]);
            Retries(NewJob(), [run, DraftAttempt(w, Denied, [r]), run]).generated == [r, r]
  {
    var w := DraftWorld(n => false, n => Generated);
    var run, denied := DraftAttempt(w, Authorized, [r]), DraftAttempt(w, Denied, [r]);
    GenerateOne(NewJob(), w, r);
    var s1 := Run(NewJob(), run);
    var s2 := Run(s1, denied);
    OverwriteMeans(s1.items, [r], Blocked);
    GenerateOne(s2, w, r);
    assert [run, denied, run][1..] == [denied, run] && [denied, run][1..] == [run] && [run][1..] == [];
    assert Retries(NewJob(), [run, denied, run]) == Retries(s1, [denied, run]) == Retries(s2, [run]) == Retries(Run(s2, run), []);
  }

  lemma GenerateOne(s: Job, w: DraftWorld, r: nat)
    requires w == DraftWorld(n => false, n => Generated) && !IsCompleted(s.items, r)
    ensures Run(s, DraftAttempt(w, Authorized, [r])).generated == s.generated + [r]
  {
    assert [r][1..] == [];
    var t := HandleRow(w, Begin(s), s.items, r);
    assert HandleRows(w, Begin(s), s.items, [r]) == HandleRows(w, t, s.items, []);
  }
}
