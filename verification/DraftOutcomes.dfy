/** How the world's answers decide an attempt of the draft worker. */
module DraftOutcomes {
  import opened Basics
  import opened DraftModel

  /** The rows that still need a draft, in order. */
  function Pending(prior: map<nat, DraftStatus>, rows: seq<nat>): seq<nat>
    decreases |rows|
  {
    if rows == [] then [] else
    (if rows[0] in prior && prior[rows[0]] == Completed then [] else [rows[0]]) + Pending(prior, rows[1..])
  }

  lemma {:induction false} PendingHolds(prior: map<nat, DraftStatus>, rows: seq<nat>, r: nat)
    ensures r in Pending(prior, rows) <==> r in rows && !(r in prior && prior[r] == Completed)
    decreases |rows|
  {
    if rows != [] {
      PendingHolds(prior, rows[1..], r);
      assert rows == [rows[0]] + rows[1..];
    }
  }

  /** How many of n pending rows are drafted: each takes two questions, the first of them whether
      the job is cancelled. */
  function Reached(w: DraftWorld, clock: nat, n: nat): (k: nat)
    ensures k <= n
    decreases n
  {
    if n == 0 || w.cancelled(clock) then 0 else 1 + Reached(w, clock + 2, n - 1)
  }

  /** Those before the first yes. */
  lemma {:induction false} ReachedMeans(w: DraftWorld, clock: nat, n: nat)
    ensures var k := Reached(w, clock, n);
      && (forall j: nat :: j < k ==> !w.cancelled(clock + 2 * j))
      && (k < n ==> w.cancelled(clock + 2 * k))
    decreases n
  {
    if n > 0 && !w.cancelled(clock) {
      ReachedMeans(w, clock + 2, n - 1);
      forall j: nat | j < Reached(w, clock, n) ensures !w.cancelled(clock + 2 * j) {
        if j > 0 {
          var i: nat := j - 1;
          assert clock + 2 + 2 * i == clock + 2 * j;
        }
      }
    }
  }

  /** The item a generator's answer leaves. */
  function ItemOf(o: DraftOutcome): DraftStatus {
    match o
    case Generated => Completed
    case Refused => Blocked
    case Broke => Failed
    case Unrecorded => Failed
  }

  /** The rows among these for which the generator gave such an answer. */
  function Answered(w: DraftWorld, clock: nat, rows: seq<nat>, answers: set<DraftOutcome>): seq<nat>
    decreases |rows|
  {
    if rows == [] then [] else
    (if w.generate(clock + 1) in answers then [rows[0]] else []) + Answered(w, clock + 2, rows[1..], answers)
  }

  /** The rows an attempt drafts: the pending ones before the first yes. */
  function Drafted(w: DraftWorld, clock: nat, prior: map<nat, DraftStatus>, rows: seq<nat>): seq<nat> {
    var pending := Pending(prior, rows);
    pending[..Reached(w, clock, |pending|)]
  }

  lemma DraftedStep(w: DraftWorld, clock: nat, prior: map<nat, DraftStatus>, rows: seq<nat>)
    requires rows != []
    ensures Drafted(w, clock, prior, rows) ==
      if rows[0] in prior && prior[rows[0]] == Completed then Drafted(w, clock, prior, rows[1..])
      else if w.cancelled(clock) then []
      else [rows[0]] + Drafted(w, clock + 2, prior, rows[1..])
  {
    var rest := Pending(prior, rows[1..]);
    if rows[0] in prior && prior[rows[0]] == Completed {
      assert Pending(prior, rows) == rest;
    } else {
      assert Pending(prior, rows) == [rows[0]] + rest;
    }
  }

  /** Each drafted row has the item of its own answer, and no other item has changed. */
  ghost predicate ItemsFollow(w: DraftWorld, clock: nat, before: map<nat, DraftStatus>, after: map<nat, DraftStatus>, drafted: seq<nat>) {
    && (forall j :: 0 <= j < |drafted| ==> drafted[j] in after && after[drafted[j]] == ItemOf(w.generate(clock + 2 * j + 1)))
    && (forall r: nat :: r !in drafted ==> SameItem(before, after, r))
  }

  ghost predicate ListsFollow(w: DraftWorld, s: Job, t: Job, drafted: seq<nat>) {
    && t.generated == s.generated + Answered(w, s.clock, drafted, {Generated, Unrecorded})
    && t.lost == s.lost + Answered(w, s.clock, drafted, {Unrecorded})
  }

  lemma ItemsStep(w: DraftWorld, clock: nat, before: map<nat, DraftStatus>, after: map<nat, DraftStatus>, r: nat, rest: seq<nat>)
    requires r !in rest && ItemsFollow(w, clock + 2, before[r := ItemOf(w.generate(clock + 1))], after, rest)
    ensures ItemsFollow(w, clock, before, after, [r] + rest)
  {
    var drafted := [r] + rest;
    forall j | 0 <= j < |drafted| ensures drafted[j] in after && after[drafted[j]] == ItemOf(w.generate(clock + 2 * j + 1)) {
      if j > 0 {
        assert rest[j - 1] == drafted[j] && clock + 2 + 2 * (j - 1) + 1 == clock + 2 * j + 1;
      } else {
        assert SameItem(before[r := ItemOf(w.generate(clock + 1))], after, r);
      }
    }
    forall q: nat | q !in drafted ensures SameItem(before, after, q) {
      assert q != r && q !in rest;
    }
  }

  lemma RowDrafted(w: DraftWorld, s: Job, prior: map<nat, DraftStatus>, r: nat)
    requires !(r in prior && prior[r] == Completed) && !w.cancelled(s.clock)
    ensures var t := HandleRow(w, s, prior, r);
      && t.items == s.items[r := ItemOf(w.generate(s.clock + 1))] && t.clock == s.clock + 2 && t.stopped == s.stopped
      && t.generated == (if w.generate(s.clock + 1) in {Generated, Unrecorded} then s.generated + [r] else s.generated)
      && t.lost == (if w.generate(s.clock + 1) == Unrecorded then s.lost + [r] else s.lost)
  {
  }

  lemma ListsStep(w: DraftWorld, s: Job, prior: map<nat, DraftStatus>, t: Job, r: nat, rest: seq<nat>)
    requires !(r in prior && prior[r] == Completed) && !w.cancelled(s.clock)
    requires ListsFollow(w, HandleRow(w, s, prior, r), t, rest)
    ensures ListsFollow(w, s, t, [r] + rest)
  {
    RowDrafted(w, s, prior, r);
    assert ([r] + rest)[1..] == rest;
  }

  lemma DraftedAmong(w: DraftWorld, clock: nat, prior: map<nat, DraftStatus>, rows: seq<nat>, r: nat)
    requires r !in rows
    ensures r !in Drafted(w, clock, prior, rows)
  {
    PendingHolds(prior, rows, r);
  }

  lemma {:induction false} RowsStop(w: DraftWorld, s: Job, prior: map<nat, DraftStatus>, rows: seq<nat>)
    requires !s.stopped
    ensures var t, drafted := HandleRows(w, s, prior, rows), Drafted(w, s.clock, prior, rows);
      && (t.stopped <==> |drafted| < |Pending(prior, rows)|)
      && t.clock == s.clock + 2 * |drafted| + if t.stopped then 1 else 0
    decreases |rows|
  {
    if rows != [] {
      var m := HandleRow(w, s, prior, rows[0]);
      DraftedStep(w, s.clock, prior, rows);
      if !m.stopped {
        RowsStop(w, m, prior, rows[1..]);
      }
    }
  }

  lemma {:induction false} RowsLists(w: DraftWorld, s: Job, prior: map<nat, DraftStatus>, rows: seq<nat>)
    requires !s.stopped
    ensures ListsFollow(w, s, HandleRows(w, s, prior, rows), Drafted(w, s.clock, prior, rows))
    decreases |rows|
  {
    if rows != [] {
      var m, rest := HandleRow(w, s, prior, rows[0]), rows[1..];
      DraftedStep(w, s.clock, prior, rows);
      if !m.stopped {
        RowsLists(w, m, prior, rest);
      }
      if !(rows[0] in prior && prior[rows[0]] == Completed) && !w.cancelled(s.clock) {
        RowDrafted(w, s, prior, rows[0]);
        ListsStep(w, s, prior, HandleRows(w, m, prior, rest), rows[0], Drafted(w, s.clock + 2, prior, rest));
      }
    }
  }

  /** The loop of an attempt: it drafts its pending rows in order until it is cancelled, each gets
      the item of the generator's answer, and no other item changes. */
  lemma {:induction false} RowsItems(w: DraftWorld, s: Job, prior: map<nat, DraftStatus>, rows: seq<nat>)
    requires Distinct(rows) && !s.stopped
    ensures ItemsFollow(w, s.clock, s.items, HandleRows(w, s, prior, rows).items, Drafted(w, s.clock, prior, rows))
    decreases |rows|
  {
    if rows != [] {
      var m, rest := HandleRow(w, s, prior, rows[0]), rows[1..];
      DraftedStep(w, s.clock, prior, rows);
      if !m.stopped {
        RowsItems(w, m, prior, rest);
      }
      if !(rows[0] in prior && prior[rows[0]] == Completed) && !w.cancelled(s.clock) {
        RowDrafted(w, s, prior, rows[0]);
        DraftedAmong(w, s.clock + 2, prior, rest, rows[0]);
        ItemsStep(w, s.clock, s.items, HandleRows(w, m, prior, rest).items, rows[0], Drafted(w, s.clock + 2, prior, rest));
      }
    }
  }

  /** One attempt of a job whose scope check passed: its pending rows are drafted in order up to the
      first yes, row j with question 2j + 1 of the attempt; it stops exactly if there is a yes. */
  lemma AttemptOutcome(s: Job, a: DraftAttempt)
    requires a.scope.Authorized? && Distinct(a.rows)
    ensures var t, w, pending, drafted := Run(s, a), a.world, Pending(s.items, a.rows), Drafted(a.world, s.clock, s.items, a.rows);
      && ItemsFollow(w, s.clock, s.items, t.items, drafted) && ListsFollow(w, s, t, drafted)
      && drafted <= pending && (t.stopped <==> drafted != pending)
      && (forall j: nat :: j < |drafted| ==> !w.cancelled(s.clock + 2 * j))
      && (t.stopped ==> w.cancelled(s.clock + 2 * |drafted|))
      && t.clock == s.clock + 2 * |drafted| + if t.stopped then 1 else 0
  {
    RowsStop(a.world, Begin(s), s.items, a.rows);
    RowsLists(a.world, Begin(s), s.items, a.rows);
    RowsItems(a.world, Begin(s), s.items, a.rows);
    ReachedMeans(a.world, s.clock, |Pending(s.items, a.rows)|);
  }

  /** One whose check fails writes over every row and drafts none. */
  lemma RefusedOutcome(s: Job, a: DraftAttempt)
    requires !a.scope.Authorized?
    ensures var t, status := Run(s, a), if a.scope.Denied? then Blocked else Failed;
      && (forall r: nat :: r in a.rows ==> r in t.items && t.items[r] == status)
      && (forall r: nat :: r !in a.rows ==> SameItem(s.items, t.items, r))
      && t.generated == s.generated && t.lost == s.lost && !t.stopped
      && t.success == 0 && t.blocked == (if a.scope.Denied? then |a.rows| else 0) && t.failed == (if a.scope.Denied? then 0 else |a.rows|)
  {
    OverwriteMeans(s.items, a.rows, if a.scope.Denied? then Blocked else Failed);
  }
}
