/**
 Keys made by printing several values into one string: the scope key of
 backend/alembic/versions/202609100023_snapshot_scope_key.py and the review submission payload
 of backend/app/api/deliverables.py.
 */
module PrintedKeys {
  import opened Basics

  // ---------------------------------------------------------------- printed integers

  function Digit(d: nat): char
    requires d < 10
  {
    "0123456789"[d]
  }

  function Digits(n: nat): (s: string)
    ensures s != [] && forall i :: 0 <= i < |s| ==> '0' <= s[i] <= '9'
    ensures n < 10 <==> |s| == 1
  {
    if n < 10 then [Digit(n)] else Digits(n / 10) + [Digit(n % 10)]
  }

  function Print(i: int): string {
    if i < 0 then ['-'] + Digits(-i) else Digits(i)
  }

  lemma DigitInjective(a: nat, b: nat)
    requires a < 10 && b < 10 && Digit(a) == Digit(b)
    ensures a == b
  {
  }

  lemma {:induction false} DigitsInjective(a: nat, b: nat)
    requires Digits(a) == Digits(b)
    ensures a == b
    decreases a
  {
    var s, t := Digits(a), Digits(b);
    if a < 10 && b < 10 {
      DigitInjective(a, b);
    } else if a >= 10 && b >= 10 {
      assert s[|s| - 1] == Digit(a % 10) && t[|t| - 1] == Digit(b % 10);
      assert s[..|s| - 1] == Digits(a / 10) && t[..|t| - 1] == Digits(b / 10);
      DigitInjective(a % 10, b % 10);
      DigitsInjective(a / 10, b / 10);
    }
  }

  lemma PrintInjective(a: int, b: int)
    requires Print(a) == Print(b)
    ensures a == b
  {
    assert a >= 0 ==> '0' <= Print(a)[0] <= '9';
    assert b >= 0 ==> '0' <= Print(b)[0] <= '9';
    if a < 0 && b < 0 {
      assert Print(a)[1..] == Digits(-a) && Print(b)[1..] == Digits(-b);
      DigitsInjective(-a, -b);
    } else if a >= 0 && b >= 0 {
      DigitsInjective(a, b);
    }
  }

  lemma PrintHasNo(i: int, c: char)
    requires c != '-' && !('0' <= c <= '9')
    ensures c !in Print(i)
  {
  }

  /** Cutting at a separator the first part does not contain. */
  lemma CutOnce(a: string, b: string, c: string, d: string, separator: char)
    requires separator !in a && separator !in b && a + [separator] + c == b + [separator] + d
    ensures a == b && c == d
  {
    var s, t := a + [separator] + c, b + [separator] + d;
    assert s[|a|] == separator && t[|b|] == separator;
    assert forall k :: 0 <= k < |a| ==> s[k] == a[k] && a[k] in a;
    assert forall k :: 0 <= k < |b| ==> t[k] == b[k] && b[k] in b;
    assert s[..|a|] == a && t[..|b|] == b;
    assert s[|a| + 1..] == c && t[|b| + 1..] == d;
  }

  // ---------------------------------------------------------------- the scope key

  datatype Scope = Scope(projectId: int, targetTableId: int, scenarioId: Option<int>)

  function ScenarioNumber(scope: Scope): int {
    if scope.scenarioId.Some? then scope.scenarioId.value else 0
  }

  /** Three labelled parts with bars between them. */
  function Labelled(l1: string, a: string, l2: string, b: string, l3: string, c: string): string {
    l1 + (a + ['|'] + (l2 + (b + ['|'] + (l3 + c))))
  }

  function ScopeKey(scope: Scope): string {
    Labelled("project:", Print(scope.projectId), "target:", Print(scope.targetTableId), "scenario:", Print(ScenarioNumber(scope)))
  }

  lemma TailsEqual(prefix: string, a: string, b: string)
    requires prefix + a == prefix + b
    ensures a == b
  {
    assert (prefix + a)[|prefix|..] == a && (prefix + b)[|prefix|..] == b;
  }

  lemma LabelledInjective(l1: string, l2: string, l3: string, a: string, b: string, c: string, a': string, b': string, c': string)
    requires '|' !in a && '|' !in a' && '|' !in b && '|' !in b'
    requires Labelled(l1, a, l2, b, l3, c) == Labelled(l1, a', l2, b', l3, c')
    ensures a == a' && b == b' && c == c'
  {
    var s, s' := b + ['|'] + (l3 + c), b' + ['|'] + (l3 + c');
    TailsEqual(l1, a + ['|'] + (l2 + s), a' + ['|'] + (l2 + s'));
    CutOnce(a, a', l2 + s, l2 + s', '|');
    TailsEqual(l2, s, s');
    CutOnce(b, b', l3 + c, l3 + c', '|');
    TailsEqual(l3, c, c');
  }

  /** Two rows share a key exactly when all three parts agree, NULL read as scenario 0. */
  lemma ScopeKeysAgree(a: Scope, b: Scope)
    ensures ScopeKey(a) == ScopeKey(b) <==>
            a.projectId == b.projectId && a.targetTableId == b.targetTableId && ScenarioNumber(a) == ScenarioNumber(b)
  {
    if ScopeKey(a) == ScopeKey(b) {
      PrintHasNo(a.projectId, '|');
      PrintHasNo(b.projectId, '|');
      PrintHasNo(a.targetTableId, '|');
      PrintHasNo(b.targetTableId, '|');
      LabelledInjective("project:", "target:", "scenario:",
                        Print(a.projectId), Print(a.targetTableId), Print(ScenarioNumber(a)),
                        Print(b.projectId), Print(b.targetTableId), Print(ScenarioNumber(b)));
      PrintInjective(a.projectId, b.projectId);
      PrintInjective(a.targetTableId, b.targetTableId);
      PrintInjective(ScenarioNumber(a), ScenarioNumber(b));
    }
  }

  // ---------------------------------------------------------------- the migration

  datatype Row = Row(id: nat, scope: Scope, snapshotNo: int, scopeKey: Option<string>)

  /** The old constraint: SQL never counts two NULL scenarios as equal. */
  ghost predicate SqlUnique(rows: seq<Row>) {
    forall i, j :: 0 <= i < j < |rows| ==>
      !(rows[i].scope == rows[j].scope && rows[i].scope.scenarioId.Some? && rows[i].snapshotNo == rows[j].snapshotNo)
  }

  /** What the constraint is meant to say. */
  ghost predicate ScopeUnique(rows: seq<Row>) {
    forall i, j :: 0 <= i < j < |rows| ==> !(rows[i].scope == rows[j].scope && rows[i].snapshotNo == rows[j].snapshotNo)
  }

  /** The new constraint, on a column that is never NULL. */
  ghost predicate KeyUnique(rows: seq<Row>) {
    forall i, j :: 0 <= i < j < |rows| ==> !(rows[i].scopeKey == rows[j].scopeKey && rows[i].snapshotNo == rows[j].snapshotNo)
  }

  function Fill(row: Row): Row {
    row.(scopeKey := Some(ScopeKey(row.scope)))
  }

  ghost predicate Filled(after: seq<Row>, before: seq<Row>) {
    |after| == |before| && forall i :: 0 <= i < |before| ==> after[i] == Fill(before[i])
  }

  /** A row with scenario 0 and a row without scenario that otherwise agree. */
  ghost predicate ClashAt(a: Row, b: Row) {
    && a.scope.scenarioId == Some(0) && b.scope.scenarioId == None
    && a.scope.projectId == b.scope.projectId && a.scope.targetTableId == b.scope.targetTableId
    && a.snapshotNo == b.snapshotNo
  }

  ghost predicate ZeroClash(rows: seq<Row>) {
    exists i, j :: 0 <= i < |rows| && 0 <= j < |rows| && ClashAt(rows[i], rows[j])
  }

  lemma FilledKeysAgree(a: Row, b: Row)
    ensures (Fill(a).scopeKey == Fill(b).scopeKey && a.snapshotNo == b.snapshotNo) <==>
            (a.scope == b.scope && a.snapshotNo == b.snapshotNo) || ClashAt(a, b) || ClashAt(b, a)
  {
    ScopeKeysAgree(a.scope, b.scope);
  }

  /** After the backfill the key constraint holds exactly when every scope numbers its snapshots
      once and no scenario 0 stands beside a missing scenario. */
  lemma KeyConstraintMeans(before: seq<Row>, after: seq<Row>)
    requires Filled(after, before)
    ensures KeyUnique(after) <==> ScopeUnique(before) && !ZeroClash(before)
  {
    forall i, j | 0 <= i < |before| && 0 <= j < |before|
      ensures (after[i].scopeKey == after[j].scopeKey && after[i].snapshotNo == after[j].snapshotNo) <==>
              (before[i].scope == before[j].scope && before[i].snapshotNo == before[j].snapshotNo)
              || ClashAt(before[i], before[j]) || ClashAt(before[j], before[i])
    {
      FilledKeysAgree(before[i], before[j]);
    }
  }

  /** The old constraint lets a scope without scenario number two snapshots alike. */
  lemma OldConstraintMisses(scope: Scope)
    requires scope.scenarioId.None?
    ensures var rows := [Row(1, scope, 1, None), Row(2, scope, 1, None)]; SqlUnique(rows) && !ScopeUnique(rows)
  {
    var rows := [Row(1, scope, 1, None), Row(2, scope, 1, None)];
    assert rows[0].scope == rows[1].scope;
  }

  function Keys(rows: seq<Row>): (keys: seq<string>)
    ensures |keys| == |rows| && forall i :: 0 <= i < |rows| ==> keys[i] == ScopeKey(rows[i].scope)
  {
    seq(|rows|, i requires 0 <= i < |rows| => ScopeKey(rows[i].scope))
  }

  lemma FilledByKeys(after: seq<Row>, before: seq<Row>)
    requires |after| == |before|
    requires forall i :: 0 <= i < |before| ==> after[i] == before[i].(scopeKey := Some(Keys(before)[i]))
    ensures Filled(after, before)
  {
  }

  /** The backfill: one update by primary key for every selected row. */
  method Backfill(table: array<Row>)
    requires forall i, j :: 0 <= i < j < table.Length ==> table[i].id != table[j].id
    modifies table
    ensures Filled(table[..], old(table[..]))
  {
    ghost var before := table[..];
    var keys := Keys(table[..]);
    WriteKeys(table, keys);
    FilledByKeys(table[..], before);
  }

  /** The loop of the backfill over the rows as they were selected. */
  method WriteKeys(table: array<Row>, keys: seq<string>)
    requires |keys| == table.Length
    requires forall i, j :: 0 <= i < j < table.Length ==> table[i].id != table[j].id
    modifies table
    ensures forall i :: 0 <= i < table.Length ==> table[i] == old(table[i]).(scopeKey := Some(keys[i]))
  {
    var rows := table[..];
    for k := 0 to |rows|
      invariant forall i :: 0 <= i < k ==> table[i] == rows[i].(scopeKey := Some(keys[i]))
      invariant forall i :: k <= i < table.Length ==> table[i] == rows[i]
    {
      UpdateById(table, rows[k].id, keys[k]);
    }
  }

  /** UPDATE ... WHERE id = ... */
  method UpdateById(table: array<Row>, id: nat, key: string)
    modifies table
    ensures forall i :: 0 <= i < table.Length ==>
      table[i] == if old(table[i]).id == id then old(table[i]).(scopeKey := Some(key)) else old(table[i])
  {
    for i := 0 to table.Length
      invariant forall j :: 0 <= j < table.Length ==>
        table[j] == if j < i && old(table[j]).id == id then old(table[j]).(scopeKey := Some(key)) else old(table[j])
    {
      if table[i].id == id {
        table[i] := table[i].(scopeKey := Some(key));
      }
    }
  }

  // ---------------------------------------------------------------- the submission payload

  function PrintFileId(fileId: Option<nat>): string {
    if fileId.Some? then Digits(fileId.value) else "None"
  }

  function OrEmpty(hash: Option<string>): string {
    if hash.Some? then hash.value else ""
  }

  /** Four parts with colons between them. */
  function Colons(a: string, b: string, c: string, d: string): string {
    a + [':'] + (b + [':'] + (c + [':'] + d))
  }

  function SubmissionPayload(workflowId: nat, fileId: Option<nat>, contentHash: Option<string>, snapshotHash: string): string {
    Colons(Digits(workflowId), PrintFileId(fileId), OrEmpty(contentHash), snapshotHash)
  }

  lemma ColonsInjective(a: string, b: string, c: string, d: string, a': string, b': string, c': string, d': string)
    requires ':' !in a && ':' !in a' && ':' !in b && ':' !in b' && ':' !in c && ':' !in c'
    requires Colons(a, b, c, d) == Colons(a', b', c', d')
    ensures a == a' && b == b' && c == c' && d == d'
  {
    var r, r' := c + [':'] + d, c' + [':'] + d';
    CutOnce(a, a', b + [':'] + r, b' + [':'] + r', ':');
    CutOnce(b, b', r, r', ':');
    CutOnce(c, c', d, d', ':');
  }

  lemma PrintFileIdInjective(a: Option<nat>, b: Option<nat>)
    requires PrintFileId(a) == PrintFileId(b)
    ensures a == b && ':' !in PrintFileId(a)
  {
    assert "None"[0] == 'N';
    if a.Some? && b.Some? {
      DigitsInjective(a.value, b.value);
    }
  }

  lemma FileIdHasNoColon(a: Option<nat>)
    ensures ':' !in PrintFileId(a)
  {
  }

  /** The payload determines its four parts when the content hash has no colon; a missing
      content hash counts as an empty one. */
  lemma PayloadDeterminesParts(w: nat, f: Option<nat>, h: Option<string>, s: string, w': nat, f': Option<nat>, h': Option<string>, s': string)
    requires ':' !in OrEmpty(h) && ':' !in OrEmpty(h')
    ensures SubmissionPayload(w, f, h, s) == SubmissionPayload(w', f', h', s') <==>
            w == w' && f == f' && OrEmpty(h) == OrEmpty(h') && s == s'
  {
    if SubmissionPayload(w, f, h, s) == SubmissionPayload(w', f', h', s') {
      FileIdHasNoColon(f);
      FileIdHasNoColon(f');
      ColonsInjective(Digits(w), PrintFileId(f), OrEmpty(h), s, Digits(w'), PrintFileId(f'), OrEmpty(h'), s');
      DigitsInjective(w, w');
      PrintFileIdInjective(f, f');
    }
  }
}
