/**
 scripts/migration/frozen_schema_gen.py: the diff of two metadata dumps, the plan of a whole
 revision chain, the table descriptions frozen from it, and the line chunking of the
 generated module.
 */
module SchemaHistory {
  import opened Basics

  /** A column: its name and the sorted JSON of its description. */
  datatype Column = Column(name: string, json: string)

  datatype Table = Table(name: string, columns: seq<Column>)

  type Dump = seq<Table>

  function Names(tables: seq<Table>): (r: seq<string>)
    ensures |r| == |tables| && forall i :: 0 <= i < |r| ==> r[i] == tables[i].name
  {
    seq(|tables|, i requires 0 <= i < |tables| => tables[i].name)
  }

  function ToSet(names: seq<string>): set<string> {
    set n | n in names
  }

  /** {table["name"]: table}: of equal names the last one stays. */
  function ByName(tables: seq<Table>): (r: map<string, Table>)
    ensures r.Keys == ToSet(Names(tables))
    ensures forall n :: n in r ==> r[n].name == n && r[n] in tables
    decreases |tables|
  {
    if tables == [] then map[] else
    var init, last := tables[..|tables| - 1], tables[|tables| - 1];
    assert tables == init + [last] && Names(tables) == Names(init) + [last.name];
    ByName(init)[last.name := last]
  }

  /** _column_signature: of equal column names the last one stays. */
  function Signature(columns: seq<Column>): map<string, string>
    decreases |columns|
  {
    if columns == [] then map[] else
    var last := columns[|columns| - 1];
    Signature(columns[..|columns| - 1])[last.name := last.json]
  }

  // ---------------------------------------------------------------- one diff

  datatype Change = Change(added: set<string>, removed: set<string>, changed: set<string>)

  /** What diff_revisions returns: new table names in dump order, column changes of tables in
      both dumps, and the names of removed tables. */
  datatype Diff = Diff(added: seq<string>, mutated: map<string, Change>, removed: set<string>)

  function ColumnChange(before: map<string, string>, after: map<string, string>): Change {
    Change(after.Keys - before.Keys, before.Keys - after.Keys,
           set n | n in before.Keys * after.Keys && before[n] != after[n])
  }

  const NO_CHANGE := Change({}, {}, {})

  function AddedNames(previous: map<string, Table>, tables: seq<Table>): (r: seq<string>)
    ensures ToSet(r) == ToSet(Names(tables)) - previous.Keys
    decreases |tables|
  {
    if tables == [] then [] else
    var init, last := tables[..|tables| - 1], tables[|tables| - 1];
    assert tables == init + [last] && Names(tables) == Names(init) + [last.name];
    var before := AddedNames(previous, init);
    assert ToSet(before + [last.name]) == ToSet(before) + {last.name};
    if last.name in previous then before else before + [last.name]
  }

  function TableChange(previous: map<string, Table>, current: map<string, Table>, n: string): Change
    requires n in previous && n in current
  {
    ColumnChange(Signature(previous[n].columns), Signature(current[n].columns))
  }

  function MutatedAmong(previous: map<string, Table>, current: map<string, Table>, names: set<string>): map<string, Change> {
    map n | n in names && n in previous && n in current && TableChange(previous, current, n) != NO_CHANGE
      :: TableChange(previous, current, n)
  }

  function DiffOf(previous: Dump, current: Dump): Diff {
    var p, c := ByName(previous), ByName(current);
    Diff(AddedNames(p, current),
         MutatedAmong(p, c, c.Keys),
         p.Keys - c.Keys)
  }

  /** The columns of every table by name. */
  function Schema(dump: Dump): (r: map<string, map<string, string>>)
    ensures r.Keys == ToSet(Names(dump))
  {
    var t := ByName(dump);
    map n | n in t :: Signature(t[n].columns)
  }

  /** Applying a column change with the descriptions of the new table. */
  function PatchColumns(before: map<string, string>, change: Change, after: map<string, string>): map<string, string>
    requires change.added + change.changed <= after.Keys
  {
    (before - change.removed) + (map n | n in change.added + change.changed :: after[n])
  }

  ghost predicate Fits(d: Diff, current: Dump) {
    && ToSet(d.added) <= Schema(current).Keys
    && d.mutated.Keys <= Schema(current).Keys
    && forall n :: n in d.mutated ==> d.mutated[n].added + d.mutated[n].changed <= Schema(current)[n].Keys
  }

  /** Applying a diff: the listed tables and columns are taken from the current dump, everything
      else from the previous one. */
  ghost function Patch(previous: Dump, d: Diff, current: Dump): map<string, map<string, string>>
    requires Fits(d, current)
  {
    var p, c := Schema(previous), Schema(current);
    (map n | n in p.Keys - d.removed :: if n in d.mutated then PatchColumns(p[n], d.mutated[n], c[n]) else p[n])
      + (map n | n in d.added :: c[n])
  }

  lemma ColumnPatch(before: map<string, string>, after: map<string, string>)
    ensures PatchColumns(before, ColumnChange(before, after), after) == after
    ensures ColumnChange(before, after) == NO_CHANGE <==> before == after
  {
    var change := ColumnChange(before, after);
    if change == NO_CHANGE {
      forall n | n in before.Keys * after.Keys ensures before[n] == after[n] {
        assert n !in change.changed;
      }
      forall n | n in before ensures n in after {
        assert n !in change.removed;
      }
      forall n | n in after ensures n in before {
        assert n !in change.added;
      }
      assert before == after;
    }
  }

  lemma PatchedTable(previous: Dump, current: Dump, n: string)
    requires n in Schema(previous) && n in Schema(current)
    ensures var d, p, c := DiffOf(previous, current), Schema(previous)[n], Schema(current)[n];
      if n in d.mutated
      then d.mutated[n].added + d.mutated[n].changed <= c.Keys && PatchColumns(p, d.mutated[n], c) == c
      else p == c
  {
    ColumnPatch(Schema(previous)[n], Schema(current)[n]);
  }

  lemma DiffFits(previous: Dump, current: Dump)
    ensures Fits(DiffOf(previous, current), current)
  {
    var d := DiffOf(previous, current);
    forall n | n in d.mutated
      ensures d.mutated[n].added + d.mutated[n].changed <= Schema(current)[n].Keys
    {
      PatchedTable(previous, current, n);
    }
  }

  /** Where the table n of the patched schema comes from. */
  lemma PatchedName(previous: Dump, current: Dump, n: string)
    requires Fits(DiffOf(previous, current), current)
    ensures var patched, c := Patch(previous, DiffOf(previous, current), current), Schema(current);
            (n in patched <==> n in c) && (n in c ==> patched[n] == c[n])
  {
    var d, p, c := DiffOf(previous, current), Schema(previous), Schema(current);
    assert n in d.added <==> n in ToSet(d.added);
    assert n in d.added <==> n in c && n !in p;
    if n in p && n in c {
      PatchedTable(previous, current, n);
    }
  }

  /** The diff is complete: patching the previous dump with it gives the current one. */
  lemma DiffThenPatch(previous: Dump, current: Dump)
    ensures Fits(DiffOf(previous, current), current)
    ensures Patch(previous, DiffOf(previous, current), current) == Schema(current)
  {
    DiffFits(previous, current);
    var patched, c := Patch(previous, DiffOf(previous, current), current), Schema(current);
    forall n ensures (n in patched <==> n in c) && (n in c ==> patched[n] == c[n]) {
      PatchedName(previous, current, n);
    }
  }

  /** And sound: it lists exactly what differs, table by table and column by column. */
  lemma DiffListsExactlyTheDifferences(previous: Dump, current: Dump, n: string, column: string)
    ensures var d, p, c := DiffOf(previous, current), Schema(previous), Schema(current);
      && (n in d.added <==> n in c && n !in p)
      && (n in d.removed <==> n in p && n !in c)
      && (n in d.mutated <==> n in p && n in c && p[n] != c[n])
      && (n in d.mutated ==>
            && (column in d.mutated[n].added <==> column in c[n] && column !in p[n])
            && (column in d.mutated[n].removed <==> column in p[n] && column !in c[n])
            && (column in d.mutated[n].changed <==> column in p[n] && column in c[n] && p[n][column] != c[n][column]))
  {
    var d := DiffOf(previous, current);
    var p, c := ByName(previous), ByName(current);
    assert n in d.added <==> n in ToSet(d.added);
    if n in p && n in c {
      ColumnPatch(Schema(previous)[n], Schema(current)[n]);
    }
  }

  // ---------------------------------------------------------------- the plan of a chain

  /** build_plan over the dumps in chain order: created names per revision, and diffs from the
      second revision on. */
  datatype Plan = Plan(creation: seq<seq<string>>, diffs: seq<Diff>)

  function PlanOf(dumps: seq<Dump>): (p: Plan)
    requires dumps != []
    ensures |p.creation| == |dumps| && |p.diffs| == |dumps| - 1
    ensures p.creation[0] == Names(dumps[0])
    ensures forall k :: 1 <= k < |dumps| ==>
              p.diffs[k - 1] == DiffOf(dumps[k - 1], dumps[k]) && p.creation[k] == p.diffs[k - 1].added
  {
    var diffs := seq(|dumps| - 1, k requires 0 <= k < |dumps| - 1 => DiffOf(dumps[k], dumps[k + 1]));
    Plan([Names(dumps[0])] + seq(|dumps| - 1, k requires 0 <= k < |dumps| - 1 => diffs[k].added), diffs)
  }

  /** Table names after replaying the plan up to revision k. */
  function Replay(p: Plan, k: nat): set<string>
    requires |p.creation| == |p.diffs| + 1 && k < |p.creation|
  {
    if k == 0 then ToSet(p.creation[0])
    else (Replay(p, k - 1) - p.diffs[k - 1].removed) + ToSet(p.creation[k])
  }

  function TableNames(dump: Dump): set<string> {
    ToSet(Names(dump))
  }

  /** Replaying the plan reconstructs the tables of every revision. */
  lemma {:induction false} ReplayReconstructsHistory(dumps: seq<Dump>, k: nat)
    requires k < |dumps|
    ensures Replay(PlanOf(dumps), k) == TableNames(dumps[k])
  {
    if k > 0 {
      ReplayReconstructsHistory(dumps, k - 1);
      assert PlanOf(dumps).diffs[k - 1] == DiffOf(dumps[k - 1], dumps[k]);
    }
  }

  // ---------------------------------------------------------------- ownership

  ghost predicate Disjoint(creation: seq<seq<string>>) {
    forall i, j, n :: 0 <= i < j < |creation| && n in creation[i] ==> n !in creation[j]
  }

  /** A table that has left the schema never comes back. */
  ghost predicate NeverRecreated(dumps: seq<Dump>) {
    forall i, m, j, n :: 0 <= i < m < j < |dumps| && n in TableNames(dumps[i]) && n !in TableNames(dumps[m]) ==>
      n !in TableNames(dumps[j])
  }

  lemma CreatedMeans(dumps: seq<Dump>, k: nat, n: string)
    requires k < |dumps|
    ensures n in PlanOf(dumps).creation[k] <==>
            n in TableNames(dumps[k]) && (k > 0 ==> n !in TableNames(dumps[k - 1]))
  {
    var created := PlanOf(dumps).creation[k];
    assert n in created <==> n in ToSet(created);
    if k == 0 {
      assert n in Names(dumps[0]) <==> n in ToSet(Names(dumps[0]));
    }
  }

  /** The revision that first creates a table seen at revision k. */
  lemma {:induction false} FirstCreation(dumps: seq<Dump>, k: nat, n: string) returns (i: nat)
    requires k < |dumps| && n in TableNames(dumps[k])
    ensures i <= k && n in PlanOf(dumps).creation[i]
    ensures forall j :: 0 <= j < i ==> n !in TableNames(dumps[j])
  {
    if j :| 0 <= j < k && n in TableNames(dumps[j]) {
      i := FirstCreation(dumps, j, n);
    } else {
      i := k;
      CreatedMeans(dumps, k, n);
    }
  }

  /** A table missing at one revision and present at a later one is created in between. */
  lemma {:induction false} CreatedBetween(dumps: seq<Dump>, m: nat, j: nat, n: string) returns (c: nat)
    requires m < j < |dumps| && n !in TableNames(dumps[m]) && n in TableNames(dumps[j])
    ensures m < c <= j && n in PlanOf(dumps).creation[c]
  {
    if n in TableNames(dumps[j - 1]) {
      c := CreatedBetween(dumps, m, j - 1, n);
    } else {
      c := j;
      CreatedMeans(dumps, j, n);
    }
  }

  lemma DisjointIfNeverRecreated(dumps: seq<Dump>)
    requires dumps != [] && NeverRecreated(dumps)
    ensures Disjoint(PlanOf(dumps).creation)
  {
    var creation := PlanOf(dumps).creation;
    forall i, j, n | 0 <= i < j < |creation| && n in creation[i] ensures n !in creation[j] {
      CreatedMeans(dumps, i, n);
      CreatedMeans(dumps, j, n);
    }
  }

  lemma NeverRecreatedIfDisjoint(dumps: seq<Dump>)
    requires dumps != [] && Disjoint(PlanOf(dumps).creation)
    ensures NeverRecreated(dumps)
  {
    forall i, m, j, n | 0 <= i < m < j < |dumps| && n in TableNames(dumps[i]) && n !in TableNames(dumps[m])
      ensures n !in TableNames(dumps[j])
    {
      if n in TableNames(dumps[j]) {
        var first := FirstCreation(dumps, i, n);
        var again := CreatedBetween(dumps, m, j, n);
      }
    }
  }

  /** Each table is created by one revision only, exactly when no table comes back after it was
      removed. */
  lemma CreationListsAreDisjoint(dumps: seq<Dump>)
    requires dumps != []
    ensures Disjoint(PlanOf(dumps).creation) <==> NeverRecreated(dumps)
  {
    if NeverRecreated(dumps) {
      DisjointIfNeverRecreated(dumps);
    }
    if Disjoint(PlanOf(dumps).creation) {
      NeverRecreatedIfDisjoint(dumps);
    }
  }

  /** Every table ever seen is created by some revision, and only such tables are. */
  lemma CreationListsCoverHistory(dumps: seq<Dump>, n: string)
    requires dumps != []
    ensures (exists k :: 0 <= k < |dumps| && n in TableNames(dumps[k])) <==>
            (exists i :: 0 <= i < |dumps| && n in PlanOf(dumps).creation[i])
  {
    if k :| 0 <= k < |dumps| && n in TableNames(dumps[k]) {
      var i := FirstCreation(dumps, k, n);
    }
    if i :| 0 <= i < |dumps| && n in PlanOf(dumps).creation[i] {
      CreatedMeans(dumps, i, n);
    }
  }

  // ---------------------------------------------------------------- frozen descriptions

  /** by_name of render_module: setdefault over the tables of one dump. */
  function AddMissing(known: map<string, Table>, tables: seq<Table>): (r: map<string, Table>)
    decreases |tables|
  {
    if tables == [] then known else
    var before := AddMissing(known, tables[..|tables| - 1]);
    var last := tables[|tables| - 1];
    if last.name in before then before else before[last.name := last]
  }

  function Frozen(dumps: seq<Dump>): map<string, Table>
    decreases |dumps|
  {
    if dumps == [] then map[] else AddMissing(Frozen(dumps[..|dumps| - 1]), dumps[|dumps| - 1])
  }

  lemma {:induction false} AddMissingKeeps(known: map<string, Table>, tables: seq<Table>)
    ensures var r := AddMissing(known, tables);
      && r.Keys == known.Keys + TableNames(tables)
      && (forall n :: n in known ==> r[n] == known[n])
      && (forall n :: n in r && n !in known ==> r[n] in tables && r[n].name == n)
    decreases |tables|
  {
    if tables != [] {
      var init := tables[..|tables| - 1];
      assert tables == init + [tables[|tables| - 1]];
      assert Names(tables) == Names(init) + [tables[|tables| - 1].name];
      AddMissingKeeps(known, init);
    }
  }

  lemma {:induction false} FrozenIsFirst(dumps: seq<Dump>, k: nat, n: string)
    requires k < |dumps| && n in TableNames(dumps[k])
    requires forall j :: 0 <= j < k ==> n !in TableNames(dumps[j])
    ensures n in Frozen(dumps) && Frozen(dumps)[n].name == n && Frozen(dumps)[n] in dumps[k]
    decreases |dumps|
  {
    var init, last := dumps[..|dumps| - 1], dumps[|dumps| - 1];
    AddMissingKeeps(Frozen(init), last);
    if k < |init| {
      FrozenIsFirst(init, k, n);
    } else {
      FrozenKeys(init, n);
    }
  }

  lemma NotSeenBefore(dumps: seq<Dump>, k: nat, j: nat, n: string)
    requires j < k < |dumps| && forall i :: 0 <= i < k ==> n !in PlanOf(dumps).creation[i]
    ensures n !in TableNames(dumps[j])
  {
    if n in TableNames(dumps[j]) {
      var i := FirstCreation(dumps, j, n);
    }
  }

  /** The description frozen for a table is the one of the first revision that creates it. */
  lemma FrozenIsFromTheCreator(dumps: seq<Dump>, k: nat, n: string)
    requires k < |dumps| && n in PlanOf(dumps).creation[k]
    requires forall i :: 0 <= i < k ==> n !in PlanOf(dumps).creation[i]
    ensures n in Frozen(dumps) && Frozen(dumps)[n].name == n && Frozen(dumps)[n] in dumps[k]
  {
    assert n in TableNames(dumps[k]) by {
      CreatedMeans(dumps, k, n);
    }
    forall j | 0 <= j < k ensures n !in TableNames(dumps[j]) {
      NotSeenBefore(dumps, k, j, n);
    }
    FrozenIsFirst(dumps, k, n);
  }

  lemma {:induction false} FrozenKeys(dumps: seq<Dump>, n: string)
    ensures n in Frozen(dumps) <==> exists k :: 0 <= k < |dumps| && n in TableNames(dumps[k])
    decreases |dumps|
  {
    if dumps != [] {
      var init, last := dumps[..|dumps| - 1], dumps[|dumps| - 1];
      AddMissingKeeps(Frozen(init), last);
      FrozenKeys(init, n);
      if k :| 0 <= k < |dumps| && n in TableNames(dumps[k]) {
        assert k < |init| ==> init[k] == dumps[k];
      }
      if k :| 0 <= k < |init| && n in TableNames(init[k]) {
        assert dumps[k] == init[k];
      }
    }
  }

  // ---------------------------------------------------------------- chunking

  function Quoted(name: string): string {
    "\"" + name + "\""
  }

  /** ", ".join of the quoted names. */
  function Rendered(names: seq<string>): string {
    if names == [] then ""
    else if |names| == 1 then Quoted(names[0])
    else Quoted(names[0]) + ", " + Rendered(names[1..])
  }

  function Flatten(lines: seq<seq<string>>): seq<string>
    decreases |lines|
  {
    if lines == [] then [] else Flatten(lines[..|lines| - 1]) + lines[|lines| - 1]
  }

  const LINE_LIMIT := 88

  predicate FitsLine(row: seq<string>) {
    |Rendered(row)| <= LINE_LIMIT
  }

  /** A row as short as the limit allows: it fits without its last name. */
  predicate IsRow(row: seq<string>) {
    row != [] && FitsLine(row[..|row| - 1])
  }

  lemma FlattenSnoc(lines: seq<seq<string>>, row: seq<string>)
    ensures Flatten(lines + [row]) == Flatten(lines) + row
  {
    assert (lines + [row])[..|lines|] == lines;
  }

  lemma PrefixFits(row: seq<string>)
    requires row != [] && FitsLine(row)
    ensures IsRow(row)
  {
    assert row[..|row| - 1] + [row[|row| - 1]] == row;
    RenderedGrows(row[..|row| - 1], row[|row| - 1]);
  }

  ghost predicate AllRows(lines: seq<seq<string>>) {
    forall i :: 0 <= i < |lines| ==> IsRow(lines[i])
  }

  ghost predicate AllFull(lines: seq<seq<string>>) {
    forall i :: 0 <= i < |lines| ==> !FitsLine(lines[i])
  }

  lemma RowsSnoc(lines: seq<seq<string>>, row: seq<string>)
    requires AllRows(lines) && IsRow(row)
    ensures AllRows(lines + [row])
  {
  }

  lemma FullSnoc(lines: seq<seq<string>>, row: seq<string>)
    requires AllFull(lines) && !FitsLine(row)
    ensures AllFull(lines + [row])
  {
  }

  lemma RowWhenFull(row: seq<string>, n: string)
    requires FitsLine(row)
    ensures IsRow(row + [n])
  {
    assert (row + [n])[..|row|] == row;
  }

  ghost predicate Chunked(names: seq<string>, lines: seq<seq<string>>, chunk: seq<string>) {
    Flatten(lines) + chunk == names && FitsLine(chunk) && AllRows(lines) && AllFull(lines)
  }

  lemma NextName(names: seq<string>, lines: seq<seq<string>>, chunk: seq<string>, n: string)
    requires Chunked(names, lines, chunk)
    ensures if FitsLine(chunk + [n]) then Chunked(names + [n], lines, chunk + [n])
            else Chunked(names + [n], lines + [chunk + [n]], [])
  {
    var row := chunk + [n];
    assert Flatten(lines) + row == names + [n];
    if !FitsLine(row) {
      RowWhenFull(chunk, n);
      RowsSnoc(lines, row);
      FullSnoc(lines, row);
      FlattenSnoc(lines, row);
      assert FitsLine([]);
      assert names + [n] + [] == names + [n];
    }
  }

  lemma LastRow(names: seq<string>, lines: seq<seq<string>>, chunk: seq<string>)
    requires Chunked(names, lines, chunk) && chunk != []
    ensures var all := lines + [chunk];
            Flatten(all) == names && AllRows(all) && AllFull(all[..|all| - 1])
  {
    PrefixFits(chunk);
    RowsSnoc(lines, chunk);
    FlattenSnoc(lines, chunk);
    assert (lines + [chunk])[..|lines|] == lines;
  }

  /** The rows a long creation list is broken into: the names once each and in order, no row
      empty, and a row ends where it first exceeds the limit or with the list. */
  method Chunks(names: seq<string>) returns (lines: seq<seq<string>>)
    ensures Flatten(lines) == names
    ensures AllRows(lines) && (lines != [] ==> AllFull(lines[..|lines| - 1]))
    ensures forall i :: 0 <= i < |lines| ==> lines[i] != [] && |Rendered(lines[i][..|lines[i]| - 1])| <= 88
    ensures forall i :: 0 <= i < |lines| - 1 ==> |Rendered(lines[i])| > 88
  {
    lines := [];
    var chunk: seq<string> := [];
    assert FitsLine(chunk);
    for i := 0 to |names|
      invariant Chunked(names[..i], lines, chunk)
    {
      NextName(names[..i], lines, chunk, names[i]);
      assert names[..i + 1] == names[..i] + [names[i]];
      chunk := chunk + [names[i]];
      if |Rendered(chunk)| > LINE_LIMIT {
        lines := lines + [chunk];
        chunk := [];
      }
    }
    assert names[..|names|] == names;
    if chunk != [] {
      LastRow(names, lines, chunk);
      lines := lines + [chunk];
    } else {
      assert Flatten(lines) == names;
    }
  }

  lemma {:induction false} RenderedGrows(names: seq<string>, n: string)
    ensures |Rendered(names)| <= |Rendered(names + [n])|
  {
    if |names| > 1 {
      assert (names + [n])[1..] == names[1..] + [n];
      RenderedGrows(names[1..], n);
    } else if |names| == 1 {
      assert (names + [n])[1..] == [n];
    }
  }

  // ---------------------------------------------------------------- the loops

  lemma MutatedStep(previous: map<string, Table>, current: map<string, Table>, names: set<string>, n: string)
    requires n in current
    ensures MutatedAmong(previous, current, names + {n}) ==
            if n in previous && TableChange(previous, current, n) != NO_CHANGE
            then MutatedAmong(previous, current, names)[n := TableChange(previous, current, n)]
            else MutatedAmong(previous, current, names)
  {
  }

  /** The loop over the current tables in diff_revisions, as it fills its dict. */
  method Mutations(previous: map<string, Table>, current: map<string, Table>, names: seq<string>)
    returns (mutated: map<string, Change>)
    requires ToSet(names) == current.Keys
    ensures mutated == MutatedAmong(previous, current, current.Keys)
  {
    mutated := map[];
    for i := 0 to |names|
      invariant mutated == MutatedAmong(previous, current, ToSet(names[..i]))
    {
      var n := names[i];
      assert ToSet(names[..i + 1]) == ToSet(names[..i]) + {n};
      assert n in ToSet(names);
      MutatedStep(previous, current, ToSet(names[..i]), n);
      if n !in previous {
        continue;
      }
      var change := TableChange(previous, current, n);
      if change.added != {} || change.removed != {} || change.changed != {} {
        mutated := mutated[n := change];
      }
    }
    assert names[..|names|] == names;
  }

  /** The loop of build_plan. Its last diff, of the first dump against no tables, lists nothing
      but added tables and is dropped. */
  method BuildPlan(dumps: seq<Dump>) returns (p: Plan)
    requires dumps != []
    ensures p == PlanOf(dumps)
  {
    p := FillPlan(dumps, PlanOf(dumps));
  }

  method FillPlan(dumps: seq<Dump>, ghost plan: Plan) returns (p: Plan)
    requires |dumps| == |plan.creation| == |plan.diffs| + 1 && plan.creation[0] == Names(dumps[0])
    requires forall k :: 1 <= k < |dumps| ==>
      plan.diffs[k - 1] == DiffOf(dumps[k - 1], dumps[k]) && plan.creation[k] == plan.diffs[k - 1].added
    ensures p == plan
  {
    var creation, diffs: seq<Diff> := [Names(dumps[0])], [];
    for k := 1 to |dumps|
      invariant creation == plan.creation[..k] && diffs == plan.diffs[..k - 1]
    {
      var d := DiffOf(dumps[k - 1], dumps[k]);
      creation := creation + [d.added];
      diffs := diffs + [d];
    }
    p := Plan(creation, diffs);
  }

  method FreezeTables(dumps: seq<Dump>) returns (byName: map<string, Table>)
    ensures byName == Frozen(dumps)
  {
    byName := map[];
    for k := 0 to |dumps|
      invariant byName == Frozen(dumps[..k])
    {
      var tables := dumps[k];
      for i := 0 to |tables|
        invariant byName == AddMissing(Frozen(dumps[..k]), tables[..i])
      {
        assert tables[..i + 1][..i] == tables[..i];
        if tables[i].name !in byName {
          byName := byName[tables[i].name := tables[i]];
        }
      }
      assert tables[..|tables|] == tables;
      assert dumps[..k + 1][..k] == dumps[..k];
    }
    assert dumps[..|dumps|] == dumps;
  }
}
