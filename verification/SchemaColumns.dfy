/** The diff of two dumps over their tables and columns as they are listed. */
module SchemaColumns {
  import opened Basics
  import opened SchemaHistory

  ghost predicate HasTable(dump: Dump, n: string) {
    exists i :: 0 <= i < |dump| && dump[i].name == n
  }

  /** Table i is the last one of this name. */
  ghost predicate LastTable(dump: Dump, i: int, n: string) {
    0 <= i < |dump| && dump[i].name == n && forall j :: i < j < |dump| ==> dump[j].name != n
  }

  /** Column i is the last one of this name. */
  ghost predicate LastColumn(columns: seq<Column>, i: int, c: string) {
    0 <= i < |columns| && columns[i].name == c && forall j :: i < j < |columns| ==> columns[j].name != c
  }

  /** The last column c of these columns is described by this text. */
  ghost predicate ColumnReads(columns: seq<Column>, c: string, json: string) {
    exists i :: LastColumn(columns, i, c) && columns[i].json == json
  }

  /** In the last table n of the dump, the last column c is described by this text. */
  ghost predicate Described(dump: Dump, n: string, c: string, json: string) {
    exists i :: LastTable(dump, i, n) && ColumnReads(dump[i].columns, c, json)
  }

  ghost predicate HasColumn(dump: Dump, n: string, c: string) {
    exists json :: Described(dump, n, c, json)
  }

  lemma KnownByName(dump: Dump, n: string)
    ensures n in ByName(dump) <==> HasTable(dump, n)
  {
    var names := Names(dump);
    assert n in ByName(dump) <==> n in names;
    if i :| 0 <= i < |dump| && dump[i].name == n {
      assert names[i] == n;
    }
  }

  lemma LastTableStays(init: Dump, last: Table, i: int, n: string)
    requires LastTable(init, i, n) && last.name != n
    ensures LastTable(init + [last], i, n) && (init + [last])[i] == init[i]
  {
  }

  lemma ByNameOneMore(init: Dump, last: Table, n: string)
    requires n in ByName(init + [last])
    ensures if last.name == n then ByName(init + [last])[n] == last else n in ByName(init) && ByName(init + [last])[n] == ByName(init)[n]
  {
    assert (init + [last])[..|init|] == init;
  }

  lemma {:induction false} ByNameIsTheLast(dump: Dump, n: string) returns (i: int)
    requires n in ByName(dump)
    ensures LastTable(dump, i, n) && ByName(dump)[n] == dump[i]
    decreases |dump|
  {
    var init, last := dump[..|dump| - 1], dump[|dump| - 1];
    assert dump == init + [last];
    ByNameOneMore(init, last, n);
    if last.name == n {
      i := |dump| - 1;
    } else {
      i := ByNameIsTheLast(init, n);
      LastTableStays(init, last, i, n);
    }
  }

  lemma ColumnOneMore(init: seq<Column>, last: Column, c: string, json: string)
    ensures ColumnReads(init + [last], c, json) <==> if last.name == c then last.json == json else ColumnReads(init, c, json)
    ensures HasName(init + [last], c) <==> last.name == c || HasName(init, c)
  {
    var columns := init + [last];
    assert last.name == c ==> LastColumn(columns, |init|, c);
    if ColumnReads(init, c, json) && last.name != c {
      var i :| LastColumn(init, i, c) && init[i].json == json;
      assert LastColumn(columns, i, c) && columns[i] == init[i];
    }
    if ColumnReads(columns, c, json) && last.name != c {
      var i :| LastColumn(columns, i, c) && columns[i].json == json;
      forall j | i < j < |init| ensures init[j].name != c {
        assert columns[j] == init[j];
      }
      assert LastColumn(init, i, c) && columns[i] == init[i];
    }
    if HasName(init, c) {
      var i :| 0 <= i < |init| && init[i].name == c;
      assert columns[i].name == c;
    }
    assert columns[|init|] == last;
  }

  ghost predicate HasName(columns: seq<Column>, c: string) {
    exists i :: 0 <= i < |columns| && columns[i].name == c
  }

  /** The signature holds exactly the column names, each with the description of its last column. */
  lemma {:induction false} SignatureReads(columns: seq<Column>, c: string, json: string)
    ensures (c in Signature(columns) && Signature(columns)[c] == json) <==> ColumnReads(columns, c, json)
    ensures c in Signature(columns) <==> HasName(columns, c)
    decreases |columns|
  {
    if columns != [] {
      var init, last := columns[..|columns| - 1], columns[|columns| - 1];
      assert columns == init + [last];
      SignatureReads(init, c, json);
      ColumnOneMore(init, last, c, json);
    }
  }

  /** The schema of a dump, column by column. */
  lemma SchemaReads(dump: Dump, n: string, c: string, json: string)
    ensures n in Schema(dump) <==> HasTable(dump, n)
    ensures (n in Schema(dump) && c in Schema(dump)[n] && Schema(dump)[n][c] == json) <==> Described(dump, n, c, json)
  {
    KnownByName(dump, n);
    if n in ByName(dump) {
      var i := ByNameIsTheLast(dump, n);
      SignatureReads(dump[i].columns, c, json);
      if Described(dump, n, c, json) {
        var k :| LastTable(dump, k, n) && ColumnReads(dump[k].columns, c, json);
        assert k == i;
      }
    }
  }

  lemma ColumnOfSchema(dump: Dump, n: string, c: string)
    requires n in Schema(dump)
    ensures c in Schema(dump)[n] <==> HasColumn(dump, n, c)
  {
    if c in Schema(dump)[n] {
      SchemaReads(dump, n, c, Schema(dump)[n][c]);
    }
    if json :| Described(dump, n, c, json) {
      SchemaReads(dump, n, c, json);
    }
  }

  ghost predicate SameColumn(previous: Dump, current: Dump, n: string, c: string) {
    forall json :: Described(previous, n, c, json) <==> Described(current, n, c, json)
  }

  lemma SameColumnMeans(previous: Dump, current: Dump, n: string, c: string)
    requires n in Schema(previous) && n in Schema(current)
    ensures var p, q := Schema(previous)[n], Schema(current)[n];
      SameColumn(previous, current, n, c) <==> ((c in p <==> c in q) && (c in p && c in q ==> p[c] == q[c]))
  {
    var p, q := Schema(previous)[n], Schema(current)[n];
    forall json ensures Described(previous, n, c, json) <==> c in p && p[c] == json {
      SchemaReads(previous, n, c, json);
    }
    forall json ensures Described(current, n, c, json) <==> c in q && q[c] == json {
      SchemaReads(current, n, c, json);
    }
    if SameColumn(previous, current, n, c) {
      assert c in p ==> Described(previous, n, c, p[c]);
      assert c in q ==> Described(current, n, c, q[c]);
    }
  }

  lemma SameSchema(previous: Dump, current: Dump, n: string)
    requires n in Schema(previous) && n in Schema(current)
    ensures Schema(previous)[n] == Schema(current)[n] <==> forall c :: SameColumn(previous, current, n, c)
  {
    var p, q := Schema(previous)[n], Schema(current)[n];
    forall c ensures SameColumn(previous, current, n, c) <==> ((c in p <==> c in q) && (c in p && c in q ==> p[c] == q[c])) {
      SameColumnMeans(previous, current, n, c);
    }
    if forall c :: SameColumn(previous, current, n, c) {
      forall c ensures (c in p <==> c in q) && (c in p && c in q ==> p[c] == q[c]) {
        assert SameColumn(previous, current, n, c);
      }
      assert p == q;
    }
  }

  /** A table of both dumps is listed as mutated exactly if some column of it differs. */
  lemma MutatedExactly(previous: Dump, current: Dump, n: string)
    ensures n in DiffOf(previous, current).mutated <==>
      HasTable(previous, n) && HasTable(current, n) && exists c :: !SameColumn(previous, current, n, c)
  {
    KnownByName(previous, n);
    KnownByName(current, n);
    DiffListsExactlyTheDifferences(previous, current, n, "");
    if n in Schema(previous) && n in Schema(current) {
      SameSchema(previous, current, n);
    }
  }

  /** The diff over the dumps themselves: tables are added and removed by name; a column of a mutated
      table is added or removed if only one of the dumps has it, and changed if they describe it by
      different texts. */
  lemma DiffReadsTheDumps(previous: Dump, current: Dump, n: string, c: string)
    ensures var d := DiffOf(previous, current);
      && (n in d.added <==> HasTable(current, n) && !HasTable(previous, n))
      && (n in d.removed <==> HasTable(previous, n) && !HasTable(current, n))
      && (n in d.mutated ==>
            && (c in d.mutated[n].added <==> HasColumn(current, n, c) && !HasColumn(previous, n, c))
            && (c in d.mutated[n].removed <==> HasColumn(previous, n, c) && !HasColumn(current, n, c))
            && (c in d.mutated[n].changed <==>
                  exists x, y :: x != y && Described(previous, n, c, x) && Described(current, n, c, y)))
  {
    var d := DiffOf(previous, current);
    SchemaReads(previous, n, c, "");
    SchemaReads(current, n, c, "");
    DiffListsExactlyTheDifferences(previous, current, n, c);
    if n in d.mutated {
      ColumnOfSchema(previous, n, c);
      ColumnOfSchema(current, n, c);
      var p, q := Schema(previous)[n], Schema(current)[n];
      if c in d.mutated[n].changed {
        SchemaReads(previous, n, c, p[c]);
        SchemaReads(current, n, c, q[c]);
      }
      if x, y :| x != y && Described(previous, n, c, x) && Described(current, n, c, y) {
        SchemaReads(previous, n, c, x);
        SchemaReads(current, n, c, y);
      }
    }
  }

  lemma {:induction false} AddedConcat(known: map<string, Table>, a: Dump, b: Dump)
    ensures AddedNames(known, a + b) == AddedNames(known, a) + AddedNames(known, b)
    decreases |b|
  {
    if b == [] {
      assert a + b == a;
    } else {
      assert (a + b)[..|a + b| - 1] == a + b[..|b| - 1];
      AddedConcat(known, a, b[..|b| - 1]);
    }
  }

  /** Added tables are listed in the order of the dump, as often as it lists them. */
  lemma AddedInOrder(previous: Dump, a: Dump, b: Dump, t: Table)
    ensures DiffOf(previous, a + b).added == DiffOf(previous, a).added + DiffOf(previous, b).added
    ensures DiffOf(previous, [t]).added == if HasTable(previous, t.name) then [] else [t.name]
  {
    AddedConcat(ByName(previous), a, b);
    KnownByName(previous, t.name);
    assert [t][..0] == [];
    assert AddedNames(ByName(previous), [t][..0]) == [];
  }
}
