/** The --set arguments of scripts/deploy/merge-env-files.py: the dict they make, and the merge over them. */
module EnvArguments {
  import opened Basics
  import opened EnvText
  import opened EnvDict
  import opened EnvMerge

  /** The argument for a key and a value; the key is what stands before its first equals sign. */
  function Argument(k: string, v: string): string {
    k + "=" + v
  }

  lemma ArgumentIsCut(k: string, v: string)
    requires '=' !in k
    ensures SplitSet(Argument(k, v)) == Some(Pair(Strip(k), v))
  {
    CutAtEquals(k, v);
    assert Argument(k, v) == k + ['='] + v;
  }

  lemma FirstEqualsFinds(s: string)
    ensures FirstEquals(s) < |s| <==> '=' in s
  {
    var r := FirstEquals(s);
    if r < |s| {
      assert s[r] in s;
    }
  }

  /** The script exits with status 2 exactly if some argument has no equals sign. */
  lemma RefusedExactly(items: seq<string>)
    ensures Forced(items).None? <==> exists i :: 0 <= i < |items| && '=' !in items[i]
  {
    var pairs := SplitAll(items);
    forall i | 0 <= i < |items| ensures pairs[i].None? <==> '=' !in items[i] {
      FirstEqualsFinds(items[i]);
    }
    if Forced(items).None? {
      var i :| 0 <= i < |pairs| && pairs[i] == None;
      assert '=' !in items[i];
    }
    forall i | 0 <= i < |items| && '=' !in items[i] ensures Forced(items).None? {
      assert pairs[i] == None && pairs[i] in pairs;
    }
  }

  /** One more argument: its value replaces the one of its stripped key, which keeps its place in
      the order if it had one and comes last if not. */
  lemma OneMoreArgument(items: seq<string>, k: string, v: string)
    requires '=' !in k
    ensures var before, after := Forced(items), Forced(items + [Argument(k, v)]);
      && (after.None? <==> before.None?)
      && (after.Some? ==>
            && after.value.values == before.value.values[Strip(k) := v]
            && after.value.keys == if Strip(k) in before.value.values then before.value.keys else before.value.keys + [Strip(k)])
  {
    var item := Argument(k, v);
    ArgumentIsCut(k, v);
    assert SplitAll(items + [item]) == SplitAll(items) + [SplitSet(item)];
    assert SplitAll(items + [item])[..|items|] == SplitAll(items);
  }

  function Arguments(pairs: seq<Pair>): (items: seq<string>)
    ensures |items| == |pairs| && forall i :: 0 <= i < |items| ==> items[i] == Argument(pairs[i].key, pairs[i].value)
  {
    seq(|pairs|, i requires 0 <= i < |pairs| => Argument(pairs[i].key, pairs[i].value))
  }

  /** Pair i is the last one that sets this key. */
  ghost predicate LastFor(pairs: seq<Pair>, i: int, k: string) {
    0 <= i < |pairs| && Strip(pairs[i].key) == k && forall j :: i < j < |pairs| ==> Strip(pairs[j].key) != k
  }

  /** The last of the pairs for this key has this value. */
  ghost predicate LastValue(pairs: seq<Pair>, k: string, v: string) {
    exists i :: LastFor(pairs, i, k) && v == pairs[i].value
  }

  /** What the pairs set: exactly their stripped keys, each with the value of the last pair for it. */
  ghost predicate SetBy(values: map<string, string>, pairs: seq<Pair>) {
    && (forall i :: 0 <= i < |pairs| ==> Strip(pairs[i].key) in values)
    && (forall k | k in values :: LastValue(pairs, k, values[k]))
  }

  ghost predicate CutKeys(pairs: seq<Pair>) {
    forall i :: 0 <= i < |pairs| ==> '=' !in pairs[i].key
  }

  lemma SetByOneMore(values: map<string, string>, init: seq<Pair>, last: Pair)
    requires SetBy(values, init)
    ensures SetBy(values[Strip(last.key) := last.value], init + [last])
  {
    var pairs, after := init + [last], values[Strip(last.key) := last.value];
    forall k | k in after ensures LastValue(pairs, k, after[k]) {
      if k == Strip(last.key) {
        assert LastFor(pairs, |init|, k);
      } else {
        var i :| LastFor(init, i, k) && values[k] == init[i].value;
        assert LastFor(pairs, i, k);
      }
    }
  }

  lemma LastValueIsOne(pairs: seq<Pair>, k: string, v: string, w: string)
    requires LastValue(pairs, k, v) && LastValue(pairs, k, w)
    ensures v == w
  {
    var i :| LastFor(pairs, i, k) && v == pairs[i].value;
    var j :| LastFor(pairs, j, k) && w == pairs[j].value;
    assert i == j;
  }

  lemma SetByIsOne(a: map<string, string>, b: map<string, string>, pairs: seq<Pair>)
    requires SetBy(a, pairs) && SetBy(b, pairs)
    ensures a == b
  {
    forall k | k in a ensures k in b && a[k] == b[k] {
      SetByKey(a, b, pairs, k);
    }
    forall k | k in b ensures k in a {
      SetByKey(b, a, pairs, k);
    }
  }

  lemma SetByKey(a: map<string, string>, b: map<string, string>, pairs: seq<Pair>, k: string)
    requires SetBy(a, pairs) && SetBy(b, pairs) && k in a
    ensures k in b && a[k] == b[k]
  {
    var i :| LastFor(pairs, i, k) && a[k] == pairs[i].value;
    assert k in b;
    LastValueIsOne(pairs, k, a[k], b[k]);
  }

  lemma ForcedOneMore(init: seq<Pair>, last: Pair)
    requires '=' !in last.key && Forced(Arguments(init)).Some? && SetBy(Forced(Arguments(init)).value.values, init)
    ensures var forced := Forced(Arguments(init + [last])); forced.Some? && SetBy(forced.value.values, init + [last])
  {
    assert Arguments(init + [last]) == Arguments(init) + [Argument(last.key, last.value)];
    OneMoreArgument(Arguments(init), last.key, last.value);
    SetByOneMore(Forced(Arguments(init)).value.values, init, last);
  }

  /** The dict of the arguments holds what they set. */
  lemma {:induction false} ForcedHoldsTheLast(pairs: seq<Pair>)
    requires CutKeys(pairs)
    ensures Forced(Arguments(pairs)).Some? && SetBy(Forced(Arguments(pairs)).value.values, pairs)
    decreases |pairs|
  {
    if pairs == [] {
      assert Arguments(pairs) == [];
    } else {
      var init, last := pairs[..|pairs| - 1], pairs[|pairs| - 1];
      assert pairs == init + [last];
      ForcedHoldsTheLast(init);
      ForcedOneMore(init, last);
    }
  }

  /** For every key the last argument has a valid stripped key, and a value without line break or
      trailing white space. */
  ghost predicate LastRepresentable(pairs: seq<Pair>) {
    forall k, v :: LastValue(pairs, k, v) ==> Representable(k, v)
  }

  lemma LastAreTheValues(values: map<string, string>, pairs: seq<Pair>)
    requires SetBy(values, pairs)
    ensures AllRepresentable(values) <==> LastRepresentable(pairs)
  {
    forall k, v | LastValue(pairs, k, v) ensures k in values && values[k] == v {
      var i :| LastFor(pairs, i, k) && v == pairs[i].value;
      LastValueIsOne(pairs, k, v, values[k]);
    }
  }

  /** The merge over its arguments: the file parses as base, overridden by override, overridden by
      what the arguments set, exactly if the last argument for every key is representable. */
  lemma MergedFileOfArguments(base: Option<string>, override: Option<string>, pairs: seq<Pair>, values: map<string, string>)
    requires CutKeys(pairs) && SetBy(values, pairs)
    ensures Forced(Arguments(pairs)).Some?
    ensures Values(Some(Merge(base, override, Forced(Arguments(pairs)).value))) == Values(base) + Values(override) + values
            <==> LastRepresentable(pairs)
  {
    ForcedHoldsTheLast(pairs);
    var forced := Forced(Arguments(pairs)).value;
    SetByIsOne(values, forced.values, pairs);
    MergedFileReadsAsTheOverlay(base, override, forced);
    LastAreTheValues(values, pairs);
  }

  // ---------------------------------------------------------------- which lines set a key

  predicate IsLetter(c: char) {
    'a' <= c <= 'z' || 'A' <= c <= 'Z' || c == '_'
  }

  /** A line made of a stripped key and a value sets that key exactly if it begins with a letter or
      underscore and goes on with those and digits; any other line of this form sets nothing. */
  lemma SetsExactly(k: string, v: string)
    requires '=' !in k && Strip(k) == k
    ensures Entry(Argument(k, v)).Some? <==>
      k != "" && IsLetter(k[0]) && forall i :: 0 <= i < |k| ==> IsLetter(k[i]) || '0' <= k[i] <= '9'
    ensures Entry(Argument(k, v)).Some? ==> Entry(Argument(k, v)).value == Pair(k, Rstrip(v))
  {
    assert Argument(k, v) == Print(k, v);
    PrintedEntry(k, v);
  }

  // ---------------------------------------------------------------- what is written where

  /** Kept keys stand in the order of the dict. */
  lemma {:induction false} KeptInOrder(a: seq<string>, b: seq<string>, skip: set<string>)
    ensures KeepKeys(a + b, skip) == KeepKeys(a, skip) + KeepKeys(b, skip)
    decreases |b|
  {
    if b == [] {
      assert a + b == a;
    } else {
      assert (a + b)[..|a + b| - 1] == a + b[..|b| - 1];
      KeptInOrder(a, b[..|b| - 1], skip);
    }
  }

  /** From position `at` on stands a block: its banner, a line for every key, and a blank one. */
  ghost predicate BlockAt(out: seq<string>, at: int, banner: string, keys: seq<string>, values: map<string, string>) {
    && 0 <= at && at + |keys| + 2 <= |out|
    && out[at] == banner && out[at + |keys| + 1] == ""
    && forall i :: 0 <= i < |keys| ==> keys[i] in values && out[at + 1 + i] == keys[i] + "=" + values[keys[i]]
  }

  lemma BlockStandsAt(before: seq<string>, banner: string, keys: seq<string>, values: map<string, string>, after: seq<string>)
    requires keys != [] && forall k :: k in keys ==> k in values
    ensures BlockAt(before + Block(banner, PrintAll(keys, values)) + after, |before|, banner, keys, values)
  {
    var lines := PrintAll(keys, values);
    var out := before + ([banner] + lines + [[]]) + after;
    forall i | 0 <= i < |keys| ensures out[|before| + 1 + i] == keys[i] + "=" + values[keys[i]] {
      assert out[|before| + 1 + i] == lines[i];
    }
  }

  /** Lines, a blank one if asked for, and two blocks, each only if it has keys. */
  ghost predicate Layout(out: seq<string>, kept: seq<string>, gap: bool, first: string, keys: seq<string>, values: map<string, string>,
                         second: string, more: seq<string>, others: map<string, string>) {
    var at := |kept| + if gap then 1 else 0;
    var next := at + if keys == [] then 0 else |keys| + 2;
    && kept <= out && |out| == next + (if more == [] then 0 else |more| + 2)
    && (gap ==> out[|kept|] == "")
    && (keys != [] ==> BlockAt(out, at, first, keys, values))
    && (more != [] ==> BlockAt(out, next, second, more, others))
  }

  lemma BlocksAreLaidOut(kept: seq<string>, gap: bool, first: string, keys: seq<string>, values: map<string, string>,
                         second: string, more: seq<string>, others: map<string, string>)
    requires (forall k :: k in keys ==> k in values) && (forall k :: k in more ==> k in others)
    ensures var head := kept + if gap then [[]] else [];
      Layout(head + Block(first, PrintAll(keys, values)) + Block(second, PrintAll(more, others)),
             kept, gap, first, keys, values, second, more, others)
  {
    var head := kept + if gap then [[]] else [];
    var f, b := Block(first, PrintAll(keys, values)), Block(second, PrintAll(more, others));
    if keys != [] {
      BlockStandsAt(head, first, keys, values, b);
    }
    if more != [] {
      BlockStandsAt(head + f, second, more, others, []);
      assert head + f + b + [] == head + f + b;
    }
  }

  /** The output line by line: the override's lines, a blank one if the last of them is not, then the
      arguments' pairs the override does not set, then the base's pairs neither sets, each as a block
      of its own in the order of its dict, if there are any. */
  lemma OutputLayout(base: Dict, lines: seq<string>, forced: Dict, banners: Banners)
    requires base.Valid() && forced.Valid()
    ensures var override, kept := Parse(lines).values.Keys, ReplaceAll(lines, forced.values);
      Layout(OutputLines(base, lines, forced, banners), kept, lines != [] && Strip(kept[|lines| - 1]) != "",
             banners.forSet, KeepKeys(forced.keys, override), forced.values,
             banners.forBase, KeepKeys(base.keys, override + forced.values.Keys), base.values)
  {
    var override, kept := Parse(lines).values.Keys, ReplaceAll(lines, forced.values);
    BlocksAreLaidOut(kept, lines != [] && Strip(kept[|lines| - 1]) != "",
                     banners.forSet, KeepKeys(forced.keys, override), forced.values,
                     banners.forBase, KeepKeys(base.keys, override + forced.values.Keys), base.values);
  }
}
