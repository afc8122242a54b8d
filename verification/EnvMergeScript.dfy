/** The loops of scripts/deploy/merge-env-files.py, proved against EnvMerge. */
module EnvMergeScript {
  import opened Basics
  import opened EnvText
  import opened EnvDict
  import opened EnvMerge
  import opened EnvArguments

  lemma {:induction false} NoNewlineToStrip(line: string)
    requires NoBreaks(line)
    ensures StripNewlines(line) == line
  {
    if line != [] {
      assert !IsLineBreak(line[|line| - 1]);
    }
  }

  function PutEntry(d: Dict, e: Option<Pair>): Dict {
    match e case None => d case Some(p) => d.Put(p.key, p.value)
  }

  lemma EntriesSnoc(lines: seq<string>, line: string)
    ensures Parse(lines + [line]) == PutEntry(Parse(lines), Entry(line))
  {
    assert Entries(lines + [line]) == Entries(lines) + [Entry(line)];
    assert (Entries(lines) + [Entry(line)])[..|lines|] == Entries(lines);
  }

  /** What a line sets; printing that pair gives a line that sets the same. */
  method ParseLine(line: string) returns (entry: Option<Pair>)
    ensures entry == Entry(line)
    ensures entry.Some? && NoBreaks(line) ==>
      ValidKey(entry.value.key) && Entry(Print(entry.value.key, entry.value.value)) == entry
  {
    if NoBreaks(line) && Entry(line).Some? {
      ParsedPairReadsBack(line);
    }
    var stripped := Strip(line);
    if stripped == [] || stripped[0] == '#' || FirstEquals(stripped) == |stripped| {
      return None;
    }
    var n := FirstEquals(stripped);
    var key, value := Strip(stripped[..n]), stripped[n + 1..];
    if !ValidKey(key) {
      return None;
    }
    return Some(Pair(key, value));
  }

  method ParseLines(raw: seq<string>) returns (values: Dict, lines: seq<string>)
    requires AllPlain(raw)
    ensures lines == raw && values == Parse(raw)
  {
    values, lines := EMPTY, [];
    for i := 0 to |raw|
      invariant lines == raw[..i] && values == Parse(lines)
    {
      var line := StripNewlines(raw[i]);
      NoNewlineToStrip(raw[i]);
      EntriesSnoc(lines, line);
      lines := lines + [line];
      var entry := ParseLine(line);
      if entry.None? {
        continue;
      }
      values := values.Put(entry.value.key, entry.value.value);
    }
  }

  /** parse_env of a file that may be missing. */
  method ParseEnv(content: Option<string>) returns (values: Dict, lines: seq<string>)
    ensures lines == FileLines(content) && values == Parse(lines)
  {
    if content.None? {
      return EMPTY, [];
    }
    values, lines := ParseLines(ReadLines(content.value));
  }

  method SplitItem(item: string) returns (pair: Option<Pair>)
    ensures pair == SplitSet(item)
    ensures forall k, v :: '=' !in k && item == Argument(k, v) ==> pair == Some(Pair(Strip(k), v))
  {
    forall k, v | '=' !in k && item == Argument(k, v) ensures SplitSet(item) == Some(Pair(Strip(k), v)) {
      ArgumentIsCut(k, v);
    }
    var n := FirstEquals(item);
    if n == |item| {
      return None;
    }
    return Some(Pair(Strip(item[..n]), item[n + 1..]));
  }

  lemma FoldSetsSnoc(pairs: seq<Option<Pair>>, i: nat)
    requires i < |pairs|
    ensures FoldSets(pairs[..i + 1]) ==
      var before := FoldSets(pairs[..i]);
      if before.None? || pairs[i].None? then None else Some(before.value.Put(pairs[i].value.key, pairs[i].value.value))
  {
    assert pairs[..i + 1][..i] == pairs[..i];
  }

  /** None is the script's exit with status 2, on the first argument without an equals sign. */
  method ParseSets(items: seq<string>) returns (forced: Option<Dict>)
    ensures forced == Forced(items)
    ensures forced.None? <==> exists i :: 0 <= i < |items| && '=' !in items[i]
  {
    RefusedExactly(items);
    ghost var pairs := SplitAll(items);
    var d := EMPTY;
    for i := 0 to |items|
      invariant FoldSets(pairs[..i]) == Some(d)
    {
      FoldSetsSnoc(pairs, i);
      var pair := SplitItem(items[i]);
      if pair.None? {
        assert pairs[i] in pairs;
        return None;
      }
      d := d.Put(pair.value.key, pair.value.value);
    }
    assert pairs[..|items|] == pairs;
    return Some(d);
  }

  method ReplaceLine(line: string, forced: Dict) returns (r: string)
    ensures r == Replace(line, forced.values)
  {
    var stripped := Strip(line);
    if stripped != [] && stripped[0] != '#' && FirstEquals(stripped) < |stripped| {
      var key := Strip(stripped[..FirstEquals(stripped)]);
      if key in forced.values {
        return key + ['='] + forced.values[key];
      }
    }
    return line;
  }

  method ReplaceLines(lines: seq<string>, forced: Dict) returns (output: seq<string>)
    ensures output == ReplaceAll(lines, forced.values)
  {
    output := [];
    for i := 0 to |lines|
      invariant output == ReplaceAll(lines, forced.values)[..i]
    {
      var line := ReplaceLine(lines[i], forced);
      output := output + [line];
    }
  }

  method AppendBlock(output: seq<string>, banner: string, lines: seq<string>) returns (r: seq<string>)
    ensures r == output + Block(banner, lines)
  {
    r := output;
    if lines != [] {
      r := r + [banner];
      r := r + lines;
      r := r + [[]];
    }
  }

  method MergeFiles(base: Option<string>, override: Option<string>, items: seq<string>) returns (written: Option<string>)
    ensures written == match Forced(items) case None => None case Some(forced) => Some(Merge(base, override, forced))
  {
    var baseValues, _ := ParseEnv(base);
    var overrideValues, overrideLines := ParseEnv(override);
    var sets := ParseSets(items);
    if sets.None? {
      return None;
    }
    var forced := sets.value;
    var kept := ReplaceLines(overrideLines, forced);
    var output := kept;
    if output != [] && Strip(output[|output| - 1]) != [] {
      output := output + [[]];
    }
    assert output == kept + Gap(kept);
    output := AppendBlock(output, SCRIPT_BANNERS.forSet, ForcedLines(forced, overrideValues));
    output := AppendBlock(output, SCRIPT_BANNERS.forBase, BaseLines(baseValues, forced, overrideValues));
    return Some(TextOf(output));
  }
}
