/**
 scripts/deploy/merge-env-files.py: parsing an env file, and the merge of a base file, an
 override file and --set pairs into one text. The loops of the script are in EnvMergeScript.
 */
module EnvMerge {
  import opened Basics
  import opened EnvText
  import opened EnvDict

  // ---------------------------------------------------------------- one line

  predicate IsDigit(c: char) { '0' <= c <= '9' }

  predicate KeyAllowed(c: char) {
    'a' <= c <= 'z' || 'A' <= c <= 'Z' || IsDigit(c) || c == '_'
  }

  predicate ValidKey(k: string) {
    k != [] && (forall i :: 0 <= i < |k| ==> KeyAllowed(k[i])) && !IsDigit(k[0])
  }

  /** Position of the first equals sign, or the length. */
  function FirstEquals(s: string): (r: nat)
    ensures r <= |s| && forall i :: 0 <= i < r ==> s[i] != '='
    ensures r < |s| ==> s[r] == '='
  {
    if s == [] || s[0] == '=' then 0 else 1 + FirstEquals(s[1..])
  }

  lemma FirstEqualsIs(a: string, b: string)
    requires '=' !in a
    ensures FirstEquals(a + ['='] + b) == |a|
  {
    var s := a + ['='] + b;
    var r := FirstEquals(s);
    assert s[|a|] == '=' && forall k :: 0 <= k < |a| ==> s[k] == a[k];
  }

  /** Neither blank nor a comment, and with an equals sign. */
  predicate IsAssignment(line: string) {
    var stripped := Strip(line);
    stripped != [] && stripped[0] != '#' && FirstEquals(stripped) < |stripped|
  }

  /** What stands before the first equals sign. The merge does not check that it is a key. */
  function RawKey(line: string): string {
    var stripped := Strip(line);
    Strip(stripped[..FirstEquals(stripped)])
  }

  function RawValue(line: string): string
    requires IsAssignment(line)
  {
    var stripped := Strip(line);
    stripped[FirstEquals(stripped) + 1..]
  }

  /** What parse_env records for a line. */
  function Entry(line: string): Option<Pair> {
    if IsAssignment(line) && ValidKey(RawKey(line)) then Some(Pair(RawKey(line), RawValue(line))) else None
  }

  function Entries(lines: seq<string>): (r: seq<Option<Pair>>)
    ensures |r| == |lines| && forall i :: 0 <= i < |r| ==> r[i] == Entry(lines[i])
  {
    seq(|lines|, i requires 0 <= i < |lines| => Entry(lines[i]))
  }

  function Parse(lines: seq<string>): (d: Dict)
    ensures d.Valid()
  {
    Fold(Entries(lines))
  }

  /** The lines of a file that may be missing. */
  function FileLines(content: Option<string>): (lines: seq<string>)
    ensures AllPlain(lines)
  {
    if content.Some? then ReadLines(content.value) else []
  }

  /** The key-value pairs of a file. */
  function Values(content: Option<string>): map<string, string> {
    Parse(FileLines(content)).values
  }

  // ---------------------------------------------------------------- the merge

  /** A --set argument cut at its first equals sign. */
  function SplitSet(item: string): Option<Pair> {
    var n := FirstEquals(item);
    if n == |item| then None else Some(Pair(Strip(item[..n]), item[n + 1..]))
  }

  /** The dict of the --set pairs, or none if one of them has no equals sign. */
  function Forced(items: seq<string>): (r: Option<Dict>)
    ensures r.Some? ==> r.value.Valid()
  {
    FoldSets(SplitAll(items))
  }

  function SplitAll(items: seq<string>): (r: seq<Option<Pair>>)
    ensures |r| == |items| && forall i :: 0 <= i < |r| ==> r[i] == SplitSet(items[i])
  {
    seq(|items|, i requires 0 <= i < |items| => SplitSet(items[i]))
  }

  function FoldSets(pairs: seq<Option<Pair>>): (r: Option<Dict>)
    ensures r.Some? ==> r.value.Valid()
    ensures r.None? <==> None in pairs
    decreases |pairs|
  {
    if pairs == [] then Some(EMPTY) else
    var init, last := pairs[..|pairs| - 1], pairs[|pairs| - 1];
    assert pairs == init + [last];
    var before := FoldSets(init);
    if before.None? || last.None? then None else Some(before.value.Put(last.value.key, last.value.value))
  }

  function Print(k: string, v: string): string {
    k + ['='] + v
  }

  /** An override line as it is written out. */
  function Replace(line: string, forced: map<string, string>): string {
    if IsAssignment(line) && RawKey(line) in forced
    then Print(RawKey(line), forced[RawKey(line)])
    else line
  }

  function ReplaceAll(lines: seq<string>, forced: map<string, string>): (r: seq<string>)
    ensures |r| == |lines| && forall i :: 0 <= i < |r| ==> r[i] == Replace(lines[i], forced)
  {
    seq(|lines|, i requires 0 <= i < |lines| => Replace(lines[i], forced))
  }

  function PrintAll(keys: seq<string>, values: map<string, string>): (r: seq<string>)
    requires forall k :: k in keys ==> k in values
    ensures |r| == |keys| && forall i :: 0 <= i < |r| ==> r[i] == Print(keys[i], values[keys[i]])
  {
    seq(|keys|, i requires 0 <= i < |keys| => Print(keys[i], values[keys[i]]))
  }

  /** The comment lines over the two added blocks. */
  datatype Banners = Banners(forSet: string, forBase: string)

  ghost predicate IsComment(line: string) {
    NoBreaks(line) && !IsAssignment(line)
  }

  /** A blank line after the override lines, unless they end with one. */
  function Gap(lines: seq<string>): seq<string> {
    if lines != [] && Strip(lines[|lines| - 1]) != [] then [[]] else []
  }

  function Block(banner: string, lines: seq<string>): seq<string> {
    if lines == [] then [] else [banner] + lines + [[]]
  }

  function ForcedLines(forced: Dict, override: Dict): seq<string>
    requires forced.Valid()
  {
    PrintAll(KeepKeys(forced.keys, override.values.Keys), forced.values)
  }

  function BaseLines(base: Dict, forced: Dict, override: Dict): seq<string>
    requires base.Valid()
  {
    PrintAll(KeepKeys(base.keys, override.values.Keys + forced.values.Keys), base.values)
  }

  function OutputLines(base: Dict, overrideLines: seq<string>, forced: Dict, banners: Banners): seq<string>
    requires base.Valid() && forced.Valid()
  {
    var override := Parse(overrideLines);
    var kept := ReplaceAll(overrideLines, forced.values);
    kept + Gap(kept) + Block(banners.forSet, ForcedLines(forced, override))
      + Block(banners.forBase, BaseLines(base, forced, override))
  }

  const SET_BANNER: string := "# ---- 由 scripts/" + "deploy/merge-env-" + "files.py --set 注入 ----"
  const BASE_BANNER: string := "# ---- 从 base 片段" + "（backend/.env）" + "合并进来的运行变量 ----"

  const SCRIPT_BANNERS: Banners := Banners(SET_BANNER, BASE_BANNER)

  /** The text the script writes. */
  function Merge(base: Option<string>, override: Option<string>, forced: Dict): string
    requires forced.Valid()
  {
    TextOf(OutputLines(Parse(FileLines(base)), FileLines(override), forced, SCRIPT_BANNERS))
  }

  lemma ScriptBannersAreComments()
    ensures IsComment(SCRIPT_BANNERS.forSet) && IsComment(SCRIPT_BANNERS.forBase)
  {
    SetBannerIsPlain();
    BaseBannerIsPlain();
    CommentLine(SET_BANNER);
    CommentLine(BASE_BANNER);
  }

  lemma NoBreaksConcat(a: string, b: string)
    requires NoBreaks(a) && NoBreaks(b)
    ensures NoBreaks(a + b)
  {
  }

  lemma SetBannerIsPlain()
    ensures NoBreaks(SET_BANNER) && SET_BANNER != [] && SET_BANNER[0] == '#' && SET_BANNER[|SET_BANNER| - 1] == '-'
  {
    NoBreaksConcat("# ---- 由 scripts/", "deploy/merge-env-");
    NoBreaksConcat("# ---- 由 scripts/" + "deploy/merge-env-", "files.py --set 注入 ----");
  }

  lemma BaseBannerIsPlain()
    ensures NoBreaks(BASE_BANNER) && BASE_BANNER != [] && BASE_BANNER[0] == '#' && BASE_BANNER[|BASE_BANNER| - 1] == '-'
  {
    NoBreaksConcat("# ---- 从 base 片段", "（backend/.env）");
    NoBreaksConcat("# ---- 从 base 片段" + "（backend/.env）", "合并进来的运行变量 ----");
  }

  lemma CommentLine(line: string)
    requires NoBreaks(line) && line != [] && line[0] == '#' && line[|line| - 1] == '-'
    ensures IsComment(line)
  {
    assert !IsSpace(line[0]) && !IsSpace(line[|line| - 1]);
    StripOfTight(line);
    assert Strip(line)[0] == '#';
  }

  // ---------------------------------------------------------------- printing and parsing a pair

  /** A pair that survives being printed and parsed. */
  predicate Representable(k: string, v: string) {
    ValidKey(k) && NoBreaks(v) && (v == [] || !IsSpace(v[|v| - 1]))
  }

  /** A pair that prints as one line for its key. */
  predicate Printable(k: string, v: string) {
    ValidKey(k) && NoBreaks(v)
  }

  /** A key as the script takes it from a --set argument: stripped, and without equals sign. */
  predicate IsSetKey(k: string) {
    '=' !in k && Strip(k) == k
  }

  /** No key and no value holds a line break. */
  ghost predicate OnOneLine(m: map<string, string>) {
    forall k :: k in m ==> NoBreaks(k) && NoBreaks(m[k])
  }

  /** Pairs as the script makes them of --set arguments on one line, with valid keys or not. */
  ghost predicate SetPairs(m: map<string, string>) {
    forall k :: k in m ==> IsSetKey(k) && NoBreaks(k) && NoBreaks(m[k])
  }

  ghost predicate AllPrintable(m: map<string, string>) {
    forall k :: k in m ==> Printable(k, m[k])
  }

  ghost predicate AllRepresentable(m: map<string, string>) {
    forall k :: k in m ==> Representable(k, m[k])
  }

  lemma KeyIsTight(k: string)
    requires ValidKey(k)
    ensures Strip(k) == k && '=' !in k && NoBreaks(k) && k[0] != '#'
  {
    assert forall i :: 0 <= i < |k| ==> KeyAllowed(k[i]);
    StripOfTight(k);
  }

  lemma StripOfPrinted(k: string, v: string)
    requires Strip(k) == k
    ensures Strip(Print(k, v)) == k + ['='] + Rstrip(v)
  {
    var head := k + ['='];
    assert k != [] ==> !IsSpace(k[0]);
    assert Lstrip(head + v) == head + v;
    RstripSuffix(head, v);
  }

  lemma CutAtEquals(k: string, v: string)
    requires '=' !in k
    ensures var s := k + ['='] + v;
            FirstEquals(s) == |k| && s[..|k|] == k && s[|k| + 1..] == v && FirstEquals(s) < |s|
  {
    FirstEqualsIs(k, v);
  }

  lemma PrintedParts(k: string, v: string)
    requires IsSetKey(k)
    ensures RawKey(Print(k, v)) == k && (IsAssignment(Print(k, v)) <==> k == [] || k[0] != '#')
    ensures IsAssignment(Print(k, v)) ==> RawValue(Print(k, v)) == Rstrip(v)
  {
    StripOfPrinted(k, v);
    CutAtEquals(k, Rstrip(v));
  }

  lemma PrintedIsPlain(k: string, v: string)
    requires NoBreaks(k) && NoBreaks(v)
    ensures NoBreaks(Print(k, v))
  {
  }

  /** A printed pair reads back if its key is valid and sets nothing if it is not. */
  lemma PrintedEntry(k: string, v: string)
    requires IsSetKey(k)
    ensures Entry(Print(k, v)) == if ValidKey(k) then Some(Pair(k, Rstrip(v))) else None
  {
    PrintedParts(k, v);
    if ValidKey(k) {
      KeyIsTight(k);
    }
  }

  lemma PrintedLine(k: string, v: string)
    requires Printable(k, v)
    ensures NoBreaks(Print(k, v)) && IsAssignment(Print(k, v)) && RawKey(Print(k, v)) == k
    ensures Entry(Print(k, v)) == Some(Pair(k, Rstrip(v)))
  {
    KeyIsTight(k);
    PrintedIsPlain(k, v);
    PrintedParts(k, v);
    PrintedEntry(k, v);
  }

  lemma TailIsTight(s: string, n: nat)
    requires n < |s| && NoBreaks(s) && !IsSpace(s[|s| - 1])
    ensures var v := s[n + 1..]; NoBreaks(v) && (v == [] || !IsSpace(v[|v| - 1]))
  {
  }

  /** Whatever the parser records survives printing. */
  lemma ParsedPairIsRepresentable(line: string)
    requires NoBreaks(line) && Entry(line).Some?
    ensures Representable(Entry(line).value.key, Entry(line).value.value)
  {
    StripKeepsPlain(line);
    TailIsTight(Strip(line), FirstEquals(Strip(line)));
  }

  /** Parsing, printing and parsing again gives the same pair. */
  lemma ParsedPairReadsBack(line: string)
    requires NoBreaks(line) && Entry(line).Some?
    ensures var pair := Entry(line).value; Entry(Print(pair.key, pair.value)) == Some(pair)
  {
    ParsedPairIsRepresentable(line);
    var pair := Entry(line).value;
    PrintedLine(pair.key, pair.value);
  }

  lemma ParsedValuesAreRepresentable(lines: seq<string>)
    requires AllPlain(lines)
    ensures AllRepresentable(Parse(lines).values)
  {
    var m := Parse(lines).values;
    forall k | k in m ensures Representable(k, m[k]) {
      FoldFrom(Entries(lines), k);
      var i :| 0 <= i < |lines| && Entries(lines)[i] == Some(Pair(k, m[k]));
      ParsedPairIsRepresentable(lines[i]);
    }
  }

  /** The pairs whose key the parser accepts. */
  function Accepted(m: map<string, string>): map<string, string> {
    map k | k in m && ValidKey(k) :: m[k]
  }

  lemma PrintableIsAccepted(m: map<string, string>)
    requires AllPrintable(m)
    ensures Accepted(m) == m && SetPairs(m)
  {
    forall k | k in m ensures ValidKey(k) && IsSetKey(k) && NoBreaks(k) && NoBreaks(m[k]) {
      assert Printable(k, m[k]);
      KeyIsTight(k);
    }
  }

  function ValidOnly(keys: seq<string>): (r: seq<string>)
    ensures forall k :: k in r <==> k in keys && ValidKey(k)
    ensures Distinct(keys) ==> Distinct(r)
    decreases |keys|
  {
    if keys == [] then [] else
    var init, last := keys[..|keys| - 1], keys[|keys| - 1];
    assert keys == init + [last];
    if ValidKey(last) then ValidOnly(init) + [last] else ValidOnly(init)
  }

  /** The forced values as a reader sees them. */
  function Seen(m: map<string, string>): map<string, string> {
    map k | k in m :: Rstrip(m[k])
  }

  lemma SeenOfRepresentable(m: map<string, string>)
    requires AllRepresentable(m)
    ensures Seen(m) == m
  {
    forall k | k in m ensures Rstrip(m[k]) == m[k] {
      assert Representable(k, m[k]);
    }
  }

  lemma RepresentableIsPrintable(m: map<string, string>)
    requires AllRepresentable(m)
    ensures AllPrintable(m)
  {
    forall k | k in m ensures Printable(k, m[k]) {
      assert Representable(k, m[k]);
    }
  }

  /** Replacing a line forces the value of its pair and nothing else, and is done once. */
  lemma ReplacedLine(line: string, forced: map<string, string>)
    requires NoBreaks(line) && SetPairs(forced)
    ensures NoBreaks(Replace(line, forced))
    ensures Entry(Replace(line, forced)) == Force(Entry(line), Seen(forced))
    ensures Replace(Replace(line, forced), forced) == Replace(line, forced)
  {
    if IsAssignment(line) && RawKey(line) in forced {
      var k := RawKey(line);
      assert IsSetKey(k) && NoBreaks(k) && NoBreaks(forced[k]);
      PrintedIsPlain(k, forced[k]);
      PrintedParts(k, forced[k]);
      PrintedEntry(k, forced[k]);
    }
  }

  // ---------------------------------------------------------------- the entries of the output

  lemma EntriesConcat(a: seq<string>, b: seq<string>)
    ensures Entries(a + b) == Entries(a) + Entries(b)
  {
  }

  lemma EntriesReplaced(lines: seq<string>, forced: map<string, string>)
    requires AllPlain(lines) && SetPairs(forced)
    ensures Forces(Entries(ReplaceAll(lines, forced)), Entries(lines), Seen(forced))
    ensures AllPlain(ReplaceAll(lines, forced))
  {
    forall i | 0 <= i < |lines|
      ensures NoBreaks(Replace(lines[i], forced)) && Entry(Replace(lines[i], forced)) == Force(Entry(lines[i]), Seen(forced))
    {
      ReplacedLine(lines[i], forced);
    }
  }

  lemma EmptyLineIsNoEntry()
    ensures Entry([]) == None && NoBreaks([])
  {
  }

  /** Lines that hold the pairs, in order, and otherwise nothing. */
  ghost predicate Holds(lines: seq<string>, pairs: seq<Option<Pair>>) {
    && AllPlain(lines)
    && Fold(Entries(lines)).values == Fold(pairs).values
    && forall k :: Count(Entries(lines), k) == Count(pairs, k)
  }

  lemma BlockHolds(banner: string, lines: seq<string>, pairs: seq<Option<Pair>>)
    requires IsComment(banner) && Holds(lines, pairs) && (lines == [] ==> pairs == [])
    ensures Holds(Block(banner, lines), pairs)
  {
    if lines != [] {
      NoEntryHolds(banner);
      EmptyLineIsNoEntry();
      NoEntryHolds([]);
      var none: seq<Option<Pair>> := [];
      HoldsConcat([banner], none, lines, pairs);
      assert none + pairs == pairs;
      HoldsConcat([banner] + lines, pairs, [[]], none);
      assert pairs + none == pairs;
    }
  }

  lemma NoEntryHolds(line: string)
    requires NoBreaks(line) && Entry(line) == None
    ensures Holds([line], [])
  {
    var none: seq<Option<Pair>> := [None];
    assert Entries([line]) == none;
    FoldNones(none);
    forall k ensures Count(none, k) == 0 {
      CountNones(none, k);
    }
  }

  lemma GapHolds(lines: seq<string>)
    ensures Holds(Gap(lines), [])
  {
    EmptyLineIsNoEntry();
    FoldNones(Entries(Gap(lines)));
    forall k ensures Count(Entries(Gap(lines)), k) == 0 {
      CountNones(Entries(Gap(lines)), k);
    }
  }

  lemma HoldsConcat(a: seq<string>, p: seq<Option<Pair>>, b: seq<string>, q: seq<Option<Pair>>)
    requires Holds(a, p) && Holds(b, q)
    ensures Holds(a + b, p + q)
  {
    EntriesConcat(a, b);
    FoldConcat(Entries(a), Entries(b));
    FoldConcat(p, q);
    forall k ensures Count(Entries(a + b), k) == Count(p + q, k) {
      CountConcat(Entries(a), Entries(b), k);
      CountConcat(p, q, k);
    }
  }

  /** The pairs of the output: the override's with values forced, then the forced and the base
      pairs the override does not set. */
  ghost function OutputPairs(base: Dict, overrideLines: seq<string>, forced: Dict): seq<Option<Pair>>
    requires base.Valid() && forced.Valid()
  {
    var override := Parse(overrideLines);
    Entries(ReplaceAll(overrideLines, forced.values))
      + PairsOf(ValidOnly(KeepKeys(forced.keys, override.values.Keys)), Seen(forced.values))
      + PairsOf(ValidOnly(KeepKeys(base.keys, override.values.Keys + forced.values.Keys)), Seen(base.values))
  }

  ghost predicate MergeInput(base: Dict, overrideLines: seq<string>, forced: Dict, banners: Banners) {
    && base.Valid() && AllRepresentable(base.values) && AllPlain(overrideLines)
    && forced.Valid() && SetPairs(forced.values)
    && IsComment(banners.forSet) && IsComment(banners.forBase)
  }

  lemma OnePairHolds(line: string, pair: Pair)
    requires NoBreaks(line) && Entry(line) == Some(pair)
    ensures Holds([line], [Some(pair)])
  {
    assert Entries([line]) == [Some(pair)];
  }

  lemma PrintedPairHolds(k: string, v: string)
    requires IsSetKey(k) && NoBreaks(k) && NoBreaks(v)
    ensures Holds([Print(k, v)], if ValidKey(k) then [Some(Pair(k, Rstrip(v)))] else [])
  {
    var line := Print(k, v);
    PrintedIsPlain(k, v);
    PrintedEntry(k, v);
    if ValidKey(k) {
      OnePairHolds(line, Pair(k, Rstrip(v)));
    } else {
      NoEntryHolds(line);
    }
  }

  lemma PrintedStep(lines: seq<string>, pairs: seq<Option<Pair>>, k: string, v: string)
    requires Holds(lines, pairs) && IsSetKey(k) && NoBreaks(k) && NoBreaks(v)
    ensures Holds(lines + [Print(k, v)], if ValidKey(k) then pairs + [Some(Pair(k, Rstrip(v)))] else pairs)
  {
    PrintedPairHolds(k, v);
    var rest: seq<Option<Pair>> := if ValidKey(k) then [Some(Pair(k, Rstrip(v)))] else [];
    HoldsConcat(lines, pairs, [Print(k, v)], rest);
    assert rest == [] ==> pairs + rest == pairs;
  }

  lemma ValidOnlySnoc(keys: seq<string>, k: string)
    ensures ValidOnly(keys + [k]) == if ValidKey(k) then ValidOnly(keys) + [k] else ValidOnly(keys)
  {
    assert (keys + [k])[..|keys|] == keys;
  }

  /** Printed pairs hold those with valid keys. */
  lemma {:induction false} PrintedHolds(keys: seq<string>, m: map<string, string>)
    requires SetPairs(m) && forall k :: k in keys ==> k in m
    ensures Holds(PrintAll(keys, m), PairsOf(ValidOnly(keys), Seen(m)))
    decreases |keys|
  {
    if keys == [] {
      NoEntries([]);
      assert PairsOf(ValidOnly(keys), Seen(m)) == [] && PrintAll(keys, m) == [];
    } else {
      var init, last := keys[..|keys| - 1], keys[|keys| - 1];
      assert keys == init + [last] && last in keys;
      PrintedHolds(init, m);
      PrintedStep(PrintAll(init, m), PairsOf(ValidOnly(init), Seen(m)), last, m[last]);
      ValidOnlySnoc(init, last);
      PrintAllSnoc(init, m, last);
      if ValidKey(last) {
        PairsOfSnoc(ValidOnly(init), Seen(m), last);
      }
    }
  }

  lemma PrintAllSnoc(keys: seq<string>, m: map<string, string>, k: string)
    requires k in m && forall x :: x in keys ==> x in m
    ensures PrintAll(keys + [k], m) == PrintAll(keys, m) + [Print(k, m[k])]
  {
  }

  lemma PairsOfSnoc(keys: seq<string>, m: map<string, string>, k: string)
    requires k in m && forall x :: x in keys ==> x in m
    ensures PairsOf(keys + [k], m) == PairsOf(keys, m) + [Some(Pair(k, m[k]))]
  {
  }

  lemma PrintedBlockHolds(banner: string, keys: seq<string>, m: map<string, string>)
    requires IsComment(banner) && SetPairs(m) && forall k :: k in keys ==> k in m
    ensures Holds(Block(banner, PrintAll(keys, m)), PairsOf(ValidOnly(keys), Seen(m)))
  {
    PrintedHolds(keys, m);
    BlockHolds(banner, PrintAll(keys, m), PairsOf(ValidOnly(keys), Seen(m)));
  }

  lemma KeptHolds(lines: seq<string>, m: map<string, string>)
    requires AllPlain(lines) && SetPairs(m)
    ensures var kept := ReplaceAll(lines, m); Holds(kept + Gap(kept), Entries(kept))
  {
    var kept := ReplaceAll(lines, m);
    EntriesReplaced(lines, m);
    GapHolds(kept);
    var none: seq<Option<Pair>> := [];
    HoldsConcat(kept, Entries(kept), Gap(kept), none);
    assert Entries(kept) + none == Entries(kept);
  }

  lemma OutputHolds(base: Dict, overrideLines: seq<string>, forced: Dict, banners: Banners)
    requires MergeInput(base, overrideLines, forced, banners)
    ensures Holds(OutputLines(base, overrideLines, forced, banners), OutputPairs(base, overrideLines, forced))
  {
    var override := Parse(overrideLines);
    var kept := ReplaceAll(overrideLines, forced.values);
    var fKeys := KeepKeys(forced.keys, override.values.Keys);
    var bKeys := KeepKeys(base.keys, override.values.Keys + forced.values.Keys);
    RepresentableIsPrintable(base.values);
    PrintableIsAccepted(base.values);
    PrintedBlockHolds(banners.forSet, fKeys, forced.values);
    PrintedBlockHolds(banners.forBase, bKeys, base.values);
    KeptHolds(overrideLines, forced.values);
    var f, fPairs := Block(banners.forSet, PrintAll(fKeys, forced.values)), PairsOf(ValidOnly(fKeys), Seen(forced.values));
    HoldsConcat(kept + Gap(kept), Entries(kept), f, fPairs);
    HoldsConcat(kept + Gap(kept) + f, Entries(kept) + fPairs,
                Block(banners.forBase, PrintAll(bKeys, base.values)), PairsOf(ValidOnly(bKeys), Seen(base.values)));
  }

  /** The output's values: the --set pairs with valid keys over the override over the base. */
  lemma OutputValues(base: Dict, overrideLines: seq<string>, forced: Dict, banners: Banners)
    requires MergeInput(base, overrideLines, forced, banners)
    ensures AllPlain(OutputLines(base, overrideLines, forced, banners))
    ensures Parse(OutputLines(base, overrideLines, forced, banners)).values ==
            base.values + Parse(overrideLines).values + Seen(Accepted(forced.values))
  {
    OutputHolds(base, overrideLines, forced, banners);
    var override := Parse(overrideLines);
    var kept := Entries(ReplaceAll(overrideLines, forced.values));
    var fKeys := ValidOnly(KeepKeys(forced.keys, override.values.Keys));
    var bKeys := ValidOnly(KeepKeys(base.keys, override.values.Keys + forced.values.Keys));
    var fPairs, bPairs := PairsOf(fKeys, Seen(forced.values)), PairsOf(bKeys, Seen(base.values));
    EntriesReplaced(overrideLines, forced.values);
    FoldForced(kept, Entries(overrideLines), Seen(forced.values));
    FoldPairs(fKeys, Seen(forced.values));
    FoldPairs(bKeys, Seen(base.values));
    FoldConcat(kept + fPairs, bPairs);
    FoldConcat(kept, fPairs);
    SeenOfRepresentable(base.values);
    ParsedValuesAreRepresentable(overrideLines);
    AcceptedOverlay(override.values, forced.values, fKeys);
    AcceptedKeys(base.values, override.values, forced.values, bKeys);
    OverlayOfParts(base.values, override.values, Seen(Accepted(forced.values)), fKeys, bKeys);
  }

  /** For the override's valid keys the accepted pairs force what all pairs force. */
  lemma AcceptedOverlay(o: map<string, string>, forced: map<string, string>, keys: seq<string>)
    requires AllRepresentable(o) && forall k :: k in keys ==> k in forced && ValidKey(k)
    ensures Overlay(o, Seen(forced)) == Overlay(o, Seen(Accepted(forced)))
    ensures (map k | k in keys :: Seen(forced)[k]) == (map k | k in keys :: Seen(Accepted(forced))[k])
  {
    forall k | k in o ensures ValidKey(k) {
      assert Representable(k, o[k]);
    }
  }

  lemma AcceptedKeys(b: map<string, string>, o: map<string, string>, forced: map<string, string>, keys: seq<string>)
    requires AllRepresentable(b) && forall k :: k in keys <==> k in b && k !in o && k !in forced && ValidKey(k)
    ensures forall k :: k in keys <==> k in b && k !in o && k !in Seen(Accepted(forced))
  {
    forall k | k in b ensures ValidKey(k) {
      assert Representable(k, b[k]);
    }
  }

  lemma OverlayOfParts(b: map<string, string>, o: map<string, string>, f: map<string, string>, fKeys: seq<string>, bKeys: seq<string>)
    requires forall k :: k in fKeys <==> k in f && k !in o
    requires forall k :: k in bKeys <==> k in b && k !in o && k !in f
    ensures Overlay(o, f) + (map k | k in fKeys :: f[k]) + (map k | k in bKeys :: b[k]) == b + o + f
  {
  }

  /** The empty lines the text loses hold nothing. */
  lemma ReadBackHolds(lines: seq<string>)
    requires AllPlain(lines)
    ensures Holds(ReadLines(TextOf(lines)), Entries(lines))
  {
    var kept := DropEmptyTail(lines);
    var tail := lines[|kept|..];
    WrittenTextReadsBack(lines);
    assert lines == kept + tail;
    NoEntries(tail);
    var none: seq<Option<Pair>> := [];
    assert Holds(tail, none);
    HoldsConcat(kept, Entries(kept), tail, none);
    assert Entries(kept) + none == Entries(kept);
    if kept == [] {
      EmptyLineIsNoEntry();
      NoEntryHolds([]);
    }
  }

  lemma NoEntries(lines: seq<string>)
    requires forall i :: 0 <= i < |lines| ==> lines[i] == []
    ensures Holds(lines, [])
  {
    EmptyLineIsNoEntry();
    FoldNones(Entries(lines));
    forall k ensures Count(Entries(lines), k) == 0 {
      CountNones(Entries(lines), k);
    }
  }

  // ---------------------------------------------------------------- round trip

  lemma MergeInputOf(base: Option<string>, override: Option<string>, forced: Dict)
    requires forced.Valid() && SetPairs(forced.values)
    ensures MergeInput(Parse(FileLines(base)), FileLines(override), forced, SCRIPT_BANNERS)
  {
    ParsedValuesAreRepresentable(FileLines(base));
    ScriptBannersAreComments();
  }

  /** What any --set pairs on one line come to: those with valid keys win, the others set nothing. */
  lemma MergedValues(base: Option<string>, override: Option<string>, forced: Dict)
    requires forced.Valid() && SetPairs(forced.values)
    ensures Values(Some(Merge(base, override, forced))) == Values(base) + Values(override) + Seen(Accepted(forced.values))
  {
    MergeInputOf(base, override, forced);
    OutputValues(Parse(FileLines(base)), FileLines(override), forced, SCRIPT_BANNERS);
    ReadBackHolds(OutputLines(Parse(FileLines(base)), FileLines(override), forced, SCRIPT_BANNERS));
  }

  /** Main result: the merged file reads as base, overridden by override, overridden by the
      --set pairs, exactly when every --set pair has a valid key and a value without line
      breaks or trailing white space. */
  lemma MergedFileReadsAsTheOverlay(base: Option<string>, override: Option<string>, forced: Dict)
    requires forced.Valid()
    ensures Values(Some(Merge(base, override, forced))) == Values(base) + Values(override) + forced.values
            <==> AllRepresentable(forced.values)
  {
    var out := Values(Some(Merge(base, override, forced)));
    ParsedValuesAreRepresentable(FileLines(Some(Merge(base, override, forced))));
    if out == Values(base) + Values(override) + forced.values {
      forall k | k in forced.values ensures Representable(k, forced.values[k]) {
        assert out[k] == forced.values[k];
      }
    }
    if AllRepresentable(forced.values) {
      RepresentableIsPrintable(forced.values);
      PrintableIsAccepted(forced.values);
      MergedValues(base, override, forced);
      SeenOfRepresentable(forced.values);
    }
  }

  // ---------------------------------------------------------------- order and wording

  /** The override's lines come first, in their order; a line changes only if its key is
      forced, and then it becomes that pair. Lines missing at the end were empty. */
  lemma OverrideLinesStay(base: Option<string>, override: Option<string>, forced: Dict, i: nat)
    requires forced.Valid() && OnOneLine(forced.values) && i < |FileLines(override)|
    ensures var line, out := FileLines(override)[i], ReadLines(Merge(base, override, forced));
      && (if i < |out| then out[i] == Replace(line, forced.values) else Replace(line, forced.values) == [])
      && (Replace(line, forced.values) != line ==>
            RawKey(line) in forced.values && Replace(line, forced.values) == Print(RawKey(line), forced.values[RawKey(line)]))
  {
    ParsedValuesAreRepresentable(FileLines(base));
    RepresentableIsOnOneLine(Values(base));
    ScriptBannersAreComments();
    LinesStay(Parse(FileLines(base)), FileLines(override), forced, SCRIPT_BANNERS, i);
  }

  lemma LinesStay(base: Dict, overrideLines: seq<string>, forced: Dict, banners: Banners, i: nat)
    requires base.Valid() && forced.Valid() && OnOneLine(base.values) && OnOneLine(forced.values)
    requires AllPlain(overrideLines) && NoBreaks(banners.forSet) && NoBreaks(banners.forBase) && i < |overrideLines|
    ensures var r, out := Replace(overrideLines[i], forced.values), ReadLines(TextOf(OutputLines(base, overrideLines, forced, banners)));
            if i < |out| then out[i] == r else r == []
  {
    var lines := OutputLines(base, overrideLines, forced, banners);
    PlainOutput(base, overrideLines, forced, banners);
    WrittenTextReadsBack(lines);
    assert lines[i] == ReplaceAll(overrideLines, forced.values)[i];
  }

  // ---------------------------------------------------------------- idempotence

  /** Lines the merge writes unchanged. */
  ghost predicate Fixed(lines: seq<string>, forced: map<string, string>) {
    forall i :: 0 <= i < |lines| ==> Replace(lines[i], forced) == lines[i]
  }

  lemma PrintedAreFixed(keys: seq<string>, m: map<string, string>, forced: map<string, string>)
    requires AllPrintable(m) && forall k :: k in keys ==> k in m && (k in forced ==> forced[k] == m[k])
    ensures Fixed(PrintAll(keys, m), forced)
  {
    forall i | 0 <= i < |keys| ensures Replace(Print(keys[i], m[keys[i]]), forced) == Print(keys[i], m[keys[i]]) {
      assert Printable(keys[i], m[keys[i]]);
      PrintedLine(keys[i], m[keys[i]]);
    }
  }

  lemma FixedConcat(a: seq<string>, b: seq<string>, forced: map<string, string>)
    requires Fixed(a, forced) && Fixed(b, forced)
    ensures Fixed(a + b, forced)
  {
    forall i | 0 <= i < |a + b| ensures Replace((a + b)[i], forced) == (a + b)[i] {
      assert (a + b)[i] == if i < |a| then a[i] else b[i - |a|];
    }
  }

  lemma CommentIsFixed(line: string, forced: map<string, string>)
    requires !IsAssignment(line)
    ensures Fixed([line], forced)
  {
  }

  lemma BlockIsFixed(banner: string, lines: seq<string>, forced: map<string, string>)
    requires IsComment(banner) && Fixed(lines, forced)
    ensures Fixed(Block(banner, lines), forced)
  {
    if lines != [] {
      assert !IsAssignment([]);
      CommentIsFixed(banner, forced);
      CommentIsFixed([], forced);
      FixedConcat([banner], lines, forced);
      FixedConcat([banner] + lines, [[]], forced);
    }
  }

  lemma GapIsFixed(lines: seq<string>, forced: map<string, string>)
    ensures Fixed(Gap(lines), forced)
  {
    assert !IsAssignment([]);
    CommentIsFixed([], forced);
  }

  lemma OutputIsFixed(base: Dict, overrideLines: seq<string>, forced: Dict, banners: Banners)
    requires MergeInput(base, overrideLines, forced, banners) && AllPrintable(forced.values)
    ensures Fixed(OutputLines(base, overrideLines, forced, banners), forced.values)
  {
    var override := Parse(overrideLines);
    var kept := ReplaceAll(overrideLines, forced.values);
    var fKeys := KeepKeys(forced.keys, override.values.Keys);
    var bKeys := KeepKeys(base.keys, override.values.Keys + forced.values.Keys);
    forall i | 0 <= i < |kept| ensures Replace(kept[i], forced.values) == kept[i] {
      ReplacedLine(overrideLines[i], forced.values);
    }
    RepresentableIsPrintable(base.values);
    PrintedAreFixed(fKeys, forced.values, forced.values);
    PrintedAreFixed(bKeys, base.values, forced.values);
    var f, b := PrintAll(fKeys, forced.values), PrintAll(bKeys, base.values);
    BlockIsFixed(banners.forSet, f, forced.values);
    BlockIsFixed(banners.forBase, b, forced.values);
    GapIsFixed(kept, forced.values);
    FixedConcat(kept, Gap(kept), forced.values);
    FixedConcat(kept + Gap(kept), Block(banners.forSet, f), forced.values);
    FixedConcat(kept + Gap(kept) + Block(banners.forSet, f), Block(banners.forBase, b), forced.values);
  }

  lemma NothingToAdd(keys: seq<string>, skip: set<string>)
    requires forall k :: k in keys ==> k in skip
    ensures KeepKeys(keys, skip) == []
  {
    assert KeepKeys(keys, skip) != [] ==> KeepKeys(keys, skip)[0] in KeepKeys(keys, skip);
  }

  lemma TextIgnoresGap(lines: seq<string>)
    requires AllPlain(lines)
    ensures TextOf(lines + Gap(lines)) == TextOf(lines)
  {
    if Gap(lines) == [] {
      assert lines + Gap(lines) == lines;
    } else {
      TextDropsEmptyTail(lines);
      TextDropsEmptyTail(lines + [[]]);
      assert (lines + [[]])[..|lines|] == lines;
    }
  }

  /** A merge whose override already holds every pair adds nothing. */
  lemma SecondMerge(base: Dict, lines: seq<string>, forced: Dict, banners: Banners)
    requires base.Valid() && forced.Valid() && AllPlain(lines) && Fixed(lines, forced.values)
    requires base.values.Keys + forced.values.Keys <= Parse(lines).values.Keys
    ensures TextOf(OutputLines(base, lines, forced, banners)) == TextOf(lines)
  {
    assert ReplaceAll(lines, forced.values) == lines;
    NothingToAdd(forced.keys, Parse(lines).values.Keys);
    NothingToAdd(base.keys, Parse(lines).values.Keys + forced.values.Keys);
    assert OutputLines(base, lines, forced, banners) == lines + Gap(lines);
    TextIgnoresGap(lines);
  }

  lemma ReadBackIsFixed(lines: seq<string>, forced: map<string, string>)
    requires AllPlain(lines) && Fixed(lines, forced)
    ensures Fixed(ReadLines(TextOf(lines)), forced)
  {
    WrittenTextReadsBack(lines);
    assert !IsAssignment([]);
    CommentIsFixed([], forced);
    var kept := DropEmptyTail(lines);
    forall i | 0 <= i < |kept| ensures Replace(kept[i], forced) == kept[i] {
      assert kept[i] == lines[i];
    }
  }

  lemma MergeLinesAgain(base: Dict, overrideLines: seq<string>, forced: Dict, banners: Banners)
    requires MergeInput(base, overrideLines, forced, banners) && AllPrintable(forced.values)
    ensures var text := TextOf(OutputLines(base, overrideLines, forced, banners));
            TextOf(OutputLines(base, ReadLines(text), forced, banners)) == text
  {
    var lines := OutputLines(base, overrideLines, forced, banners);
    OutputValues(base, overrideLines, forced, banners);
    OutputIsFixed(base, overrideLines, forced, banners);
    ReadBackHolds(lines);
    ReadBackIsFixed(lines, forced.values);
    WrittenTextReadsBack(lines);
    PrintableIsAccepted(forced.values);
    SecondMerge(base, ReadLines(TextOf(lines)), forced, banners);
  }

  /** Merging again, with the output as the override, reproduces the text: for every base and
      override and any --set pairs with valid keys and values without line breaks. */
  lemma MergeIsIdempotent(base: Option<string>, override: Option<string>, forced: Dict)
    requires forced.Valid() && AllPrintable(forced.values)
    ensures Merge(base, Some(Merge(base, override, forced)), forced) == Merge(base, override, forced)
  {
    PrintableIsAccepted(forced.values);
    MergeInputOf(base, override, forced);
    MergeLinesAgain(Parse(FileLines(base)), FileLines(override), forced, SCRIPT_BANNERS);
  }

  lemma PlainPrinted(keys: seq<string>, m: map<string, string>)
    requires OnOneLine(m) && forall k :: k in keys ==> k in m
    ensures AllPlain(PrintAll(keys, m))
  {
    forall i | 0 <= i < |keys| ensures NoBreaks(Print(keys[i], m[keys[i]])) {
      assert NoBreaks(keys[i]) && NoBreaks(m[keys[i]]);
    }
  }

  lemma PlainReplaced(lines: seq<string>, forced: map<string, string>)
    requires AllPlain(lines) && OnOneLine(forced)
    ensures AllPlain(ReplaceAll(lines, forced))
  {
    forall i | 0 <= i < |lines| ensures NoBreaks(Replace(lines[i], forced)) {
      if IsAssignment(lines[i]) && RawKey(lines[i]) in forced {
        assert NoBreaks(RawKey(lines[i])) && NoBreaks(forced[RawKey(lines[i])]);
      }
    }
  }

  lemma PlainConcat(a: seq<string>, b: seq<string>)
    requires AllPlain(a) && AllPlain(b)
    ensures AllPlain(a + b)
  {
    forall i | 0 <= i < |a + b| ensures NoBreaks((a + b)[i]) {
      assert (a + b)[i] == if i < |a| then a[i] else b[i - |a|];
    }
  }

  lemma PlainBlock(banner: string, lines: seq<string>)
    requires NoBreaks(banner) && AllPlain(lines)
    ensures AllPlain(Block(banner, lines))
  {
    assert NoBreaks([]);
    PlainConcat([banner], lines);
    PlainConcat([banner] + lines, [[]]);
  }

  lemma PlainOutput(base: Dict, overrideLines: seq<string>, forced: Dict, banners: Banners)
    requires base.Valid() && forced.Valid() && OnOneLine(base.values) && OnOneLine(forced.values)
    requires AllPlain(overrideLines) && NoBreaks(banners.forSet) && NoBreaks(banners.forBase)
    ensures AllPlain(OutputLines(base, overrideLines, forced, banners))
  {
    var override := Parse(overrideLines);
    var kept := ReplaceAll(overrideLines, forced.values);
    var f, b := ForcedLines(forced, override), BaseLines(base, forced, override);
    PlainReplaced(overrideLines, forced.values);
    PlainPrinted(KeepKeys(forced.keys, override.values.Keys), forced.values);
    PlainPrinted(KeepKeys(base.keys, override.values.Keys + forced.values.Keys), base.values);
    PlainBlock(banners.forSet, f);
    PlainBlock(banners.forBase, b);
    assert NoBreaks([]);
    PlainConcat(kept, Gap(kept));
    PlainConcat(kept + Gap(kept), Block(banners.forSet, f));
    PlainConcat(kept + Gap(kept) + Block(banners.forSet, f), Block(banners.forBase, b));
  }

  lemma RepresentableIsOnOneLine(m: map<string, string>)
    requires AllRepresentable(m)
    ensures OnOneLine(m)
  {
    forall k | k in m ensures NoBreaks(k) && NoBreaks(m[k]) {
      assert Representable(k, m[k]);
      KeyIsTight(k);
    }
  }

  /** A forced key the parser would not accept is added again by every merge. */
  lemma InvalidKeyGrowsTheOutput(base: Dict, lines: seq<string>, forced: Dict, banners: Banners, key: string)
    requires base.Valid() && forced.Valid() && OnOneLine(base.values) && OnOneLine(forced.values) && AllPlain(lines)
    requires NoBreaks(banners.forSet) && NoBreaks(banners.forBase) && banners.forSet != []
    requires key in forced.values && !ValidKey(key)
    ensures |ReadLines(TextOf(OutputLines(base, lines, forced, banners)))| > |lines|
  {
    InvalidKeyIsAdded(base, lines, forced, banners, key);
    var out := OutputLines(base, lines, forced, banners);
    PlainOutput(base, lines, forced, banners);
    WrittenTextReadsBack(out);
    var at := |lines| + |Gap(ReplaceAll(lines, forced.values))|;
    assert |DropEmptyTail(out)| > at;
  }

  lemma InvalidKeyIsAdded(base: Dict, lines: seq<string>, forced: Dict, banners: Banners, key: string)
    requires base.Valid() && forced.Valid() && AllPlain(lines) && key in forced.values && !ValidKey(key)
    ensures var out, at := OutputLines(base, lines, forced, banners), |lines| + |Gap(ReplaceAll(lines, forced.values))|;
            at < |out| && out[at] == banners.forSet
  {
    var override := Parse(lines);
    ParsedValuesAreRepresentable(lines);
    assert key in override.values ==> Representable(key, override.values[key]);
    assert key in KeepKeys(forced.keys, override.values.Keys);
    var kept := ReplaceAll(lines, forced.values);
    BlockStarts(kept + Gap(kept), banners.forSet, ForcedLines(forced, override),
                Block(banners.forBase, BaseLines(base, forced, override)));
  }

  lemma BlockStarts(before: seq<string>, banner: string, lines: seq<string>, rest: seq<string>)
    requires lines != []
    ensures var out := before + Block(banner, lines) + rest; |before| < |out| && out[|before|] == banner
  {
  }

  /** For --set pairs without line breaks, merging again reproduces the text exactly when every
      key is valid. */
  lemma IdempotentExactly(base: Option<string>, override: Option<string>, forced: Dict)
    requires forced.Valid() && OnOneLine(forced.values)
    ensures Merge(base, Some(Merge(base, override, forced)), forced) == Merge(base, override, forced)
            <==> forall k :: k in forced.values ==> ValidKey(k)
  {
    if forall k :: k in forced.values ==> ValidKey(k) {
      MergeIsIdempotent(base, override, forced);
    } else {
      var key :| key in forced.values && !ValidKey(key);
      var text := Merge(base, override, forced);
      ParsedValuesAreRepresentable(FileLines(base));
      RepresentableIsOnOneLine(Values(base));
      ScriptBannersAreComments();
      SetBannerIsPlain();
      InvalidKeyGrowsTheOutput(Parse(FileLines(base)), ReadLines(text), forced, SCRIPT_BANNERS, key);
    }
  }

  // ---------------------------------------------------------------- duplicate keys

  ghost predicate NoDuplicates(lines: seq<string>) {
    forall k :: Count(Entries(lines), k) <= 1
  }

  lemma OutputCount(base: Dict, overrideLines: seq<string>, forced: Dict, banners: Banners, k: string)
    requires MergeInput(base, overrideLines, forced, banners)
    ensures Count(Entries(OutputLines(base, overrideLines, forced, banners)), k) ==
      if k in Parse(overrideLines).values then Count(Entries(overrideLines), k)
      else if k in Accepted(forced.values) || k in base.values then 1 else 0
  {
    OutputHolds(base, overrideLines, forced, banners);
    var override := Parse(overrideLines);
    var kept := Entries(ReplaceAll(overrideLines, forced.values));
    var fKeys := ValidOnly(KeepKeys(forced.keys, override.values.Keys));
    var bKeys := ValidOnly(KeepKeys(base.keys, override.values.Keys + forced.values.Keys));
    var fPairs, bPairs := PairsOf(fKeys, Seen(forced.values)), PairsOf(bKeys, Seen(base.values));
    EntriesReplaced(overrideLines, forced.values);
    CountForced(kept, Entries(overrideLines), Seen(forced.values), k);
    CountConcat(kept + fPairs, bPairs, k);
    CountConcat(kept, fPairs, k);
    CountPairs(fKeys, Seen(forced.values), k);
    CountPairs(bKeys, Seen(base.values), k);
    CountOfAbsent(Entries(overrideLines), k);
    ParsedValuesAreRepresentable(overrideLines);
    AcceptedKeys(base.values, override.values, forced.values, bKeys);
  }

  lemma OutputKeysOnce(base: Dict, overrideLines: seq<string>, forced: Dict, banners: Banners)
    requires MergeInput(base, overrideLines, forced, banners)
    ensures NoDuplicates(ReadLines(TextOf(OutputLines(base, overrideLines, forced, banners)))) <==> NoDuplicates(overrideLines)
  {
    var lines := OutputLines(base, overrideLines, forced, banners);
    OutputValues(base, overrideLines, forced, banners);
    ReadBackHolds(lines);
    var out := ReadLines(TextOf(lines));
    forall k ensures Count(Entries(out), k) <= 1 <==> Count(Entries(overrideLines), k) <= 1 {
      OutputCount(base, overrideLines, forced, banners, k);
      CountOfAbsent(Entries(overrideLines), k);
    }
  }

  /** The output sets no key twice exactly when the override sets none twice. */
  lemma KeysOccurOnce(base: Option<string>, override: Option<string>, forced: Dict)
    requires forced.Valid() && SetPairs(forced.values)
    ensures NoDuplicates(ReadLines(Merge(base, override, forced))) <==> NoDuplicates(FileLines(override))
  {
    MergeInputOf(base, override, forced);
    OutputKeysOnce(Parse(FileLines(base)), FileLines(override), forced, SCRIPT_BANNERS);
  }

  /** The dict the script makes of --set arguments without line breaks. */
  lemma {:induction false} SetDictIsSetPairs(pairs: seq<Option<Pair>>)
    requires forall i :: 0 <= i < |pairs| && pairs[i].Some? ==>
      IsSetKey(pairs[i].value.key) && NoBreaks(pairs[i].value.key) && NoBreaks(pairs[i].value.value)
    ensures FoldSets(pairs).Some? ==> SetPairs(FoldSets(pairs).value.values)
    decreases |pairs|
  {
    if pairs != [] {
      SetDictIsSetPairs(pairs[..|pairs| - 1]);
    }
  }

  /** So every --set list the script accepts, without line breaks, meets the condition above. */
  lemma ScriptSetsAreSetPairs(items: seq<string>)
    requires AllPlain(items)
    ensures Forced(items).Some? ==> SetPairs(Forced(items).value.values)
  {
    var pairs := SplitAll(items);
    forall i | 0 <= i < |pairs| && pairs[i].Some?
      ensures IsSetKey(pairs[i].value.key) && NoBreaks(pairs[i].value.key) && NoBreaks(pairs[i].value.value)
    {
      SplitPair(items[i]);
    }
    SetDictIsSetPairs(pairs);
  }

  lemma SplitPair(item: string)
    requires NoBreaks(item) && SplitSet(item).Some?
    ensures var pair := SplitSet(item).value; IsSetKey(pair.key) && NoBreaks(pair.key) && NoBreaks(pair.value)
  {
    var n := FirstEquals(item);
    StripKeepsPlain(item[..n]);
    StripOfTight(Strip(item[..n]));
    StripStaysWithin(item[..n], '=');
  }

  lemma TwoEntries(a: string, b: string, k: string)
    requires Entry(a).Some? && Entry(a).value.key == k && Entry(b).Some? && Entry(b).value.key == k
    ensures !NoDuplicates([a, b])
  {
    var entries, first := Entries([a, b]), [Entry(a)];
    assert entries[..1] == first && first[..0] == [];
    assert Count(first, k) == 1;
    assert Count(entries, k) == 2;
  }

  lemma TwoLinesReadBack(a: string, b: string)
    requires NoBreaks(a) && NoBreaks(b) && b != []
    ensures ReadLines(TextOf([a, b])) == [a, b]
  {
    WrittenTextReadsBack([a, b]);
  }

  /** A key set twice in the override is set twice in the output. */
  lemma RepeatedKeyStays(k: string, v: string, w: string)
    requires Printable(k, v) && Printable(k, w)
    ensures !NoDuplicates(ReadLines(Merge(None, Some(TextOf([Print(k, v), Print(k, w)])), EMPTY)))
  {
    var a, b := Print(k, v), Print(k, w);
    PrintedLine(k, v);
    PrintedLine(k, w);
    TwoLinesReadBack(a, b);
    TwoEntries(a, b, k);
    KeysOccurOnce(None, Some(TextOf([a, b])), EMPTY);
  }

  lemma PortLines()
    ensures Print("PORT", "1") == "PORT=1" && Print("PORT", "2") == "PORT=2"
    ensures Printable("PORT", "1") && Printable("PORT", "2")
  {
  }

  /** For one: an override of two lines that set PORT. */
  lemma PortSetTwice() returns (lines: seq<string>)
    ensures lines == ["PORT=1", "PORT=2"]
    ensures !NoDuplicates(ReadLines(Merge(None, Some(TextOf(lines)), EMPTY)))
  {
    PortLines();
    lines := PrintedTwice("PORT", "1", "2");
  }

  lemma PrintedTwice(k: string, v: string, w: string) returns (lines: seq<string>)
    requires Printable(k, v) && Printable(k, w)
    ensures lines == [Print(k, v), Print(k, w)]
    ensures !NoDuplicates(ReadLines(Merge(None, Some(TextOf(lines)), EMPTY)))
  {
    lines := [Print(k, v), Print(k, w)];
    RepeatedKeyStays(k, v, w);
  }
}
