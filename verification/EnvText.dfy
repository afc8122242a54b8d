/**
 The string operations scripts/deploy/merge-env-files.py relies on, with Python's meaning:
 strip, splitlines, join, and the newline translation of text files.
 */
module EnvText {

  /** The line boundaries of str.splitlines. */
  predicate IsLineBreak(c: char) {
    var n := c as int;
    10 <= n <= 13 || 0x1C <= n <= 0x1E || n == 0x85 || n == 0x2028 || n == 0x2029
  }

  /** str.isspace. */
  predicate IsSpace(c: char)
    ensures IsLineBreak(c) ==> IsSpace(c)
  {
    var n := c as int;
    9 <= n <= 13 || 0x1C <= n <= 0x20 || n == 0x85 || n == 0xA0 || n == 0x1680
    || 0x2000 <= n <= 0x200A || n == 0x2028 || n == 0x2029 || n == 0x202F || n == 0x205F || n == 0x3000
  }

  predicate NoBreaks(s: string) {
    forall i :: 0 <= i < |s| ==> !IsLineBreak(s[i])
  }

  // ---------------------------------------------------------------- strip

  function Lstrip(s: string): (r: string)
    ensures r == [] || !IsSpace(r[0])
  {
    if s != [] && IsSpace(s[0]) then Lstrip(s[1..]) else s
  }

  function Rstrip(s: string): (r: string)
    ensures r == [] || (!IsSpace(r[|r| - 1]) && s != [] && r[0] == s[0])
  {
    if s != [] && IsSpace(s[|s| - 1]) then Rstrip(s[..|s| - 1]) else s
  }

  function Strip(s: string): (r: string)
    ensures r == [] || (!IsSpace(r[0]) && !IsSpace(r[|r| - 1]))
  {
    Rstrip(Lstrip(s))
  }

  lemma {:induction false} LstripKeepsPlain(s: string)
    requires NoBreaks(s)
    ensures NoBreaks(Lstrip(s))
  {
    if s != [] {
      LstripKeepsPlain(s[1..]);
    }
  }

  lemma {:induction false} RstripKeepsPlain(s: string)
    requires NoBreaks(s)
    ensures NoBreaks(Rstrip(s))
  {
    if s != [] {
      RstripKeepsPlain(s[..|s| - 1]);
    }
  }

  lemma StripKeepsPlain(s: string)
    requires NoBreaks(s)
    ensures NoBreaks(Strip(s))
  {
    LstripKeepsPlain(s);
    RstripKeepsPlain(Lstrip(s));
  }

  lemma StripOfTight(s: string)
    requires s == [] || (!IsSpace(s[0]) && !IsSpace(s[|s| - 1]))
    ensures Strip(s) == s
  {
  }

  lemma {:induction false} LstripStaysWithin(s: string, c: char)
    requires c !in s
    ensures c !in Lstrip(s)
  {
    if s != [] {
      LstripStaysWithin(s[1..], c);
    }
  }

  lemma {:induction false} RstripStaysWithin(s: string, c: char)
    requires c !in s
    ensures c !in Rstrip(s)
  {
    if s != [] {
      RstripStaysWithin(s[..|s| - 1], c);
    }
  }

  lemma StripStaysWithin(s: string, c: char)
    requires c !in s
    ensures c !in Strip(s)
  {
    LstripStaysWithin(s, c);
    RstripStaysWithin(Lstrip(s), c);
  }

  lemma {:induction false} RstripSuffix(a: string, b: string)
    requires a != [] && !IsSpace(a[|a| - 1])
    ensures Rstrip(a + b) == a + Rstrip(b)
    decreases |b|
  {
    if b == [] {
      assert a + b == a;
    } else if IsSpace(b[|b| - 1]) {
      var c := b[..|b| - 1];
      assert (a + b)[..|a + b| - 1] == a + c;
      RstripSuffix(a, c);
    }
  }

  // ---------------------------------------------------------------- lines

  function FirstBreak(s: string): (r: nat)
    ensures r <= |s| && forall i :: 0 <= i < r ==> !IsLineBreak(s[i])
    ensures r < |s| ==> IsLineBreak(s[r])
  {
    if s == [] || IsLineBreak(s[0]) then 0 else 1 + FirstBreak(s[1..])
  }

  /** str.splitlines: a carriage return and line feed count once. */
  function SplitLines(s: string): (lines: seq<string>)
    ensures forall i :: 0 <= i < |lines| ==> NoBreaks(lines[i])
    decreases |s|
  {
    if s == [] then [] else
    var n := FirstBreak(s);
    if n == |s| then assert s[..n] == s; [s]
    else if s[n] == '\r' && n + 1 < |s| && s[n + 1] == '\n' then [s[..n]] + SplitLines(s[n + 2..])
    else [s[..n]] + SplitLines(s[n + 1..])
  }

  /** What reading a text file does to its line ends. */
  function UniversalNewlines(s: string): string {
    if s == [] then []
    else if s[0] != '\r' then [s[0]] + UniversalNewlines(s[1..])
    else if |s| >= 2 && s[1] == '\n' then ['\n'] + UniversalNewlines(s[2..])
    else ['\n'] + UniversalNewlines(s[1..])
  }

  function ReadLines(content: string): (lines: seq<string>)
    ensures forall i :: 0 <= i < |lines| ==> NoBreaks(lines[i])
  {
    SplitLines(UniversalNewlines(content))
  }

  function Join(lines: seq<string>): string {
    if lines == [] then []
    else if |lines| == 1 then lines[0]
    else lines[0] + ['\n'] + Join(lines[1..])
  }

  function StripNewlines(s: string): string {
    if s != [] && s[|s| - 1] == '\n' then StripNewlines(s[..|s| - 1]) else s
  }

  /** What the script writes for its list of output lines. */
  function TextOf(lines: seq<string>): string {
    StripNewlines(Join(lines)) + ['\n']
  }

  function DropEmptyTail(lines: seq<string>): (r: seq<string>)
    ensures r <= lines && (r == [] || r[|r| - 1] != [])
    ensures forall i :: |r| <= i < |lines| ==> lines[i] == []
  {
    if lines != [] && lines[|lines| - 1] == [] then DropEmptyTail(lines[..|lines| - 1]) else lines
  }

  ghost predicate AllPlain(lines: seq<string>) {
    forall i :: 0 <= i < |lines| ==> NoBreaks(lines[i])
  }

  lemma FirstBreakIs(line: string, rest: string)
    requires NoBreaks(line)
    ensures FirstBreak(line + ['\n'] + rest) == |line|
  {
    var s := line + ['\n'] + rest;
    var r := FirstBreak(s);
    assert s[|line|] == '\n' && forall k :: 0 <= k < |line| ==> s[k] == line[k];
  }

  lemma SplitTerminated(line: string, rest: string)
    requires NoBreaks(line)
    ensures SplitLines(line + ['\n'] + rest) == [line] + SplitLines(rest)
  {
    var s := line + ['\n'] + rest;
    FirstBreakIs(line, rest);
    assert s[..|line|] == line && s[|line|] == '\n' && s[|line| + 1..] == rest;
  }

  lemma {:induction false} SplitOfJoin(lines: seq<string>)
    requires AllPlain(lines) && lines != []
    ensures SplitLines(Join(lines) + ['\n']) == lines
  {
    if |lines| == 1 {
      SplitTerminated(lines[0], []);
      assert lines[0] + ['\n'] + [] == Join(lines) + ['\n'];
      assert lines == [lines[0]];
    } else {
      SplitTerminated(lines[0], Join(lines[1..]) + ['\n']);
      assert Join(lines) + ['\n'] == lines[0] + ['\n'] + (Join(lines[1..]) + ['\n']);
      SplitOfJoin(lines[1..]);
    }
  }

  lemma {:induction false} JoinSnoc(lines: seq<string>, x: string)
    requires lines != []
    ensures Join(lines + [x]) == Join(lines) + ['\n'] + x
  {
    if |lines| == 1 {
      assert (lines + [x])[1..] == [x];
    } else {
      assert (lines + [x])[1..] == lines[1..] + [x];
      JoinSnoc(lines[1..], x);
    }
  }

  /** Stripping the joined text drops exactly the empty lines at its end. */
  lemma {:induction false} TextDropsEmptyTail(lines: seq<string>)
    requires AllPlain(lines)
    ensures StripNewlines(Join(lines)) == Join(DropEmptyTail(lines))
    decreases |lines|
  {
    if lines != [] {
      var init, last := lines[..|lines| - 1], lines[|lines| - 1];
      assert lines == init + [last];
      if init != [] {
        JoinSnoc(init, last);
      }
      if last == [] {
        TextDropsEmptyTail(init);
        if init != [] {
          assert Join(lines) == Join(init) + ['\n'];
        }
      } else {
        var text := Join(lines);
        assert text[|text| - 1] == last[|last| - 1] && !IsLineBreak(last[|last| - 1]);
      }
    }
  }

  lemma {:induction false} NewlinesUntouched(s: string)
    requires '\r' !in s
    ensures UniversalNewlines(s) == s
  {
    if s != [] {
      NewlinesUntouched(s[1..]);
    }
  }

  lemma {:induction false} JoinHasNoReturn(lines: seq<string>)
    requires AllPlain(lines)
    ensures '\r' !in Join(lines)
  {
    if |lines| == 1 {
      assert NoBreaks(lines[0]);
    } else if |lines| > 1 {
      JoinHasNoReturn(lines[1..]);
      assert NoBreaks(lines[0]);
    }
  }

  /** Reading back what the script wrote gives its lines without the empty ones at the end;
      a text of no lines at all still reads as one empty line. */
  lemma WrittenTextReadsBack(lines: seq<string>)
    requires AllPlain(lines)
    ensures ReadLines(TextOf(lines)) == if DropEmptyTail(lines) == [] then [[]] else DropEmptyTail(lines)
    ensures TextOf(ReadLines(TextOf(lines))) == TextOf(lines)
  {
    var kept := DropEmptyTail(lines);
    TextDropsEmptyTail(lines);
    TextDropsEmptyTail(kept);
    JoinHasNoReturn(kept);
    NewlinesUntouched(TextOf(lines));
    if kept == [] {
      SplitTerminated([], []);
      assert [] + ['\n'] + [] == TextOf(lines);
    } else {
      SplitOfJoin(kept);
    }
  }

  // ---------------------------------------------------------------- reading line by line

  /** How a line can end: with any line boundary, or with a carriage return and a line feed; a single
      carriage return is not followed by a line feed. */
  ghost predicate IsEnd(end: string, rest: string) {
    end == ['\r', '\n'] ||
    (|end| == 1 && IsLineBreak(end[0]) && (end == ['\r'] ==> rest == [] || rest[0] != '\n'))
  }

  lemma SplitsOneLine(line: string, end: string, rest: string)
    requires NoBreaks(line) && IsEnd(end, rest)
    ensures SplitLines(line + end + rest) == [line] + SplitLines(rest)
  {
    var s := line + end + rest;
    var r := FirstBreak(s);
    assert s[|line|] == end[0] && forall k :: 0 <= k < |line| ==> s[k] == line[k];
    assert r == |line| && s[..r] == line;
    if |end| == 2 {
      assert s[r + 1] == '\n' && s[r + 2..] == rest;
    } else {
      assert s[r + 1..] == rest;
    }
  }

  lemma {:induction false} NewlinesAfter(a: string, b: string)
    requires '\r' !in a
    ensures UniversalNewlines(a + b) == a + UniversalNewlines(b)
  {
    if a == [] {
      assert a + b == b;
    } else {
      assert (a + b)[1..] == a[1..] + b;
      NewlinesAfter(a[1..], b);
    }
  }

  /** A file is read line by line: whatever boundary ends a line counts once, and the rest is read in
      the same way; a last line needs none. */
  lemma ReadsOneLine(line: string, end: string, rest: string)
    requires NoBreaks(line) && IsEnd(end, rest)
    ensures ReadLines(line + end + rest) == [line] + ReadLines(rest)
    ensures ReadLines(line) == if line == [] then [] else [line]
  {
    var seen := if end[0] == '\r' then ['\n'] else end;
    assert '\r' !in line;
    NewlinesAfter(line, end + rest);
    assert line + end + rest == line + (end + rest);
    assert UniversalNewlines(end + rest) == seen + UniversalNewlines(rest) by {
      if |end| == 2 {
        assert (end + rest)[2..] == rest;
      } else {
        assert (end + rest)[1..] == rest;
      }
    }
    assert line + (seen + UniversalNewlines(rest)) == line + seen + UniversalNewlines(rest);
    SplitsOneLine(line, seen, UniversalNewlines(rest));
    NewlinesUntouched(line);
  }
}
