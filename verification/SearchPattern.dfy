/**
 The search of backend/app/api/global_search.py: building a LIKE pattern from the query and
 what the pattern matches. LIKE with ESCAPE has the meaning of section 8.5 of
 ISO/IEC 9075:1992.
 */
module SearchPattern {
  import opened Basics

  const ESCAPE := '\\'

  /** The LIKE predicate with backslash as escape character. */
  predicate Like(text: string, pattern: string)
    decreases |pattern|, |text|
  {
    if pattern == [] then text == []
    else if pattern[0] == '%' then
      Like(text, pattern[1..]) || (text != [] && Like(text[1..], pattern))
    else if pattern[0] == '_' then
      text != [] && Like(text[1..], pattern[1..])
    else if pattern[0] == ESCAPE then
      |pattern| >= 2 && text != [] && text[0] == pattern[1] && Like(text[1..], pattern[2..])
    else
      text != [] && text[0] == pattern[0] && Like(text[1..], pattern[1..])
  }

  /** The standard allows an escape only before a wildcard or another escape. */
  predicate EscapesValid(pattern: string) {
    if pattern == [] then true
    else if pattern[0] != ESCAPE then EscapesValid(pattern[1..])
    else |pattern| >= 2 && IsSpecial(pattern[1]) && EscapesValid(pattern[2..])
  }

  predicate IsSpecial(c: char) {
    c == '%' || c == '_' || c == ESCAPE
  }

  predicate Contains(text: string, query: string) {
    exists i :: 0 <= i <= |text| - |query| && query <= text[i..]
  }

  // ---------------------------------------------------------------- escaping

  /** str.replace of one character. */
  function Replace(s: string, c: char, to: string): string {
    if s == [] then [] else (if s[0] == c then to else [s[0]]) + Replace(s[1..], c, to)
  }

  /** The three replaces of _pattern, one after the other. */
  function EscapeInSteps(query: string): string {
    Replace(Replace(Replace(query, '\\', ['\\', '\\']), '%', ['\\', '%']), '_', ['\\', '_'])
  }

  function EscapeChar(c: char): string {
    if IsSpecial(c) then [ESCAPE, c] else [c]
  }

  function Escape(query: string): string {
    if query == [] then [] else EscapeChar(query[0]) + Escape(query[1..])
  }

  lemma {:induction false} ReplaceConcat(a: string, b: string, c: char, to: string)
    ensures Replace(a + b, c, to) == Replace(a, c, to) + Replace(b, c, to)
  {
    if a == [] {
      assert a + b == b;
    } else {
      assert (a + b)[1..] == a[1..] + b;
      ReplaceConcat(a[1..], b, c, to);
    }
  }

  lemma ReplaceOne(x: char, c: char, to: string)
    ensures Replace([x], c, to) == if x == c then to else [x]
  {
    assert Replace([x][1..], c, to) == [];
  }

  lemma ReplaceTwo(x: char, y: char, c: char, to: string)
    ensures Replace([x, y], c, to) == (if x == c then to else [x]) + (if y == c then to else [y])
  {
    assert [x, y] == [x] + [y];
    ReplaceConcat([x], [y], c, to);
    ReplaceOne(x, c, to);
    ReplaceOne(y, c, to);
  }

  lemma StepsOnOneChar(x: char)
    ensures Replace(Replace(if x == '\\' then ['\\', '\\'] else [x], '%', ['\\', '%']), '_', ['\\', '_']) == EscapeChar(x)
  {
    if x == '\\' {
      ReplaceTwo('\\', '\\', '%', ['\\', '%']);
      ReplaceTwo('\\', '\\', '_', ['\\', '_']);
    } else {
      ReplaceOne(x, '%', ['\\', '%']);
      if x == '%' {
        ReplaceTwo('\\', '%', '_', ['\\', '_']);
      } else {
        ReplaceOne(x, '_', ['\\', '_']);
      }
    }
  }

  /** Escaping backslashes first makes the three replaces equal one pass over the query. */
  lemma {:induction false} StepsAreOnePass(query: string)
    ensures EscapeInSteps(query) == Escape(query)
  {
    if query != [] {
      var x, rest := query[0], query[1..];
      var head := if x == '\\' then ['\\', '\\'] else [x];
      var tail := Replace(rest, '\\', ['\\', '\\']);
      assert Replace(query, '\\', ['\\', '\\']) == head + tail;
      ReplaceConcat(head, tail, '%', ['\\', '%']);
      ReplaceConcat(Replace(head, '%', ['\\', '%']), Replace(tail, '%', ['\\', '%']), '_', ['\\', '_']);
      StepsOnOneChar(x);
      StepsAreOnePass(rest);
    }
  }

  function Pattern(query: string): string {
    ['%'] + EscapeInSteps(query) + ['%']
  }

  // ---------------------------------------------------------------- what the pattern matches

  lemma {:induction false} PercentMatchesAll(text: string)
    ensures Like(text, ['%'])
  {
    assert ['%'][1..] == [];
    if text != [] {
      PercentMatchesAll(text[1..]);
    }
  }

  /** The escaped query consumes exactly itself. */
  lemma {:induction false} EscapedIsLiteral(text: string, query: string)
    ensures Like(text, Escape(query) + ['%']) <==> query <= text
    decreases |query|
  {
    if query == [] {
      assert Escape(query) + ['%'] == ['%'];
      PercentMatchesAll(text);
    } else {
      var c, rest := query[0], query[1..];
      var pattern := Escape(query) + ['%'];
      assert pattern == EscapeChar(c) + (Escape(rest) + ['%']);
      if IsSpecial(c) {
        assert pattern[2..] == Escape(rest) + ['%'];
      } else {
        assert pattern[1..] == Escape(rest) + ['%'];
      }
      if text != [] {
        EscapedIsLiteral(text[1..], rest);
        assert text == [text[0]] + text[1..] && query == [c] + rest;
        assert query <= text <==> text[0] == c && rest <= text[1..];
      }
    }
  }

  lemma {:induction false} LeadingPercentSearches(text: string, query: string)
    ensures Like(text, ['%'] + Escape(query) + ['%']) <==> Contains(text, query)
    decreases |text|
  {
    var tail := Escape(query) + ['%'];
    var pattern := ['%'] + Escape(query) + ['%'];
    assert pattern[1..] == tail;
    EscapedIsLiteral(text, query);
    assert text[0..] == text;
    if text == [] {
      if Contains(text, query) {
        var i :| 0 <= i <= |text| - |query| && query <= text[i..];
      }
    } else {
      LeadingPercentSearches(text[1..], query);
      ContainsStep(text, query);
    }
  }

  lemma ContainsStep(text: string, query: string)
    requires text != []
    ensures Contains(text, query) <==> query <= text || Contains(text[1..], query)
  {
    assert text[0..] == text;
    if Contains(text, query) {
      var i :| 0 <= i <= |text| - |query| && query <= text[i..];
      if i > 0 {
        assert text[1..][i - 1..] == text[i..];
      }
    }
    if Contains(text[1..], query) {
      var i :| 0 <= i <= |text[1..]| - |query| && query <= text[1..][i..];
      assert text[i + 1..] == text[1..][i..];
    }
  }

  /** Main result: for every query and text, the pattern matches exactly the texts that contain
      the query, so no character of the query acts as a wildcard. */
  lemma PatternMeansSubstring(text: string, query: string)
    ensures Like(text, Pattern(query)) <==> Contains(text, query)
  {
    StepsAreOnePass(query);
    LeadingPercentSearches(text, query);
  }

  lemma ValidAfterChar(c: char, tail: string)
    requires EscapesValid(tail)
    ensures EscapesValid(EscapeChar(c) + tail)
  {
    var pattern := EscapeChar(c) + tail;
    if IsSpecial(c) {
      assert pattern[0] == ESCAPE && pattern[1] == c && pattern[2..] == tail;
    } else {
      assert pattern[0] == c && pattern[1..] == tail;
    }
  }

  lemma {:induction false} EscapeIsValid(query: string, after: string)
    requires EscapesValid(after)
    ensures EscapesValid(Escape(query) + after)
  {
    if query == [] {
      assert Escape(query) + after == after;
    } else {
      EscapeIsValid(query[1..], after);
      ValidAfterChar(query[0], Escape(query[1..]) + after);
      assert Escape(query) + after == EscapeChar(query[0]) + (Escape(query[1..]) + after);
    }
  }

  /** The pattern never makes the database reject it. */
  lemma PatternIsValid(query: string)
    ensures EscapesValid(Pattern(query))
  {
    StepsAreOnePass(query);
    assert EscapesValid(['%']) by {
      assert ['%'][1..] == [];
    }
    EscapeIsValid(query, ['%']);
    assert Pattern(query)[1..] == Escape(query) + ['%'];
  }

  // ---------------------------------------------------------------- case folding

  /** A case folding that leaves the special characters alone and never makes one. */
  ghost predicate KeepsSpecials(fold: char -> string) {
    forall c :: if IsSpecial(c) then fold(c) == [c] else forall x :: x in fold(c) ==> !IsSpecial(x)
  }

  function FoldAll(fold: char -> string, s: string): string {
    if s == [] then [] else fold(s[0]) + FoldAll(fold, s[1..])
  }

  lemma {:induction false} FoldConcat(fold: char -> string, a: string, b: string)
    ensures FoldAll(fold, a + b) == FoldAll(fold, a) + FoldAll(fold, b)
  {
    if a == [] {
      assert a + b == b;
    } else {
      assert (a + b)[1..] == a[1..] + b;
      FoldConcat(fold, a[1..], b);
    }
  }

  lemma FoldOne(fold: char -> string, c: char)
    ensures FoldAll(fold, [c]) == fold(c)
  {
    assert FoldAll(fold, [c][1..]) == [];
  }

  lemma {:induction false} EscapeConcat(a: string, b: string)
    ensures Escape(a + b) == Escape(a) + Escape(b)
  {
    if a == [] {
      assert a + b == b;
    } else {
      assert (a + b)[1..] == a[1..] + b;
      EscapeConcat(a[1..], b);
    }
  }

  lemma {:induction false} EscapeOfPlain(s: string)
    requires forall x :: x in s ==> !IsSpecial(x)
    ensures Escape(s) == s
  {
    if s != [] {
      assert s[0] in s;
      EscapeOfPlain(s[1..]);
    }
  }

  lemma FoldEscapedChar(fold: char -> string, c: char)
    requires KeepsSpecials(fold)
    ensures FoldAll(fold, EscapeChar(c)) == Escape(fold(c))
  {
    if IsSpecial(c) {
      assert [ESCAPE, c] == [ESCAPE] + [c];
      FoldConcat(fold, [ESCAPE], [c]);
      FoldOne(fold, ESCAPE);
      FoldOne(fold, c);
      assert [c][1..] == [];
    } else {
      FoldOne(fold, c);
      EscapeOfPlain(fold(c));
    }
  }

  lemma {:induction false} FoldEscaped(fold: char -> string, query: string)
    requires KeepsSpecials(fold)
    ensures FoldAll(fold, Escape(query)) == Escape(FoldAll(fold, query))
  {
    if query != [] {
      FoldConcat(fold, EscapeChar(query[0]), Escape(query[1..]));
      FoldEscapedChar(fold, query[0]);
      FoldEscaped(fold, query[1..]);
      EscapeConcat(fold(query[0]), FoldAll(fold, query[1..]));
    }
  }

  /** ILIKE folds both sides; a NULL column matches nothing. */
  predicate Ilike(fold: char -> string, column: Option<string>, pattern: string) {
    column.Some? && Like(FoldAll(fold, column.value), FoldAll(fold, pattern))
  }

  predicate Matches(fold: char -> string, pattern: string, columns: seq<Option<string>>) {
    exists i :: 0 <= i < |columns| && Ilike(fold, columns[i], pattern)
  }

  /** A row is found exactly when one of its columns contains the query, case aside. */
  lemma MatchesMeansContains(fold: char -> string, query: string, columns: seq<Option<string>>)
    requires KeepsSpecials(fold)
    ensures Matches(fold, Pattern(query), columns) <==>
            exists i :: 0 <= i < |columns| && columns[i].Some? && Contains(FoldAll(fold, columns[i].value), FoldAll(fold, query))
  {
    forall i | 0 <= i < |columns|
      ensures Ilike(fold, columns[i], Pattern(query)) <==>
              columns[i].Some? && Contains(FoldAll(fold, columns[i].value), FoldAll(fold, query))
    {
      if columns[i].Some? {
        IlikeMeansContains(fold, columns[i].value, query);
      }
    }
  }

  lemma IlikeMeansContains(fold: char -> string, text: string, query: string)
    requires KeepsSpecials(fold)
    ensures Ilike(fold, Some(text), Pattern(query)) <==> Contains(FoldAll(fold, text), FoldAll(fold, query))
  {
    StepsAreOnePass(query);
    FoldConcat(fold, ['%'] + Escape(query), ['%']);
    FoldConcat(fold, ['%'], Escape(query));
    FoldOne(fold, '%');
    assert IsSpecial('%') && fold('%') == ['%'];
    FoldEscaped(fold, query);
    LeadingPercentSearches(FoldAll(fold, text), FoldAll(fold, query));
  }
}
