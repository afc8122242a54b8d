/**
 The tail of global_search in backend/app/api/global_search.py: the rank of a hit, the sort of the
 collected hits, the cut to the requested limit and the counts by category.
 */
module SearchRanking {
  import opened Basics
  import opened SearchPattern

  datatype Hit = Hit(category: string, id: int, title: string, subtitle: Option<string>)

  /** `fold` is the case folding of titles, `query` the folded query. */
  function Rank(fold: char -> string, h: Hit, query: string): nat {
    var title := FoldAll(fold, h.title);
    var subtitle := if h.subtitle.Some? then FoldAll(fold, h.subtitle.value) else "";
    if title == query then 0
    else if query <= title then 1
    else if Contains(title, query) then 2
    else if Contains(subtitle, query) then 3
    else 4
  }

  /** The ranks are nested: equal, prefix, part of the title, part of title or subtitle. */
  lemma RankMeans(fold: char -> string, h: Hit, query: string)
    requires query != ""
    ensures var title, r := FoldAll(fold, h.title), Rank(fold, h, query);
            && (r <= 2 <==> Contains(title, query))
            && (r <= 1 <==> query <= title)
            && (r == 0 <==> title == query)
            && (r <= 3 <==> Contains(title, query) || (h.subtitle.Some? && Contains(FoldAll(fold, h.subtitle.value), query)))
  {
    var title := FoldAll(fold, h.title);
    if query <= title {
      assert title[0..] == title;
    }
  }

  /** A hit that matched on its title or subtitle never gets the last rank, when matching folds
      letters as ranking does. */
  lemma MatchedTextIsRanked(fold: char -> string, h: Hit, query: string)
    requires KeepsSpecials(fold) && FoldAll(fold, query) != ""
    ensures Matches(fold, Pattern(query), [Some(h.title), h.subtitle]) <==> Rank(fold, h, FoldAll(fold, query)) <= 3
  {
    var columns := [Some(h.title), h.subtitle];
    MatchesMeansContains(fold, query, columns);
    RankMeans(fold, h, FoldAll(fold, query));
    assert columns[0] == Some(h.title) && columns[1] == h.subtitle;
  }

  // ---------------------------------------------------------------- the order of hits

  /** Code point order of strings. */
  predicate Below(a: string, b: string)
    decreases |a|
  {
    b != [] && (a == [] || a[0] < b[0] || (a[0] == b[0] && Below(a[1..], b[1..])))
  }

  lemma {:induction false} BelowIsStrict(a: string, b: string)
    requires Below(a, b)
    ensures a != b && !Below(b, a)
    decreases |a|
  {
    if a != [] && a[0] == b[0] {
      BelowIsStrict(a[1..], b[1..]);
    }
  }

  lemma {:induction false} BelowTotal(a: string, b: string)
    ensures a == b || Below(a, b) || Below(b, a)
    decreases |a|
  {
    if a != [] && b != [] && a[0] == b[0] {
      BelowTotal(a[1..], b[1..]);
      assert a == [a[0]] + a[1..] && b == [b[0]] + b[1..];
    }
  }

  lemma {:induction false} BelowTransitive(a: string, b: string, c: string)
    requires Below(a, b) && Below(b, c)
    ensures Below(a, c)
    decreases |a|
  {
    if a != [] && a[0] == b[0] == c[0] {
      BelowTransitive(a[1..], b[1..], c[1..]);
    }
  }

  /** One text comes before another if it is the beginning of it, or has the smaller character where
      they first differ. */
  lemma {:induction false} BelowMeans(a: string, b: string)
    ensures Below(a, b) <==>
      (a <= b && a != b) || exists i :: 0 <= i < |a| && i < |b| && a[..i] == b[..i] && a[i] < b[i]
    decreases |a|
  {
    if a != [] && b != [] {
      assert a == [a[0]] + a[1..] && b == [b[0]] + b[1..];
      if a[0] == b[0] {
        var x, y := a[1..], b[1..];
        BelowMeans(x, y);
        if i :| 0 <= i < |x| && i < |y| && x[..i] == y[..i] && x[i] < y[i] {
          assert a[..i + 1] == [a[0]] + x[..i] && b[..i + 1] == [b[0]] + y[..i];
          assert a[..i + 1] == b[..i + 1] && a[i + 1] < b[i + 1];
        }
        if i :| 0 <= i < |a| && i < |b| && a[..i] == b[..i] && a[i] < b[i] {
          assert i > 0 && x[..i - 1] == a[..i][1..] && y[..i - 1] == b[..i][1..];
          assert x[..i - 1] == y[..i - 1] && x[i - 1] < y[i - 1];
        }
      } else {
        if a[0] < b[0] {
          assert a[..0] == b[..0];
        }
        assert forall i :: 0 < i < |a| && i < |b| ==> a[..i][0] == a[0] && b[..i][0] == b[0];
      }
    }
  }

  /** The sort key of a hit, with its position in the unsorted list. */
  datatype Place = Place(rank: nat, category: string, title: string, id: int, position: nat)

  /** The key order; the sort is stable, so equal keys keep their positions' order. */
  predicate Before(a: Place, b: Place) {
    if a.rank != b.rank then a.rank < b.rank
    else if a.category != b.category then Below(a.category, b.category)
    else if a.title != b.title then Below(a.title, b.title)
    else if a.id != b.id then a.id < b.id
    else a.position < b.position
  }

  lemma BeforeIsTotal(a: Place, b: Place)
    ensures if a == b then !Before(a, b) else Before(a, b) <==> !Before(b, a)
  {
    BelowTotal(a.category, b.category);
    BelowTotal(a.title, b.title);
    if Below(a.category, b.category) { BelowIsStrict(a.category, b.category); }
    if Below(b.category, a.category) { BelowIsStrict(b.category, a.category); }
    if Below(a.title, b.title) { BelowIsStrict(a.title, b.title); }
    if Below(b.title, a.title) { BelowIsStrict(b.title, a.title); }
  }

  lemma BeforeTransitive(a: Place, b: Place, c: Place)
    requires Before(a, b) && Before(b, c)
    ensures Before(a, c)
  {
    if Below(a.category, b.category) && Below(b.category, c.category) {
      BelowTransitive(a.category, b.category, c.category);
    }
    if Below(a.category, b.category) && Below(b.category, a.category) {
      BelowIsStrict(a.category, b.category);
    }
    if Below(a.title, b.title) && Below(b.title, c.title) {
      BelowTransitive(a.title, b.title, c.title);
    }
    if Below(a.title, b.title) && Below(b.title, a.title) {
      BelowIsStrict(a.title, b.title);
    }
  }

  // ---------------------------------------------------------------- sorting

  ghost predicate Ascending(places: seq<Place>) {
    forall i, j :: 0 <= i < j < |places| ==> Before(places[i], places[j])
  }

  /** What list.sort leaves: the same places in ascending order. */
  ghost predicate SortOf(sorted: seq<Place>, places: seq<Place>) {
    Ascending(sorted) && multiset(sorted) == multiset(places)
  }

  lemma AscendingTail(a: seq<Place>)
    requires Ascending(a) && a != []
    ensures Ascending(a[1..]) && forall p :: p in a[1..] <==> p in a && p != a[0]
  {
    forall i | 1 <= i < |a| ensures a[i] != a[0] {
      BeforeIsTotal(a[0], a[i]);
    }
    assert a == [a[0]] + a[1..];
  }

  lemma SmallestIsFirst(a: seq<Place>, b: seq<Place>)
    requires Ascending(a) && Ascending(b) && a != [] && b != [] && a[0] in b && b[0] in a
    ensures a[0] == b[0]
  {
    var i :| 0 <= i < |b| && b[i] == a[0];
    var j :| 0 <= j < |a| && a[j] == b[0];
    BeforeIsTotal(a[0], b[0]);
  }

  lemma {:induction false} AscendingIsUnique(a: seq<Place>, b: seq<Place>)
    requires Ascending(a) && Ascending(b) && forall p :: p in a <==> p in b
    ensures a == b
    decreases |a|
  {
    assert (a != [] ==> a[0] in a) && (b != [] ==> b[0] in b);
    if a != [] {
      SmallestIsFirst(a, b);
      AscendingTail(a);
      AscendingTail(b);
      AscendingIsUnique(a[1..], b[1..]);
      assert a == [a[0]] + a[1..] && b == [b[0]] + b[1..];
    }
  }

  function Insert(p: Place, sorted: seq<Place>): (r: seq<Place>)
    ensures multiset(r) == multiset(sorted) + multiset{p}
    decreases |sorted|
  {
    if sorted == [] || Before(p, sorted[0]) then [p] + sorted
    else
      assert sorted == [sorted[0]] + sorted[1..];
      [sorted[0]] + Insert(p, sorted[1..])
  }

  lemma {:induction false} InsertAscends(p: Place, sorted: seq<Place>)
    requires Ascending(sorted) && p !in sorted
    ensures Ascending(Insert(p, sorted))
    decreases |sorted|
  {
    if sorted == [] {
    } else if Before(p, sorted[0]) {
      forall j | 0 <= j < |sorted| ensures Before(p, sorted[j]) {
        if j > 0 {
          BeforeTransitive(p, sorted[0], sorted[j]);
        }
      }
    } else {
      var rest := Insert(p, sorted[1..]);
      InsertAscends(p, sorted[1..]);
      BeforeIsTotal(p, sorted[0]);
      forall j | 0 <= j < |rest| ensures Before(sorted[0], rest[j]) {
        assert rest[j] in multiset(rest);
        assert rest[j] == p || rest[j] in sorted[1..];
      }
    }
  }

  function Sort(places: seq<Place>): (r: seq<Place>)
    ensures multiset(r) == multiset(places)
    decreases |places|
  {
    if places == [] then [] else
      assert places == [places[0]] + places[1..];
      Insert(places[0], Sort(places[1..]))
  }

  lemma {:induction false} SortAscends(places: seq<Place>)
    requires Distinct(places)
    ensures Ascending(Sort(places))
    decreases |places|
  {
    if places != [] {
      SortAscends(places[1..]);
      assert places[0] !in places[1..];
      assert forall p :: p in Sort(places[1..]) <==> p in multiset(Sort(places[1..]));
      InsertAscends(places[0], Sort(places[1..]));
    }
  }

  // ---------------------------------------------------------------- the answer

  function Places(fold: char -> string, hits: seq<Hit>, query: string): (r: seq<Place>)
    ensures |r| == |hits| && Distinct(r)
    ensures forall i :: 0 <= i < |r| ==>
      r[i] == Place(Rank(fold, hits[i], query), hits[i].category, FoldAll(fold, hits[i].title), hits[i].id, i)
  {
    seq(|hits|, i requires 0 <= i < |hits| =>
      Place(Rank(fold, hits[i], query), hits[i].category, FoldAll(fold, hits[i].title), hits[i].id, i))
  }

  /** The sorted places cut to the limit. */
  function Page(fold: char -> string, hits: seq<Hit>, query: string, limit: nat): seq<Place> {
    var sorted := Sort(Places(fold, hits, query));
    if limit < |sorted| then sorted[..limit] else sorted
  }

  /** Whatever algorithm sorts, it gives this page: there is only one ascending order. */
  lemma PageIsDetermined(fold: char -> string, hits: seq<Hit>, query: string, limit: nat, sorted: seq<Place>)
    requires SortOf(sorted, Places(fold, hits, query))
    ensures Page(fold, hits, query, limit) == if limit < |sorted| then sorted[..limit] else sorted
  {
    var all := Places(fold, hits, query);
    SortAscends(all);
    assert forall p :: p in sorted <==> p in multiset(sorted);
    assert forall p :: p in Sort(all) <==> p in multiset(Sort(all));
    AscendingIsUnique(sorted, Sort(all));
  }

  lemma SortKeepsMembers(places: seq<Place>)
    ensures |Sort(places)| == |places| && forall p :: p in Sort(places) <==> p in places
  {
    var sorted := Sort(places);
    assert |sorted| == |multiset(sorted)| == |multiset(places)| == |places|;
    assert forall p :: p in sorted <==> p in multiset(sorted);
    assert forall p :: p in places <==> p in multiset(places);
  }

  lemma AscendingIsDistinct(sorted: seq<Place>)
    requires Ascending(sorted)
    ensures Distinct(sorted)
  {
    forall i, j | 0 <= i < j < |sorted| ensures sorted[i] != sorted[j] {
      BeforeIsTotal(sorted[i], sorted[j]);
    }
  }

  lemma CutHoldsTheFirst(sorted: seq<Place>, n: nat, p: Place, q: Place)
    requires Ascending(sorted) && n <= |sorted| && p in sorted[..n] && q in sorted && q !in sorted[..n]
    ensures Before(p, q)
  {
    var cut := sorted[..n];
    assert forall k :: 0 <= k < n ==> sorted[k] == cut[k] && cut[k] in cut;
    var i :| 0 <= i < n && cut[i] == p;
    var j :| 0 <= j < |sorted| && sorted[j] == q;
  }

  /** The page holds the best hits: each once, as many as the limit allows, and every collected
      hit that is left out comes after all of them. */
  lemma PageHoldsTheBest(fold: char -> string, hits: seq<Hit>, query: string, limit: nat)
    ensures var page, all := Page(fold, hits, query, limit), Places(fold, hits, query);
            && |page| == (if limit < |hits| then limit else |hits|)
            && Distinct(page) && Ascending(page)
            && (forall p :: p in page ==> p in all)
            && forall p, q :: p in page && q in all && q !in page ==> Before(p, q)
  {
    var all := Places(fold, hits, query);
    var sorted, page := Sort(all), Page(fold, hits, query, limit);
    SortAscends(all);
    SortKeepsMembers(all);
    assert page == sorted[..|page|];
    AscendingIsDistinct(page);
    forall p, q | p in page && q in all && q !in page ensures Before(p, q) {
      CutHoldsTheFirst(sorted, |page|, p, q);
    }
  }

  /** On a page ranks never fall; within a rank categories are in code point order, within a category
      titles, and within a title ids; hits that agree in all of them stand as they were collected. */
  lemma PageIsInOrder(fold: char -> string, hits: seq<Hit>, query: string, limit: nat, i: nat, j: nat)
    requires i < j < |Page(fold, hits, query, limit)|
    ensures var p, q := Page(fold, hits, query, limit)[i], Page(fold, hits, query, limit)[j];
      && p.rank <= q.rank
      && (p.rank == q.rank ==> p.category == q.category || Below(p.category, q.category))
      && (p.rank == q.rank && p.category == q.category ==> p.title == q.title || Below(p.title, q.title))
      && (p.rank == q.rank && p.category == q.category && p.title == q.title ==> p.id <= q.id)
      && (p.rank == q.rank && p.category == q.category && p.title == q.title && p.id == q.id ==> p.position < q.position)
  {
    PageHoldsTheBest(fold, hits, query, limit);
    var page := Page(fold, hits, query, limit);
    assert Before(page[i], page[j]);
  }

  // ---------------------------------------------------------------- counts by category

  function Of(page: seq<Place>, category: string): nat
    decreases |page|
  {
    if page == [] then 0 else Of(page[..|page| - 1], category) + if page[|page| - 1].category == category then 1 else 0
  }


  lemma {:induction false} OfIsZero(page: seq<Place>, category: string)
    ensures Of(page, category) == 0 <==> forall p :: p in page ==> p.category != category
    decreases |page|
  {
    if page != [] {
      var init, last := page[..|page| - 1], page[|page| - 1];
      assert page == init + [last];
      OfIsZero(init, category);
    }
  }

  /** Counter over the returned hits: exactly the categories on the page, with their numbers. */
  method CategoryCounts(page: seq<Place>) returns (counts: map<string, nat>)
    ensures forall c :: c in counts <==> exists p :: p in page && p.category == c
    ensures forall c :: c in counts ==> counts[c] == Of(page, c) > 0
  {
    counts := map[];
    for i := 0 to |page|
      invariant forall c :: c in counts <==> Of(page[..i], c) > 0
      invariant forall c :: c in counts ==> counts[c] == Of(page[..i], c)
    {
      var c := page[i].category;
      assert page[..i + 1][..i] == page[..i] && page[..i + 1][i] == page[i];
      counts := counts[c := if c in counts then counts[c] + 1 else 1];
    }
    assert page[..|page|] == page;
    forall c ensures c in counts <==> exists p :: p in page && p.category == c {
      OfIsZero(page, c);
    }
  }
}
