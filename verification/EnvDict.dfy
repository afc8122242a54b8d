/**
 The dictionary a list of parsed lines builds. A line that sets nothing is None; a later pair
 replaces the value of an earlier one and keeps its place.
 */
module EnvDict {
  import opened Basics

  datatype Pair = Pair(key: string, value: string)

  /** A Python dict of strings: values, and keys in order of first insertion. */
  datatype Dict = Dict(keys: seq<string>, values: map<string, string>) {
    ghost predicate Valid() {
      (forall k :: k in keys <==> k in values) && Distinct(keys)
    }

    function Put(k: string, v: string): (r: Dict)
      ensures Valid() ==> r.Valid()
      ensures r.values == values[k := v]
    {
      Dict(if k in values then keys else keys + [k], values[k := v])
    }
  }

  const EMPTY: Dict := Dict([], map[])

  function Fold(entries: seq<Option<Pair>>): (d: Dict)
    ensures d.Valid()
    decreases |entries|
  {
    if entries == [] then EMPTY else
    var d := Fold(entries[..|entries| - 1]);
    match entries[|entries| - 1]
    case None => d
    case Some(p) => d.Put(p.key, p.value)
  }

  lemma {:induction false} FoldConcat(a: seq<Option<Pair>>, b: seq<Option<Pair>>)
    ensures Fold(a + b).values == Fold(a).values + Fold(b).values
    decreases |b|
  {
    if b == [] {
      assert a + b == a;
    } else {
      assert (a + b)[..|a + b| - 1] == a + b[..|b| - 1];
      FoldConcat(a, b[..|b| - 1]);
    }
  }

  lemma {:induction false} FoldNones(entries: seq<Option<Pair>>)
    requires forall i :: 0 <= i < |entries| ==> entries[i].None?
    ensures Fold(entries).values == map[]
    decreases |entries|
  {
    if entries != [] {
      FoldNones(entries[..|entries| - 1]);
    }
  }

  /** Every stored pair comes from some entry. */
  lemma {:induction false} FoldFrom(entries: seq<Option<Pair>>, k: string)
    requires k in Fold(entries).values
    ensures Some(Pair(k, Fold(entries).values[k])) in entries
    decreases |entries|
  {
    var init, last := entries[..|entries| - 1], entries[|entries| - 1];
    assert entries == init + [last];
    if last.None? || last.value.key != k {
      FoldFrom(init, k);
    }
  }

  // ---------------------------------------------------------------- forcing values

  function Force(e: Option<Pair>, m: map<string, string>): Option<Pair> {
    if e.Some? && e.value.key in m then Some(Pair(e.value.key, m[e.value.key])) else e
  }

  ghost predicate Forces(after: seq<Option<Pair>>, before: seq<Option<Pair>>, m: map<string, string>) {
    |after| == |before| && forall i :: 0 <= i < |before| ==> after[i] == Force(before[i], m)
  }

  function Overlay(values: map<string, string>, m: map<string, string>): map<string, string> {
    map k | k in values :: if k in m then m[k] else values[k]
  }

  lemma OverlayPut(values: map<string, string>, m: map<string, string>, k: string, v: string)
    ensures Overlay(values[k := v], m) == Overlay(values, m)[k := if k in m then m[k] else v]
  {
  }

  lemma {:induction false} FoldForced(after: seq<Option<Pair>>, before: seq<Option<Pair>>, m: map<string, string>)
    requires Forces(after, before, m)
    ensures Fold(after).values == Overlay(Fold(before).values, m)
    decreases |before|
  {
    if before != [] {
      var init, last := before[..|before| - 1], before[|before| - 1];
      FoldForced(after[..|after| - 1], init, m);
      assert after[|before| - 1] == Force(last, m);
      if last.Some? {
        OverlayPut(Fold(init).values, m, last.value.key, last.value.value);
      }
    }
  }

  // ---------------------------------------------------------------- the pairs of some keys

  function PairsOf(keys: seq<string>, m: map<string, string>): (r: seq<Option<Pair>>)
    requires forall k :: k in keys ==> k in m
  {
    seq(|keys|, i requires 0 <= i < |keys| => Some(Pair(keys[i], m[keys[i]])))
  }

  lemma FoldSnoc(entries: seq<Option<Pair>>, k: string, v: string)
    ensures Fold(entries + [Some(Pair(k, v))]).values == Fold(entries).values[k := v]
  {
    assert (entries + [Some(Pair(k, v))])[..|entries|] == entries;
  }

  lemma {:induction false} FoldPairs(keys: seq<string>, m: map<string, string>)
    requires forall k :: k in keys ==> k in m
    ensures Fold(PairsOf(keys, m)).values == map k | k in keys :: m[k]
    decreases |keys|
  {
    if keys != [] {
      var init, last := keys[..|keys| - 1], keys[|keys| - 1];
      assert keys == init + [last];
      assert PairsOf(keys, m) == PairsOf(init, m) + [Some(Pair(last, m[last]))];
      FoldPairs(init, m);
      FoldSnoc(PairsOf(init, m), last, m[last]);
    }
  }

  /** The keys not in the set, in order. */
  function KeepKeys(keys: seq<string>, skip: set<string>): (r: seq<string>)
    ensures forall k :: k in r <==> k in keys && k !in skip
    ensures Distinct(keys) ==> Distinct(r)
    decreases |keys|
  {
    if keys == [] then [] else
    var init, last := keys[..|keys| - 1], keys[|keys| - 1];
    assert keys == init + [last];
    if last in skip then KeepKeys(init, skip) else KeepKeys(init, skip) + [last]
  }

  // ---------------------------------------------------------------- how often a key is set

  function Count(entries: seq<Option<Pair>>, k: string): nat
    decreases |entries|
  {
    if entries == [] then 0 else
    var last := entries[|entries| - 1];
    Count(entries[..|entries| - 1], k) + (if last.Some? && last.value.key == k then 1 else 0)
  }

  lemma {:induction false} CountConcat(a: seq<Option<Pair>>, b: seq<Option<Pair>>, k: string)
    ensures Count(a + b, k) == Count(a, k) + Count(b, k)
    decreases |b|
  {
    if b == [] {
      assert a + b == a;
    } else {
      assert (a + b)[..|a + b| - 1] == a + b[..|b| - 1];
      CountConcat(a, b[..|b| - 1], k);
    }
  }

  lemma {:induction false} CountNones(entries: seq<Option<Pair>>, k: string)
    requires forall i :: 0 <= i < |entries| ==> entries[i].None?
    ensures Count(entries, k) == 0
    decreases |entries|
  {
    if entries != [] {
      CountNones(entries[..|entries| - 1], k);
    }
  }

  lemma {:induction false} CountOfAbsent(entries: seq<Option<Pair>>, k: string)
    ensures Count(entries, k) == 0 <==> k !in Fold(entries).values
    decreases |entries|
  {
    if entries != [] {
      CountOfAbsent(entries[..|entries| - 1], k);
    }
  }

  lemma {:induction false} CountForced(after: seq<Option<Pair>>, before: seq<Option<Pair>>, m: map<string, string>, k: string)
    requires Forces(after, before, m)
    ensures Count(after, k) == Count(before, k)
    decreases |before|
  {
    if before != [] {
      CountForced(after[..|after| - 1], before[..|before| - 1], m, k);
      assert after[|before| - 1] == Force(before[|before| - 1], m);
    }
  }

  lemma {:induction false} CountPairs(keys: seq<string>, m: map<string, string>, k: string)
    requires Distinct(keys) && forall x :: x in keys ==> x in m
    ensures Count(PairsOf(keys, m), k) == if k in keys then 1 else 0
    decreases |keys|
  {
    if keys != [] {
      var init, last := keys[..|keys| - 1], keys[|keys| - 1];
      assert keys == init + [last];
      assert PairsOf(keys, m)[..|keys| - 1] == PairsOf(init, m);
      CountPairs(init, m, k);
    }
  }
}
