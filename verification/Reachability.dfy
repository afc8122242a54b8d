/** The highlighted closure of frontend/components/TableFieldGraph.tsx. */
module Reachability {

  datatype Edge = Edge(source: string, target: string)

  ghost predicate Linked(edges: seq<Edge>, a: string, b: string) {
    Edge(a, b) in edges
  }

  /** A non-empty list of nodes, each linked to the next. */
  ghost predicate IsPath(edges: seq<Edge>, path: seq<string>) {
    path != [] && forall i :: 0 <= i < |path| - 1 ==> Linked(edges, path[i], path[i + 1])
  }

  ghost predicate PathBetween(edges: seq<Edge>, path: seq<string>, a: string, b: string) {
    IsPath(edges, path) && path[0] == a && path[|path| - 1] == b
  }

  /** There is a directed path, of any length from zero on. */
  ghost predicate Reaches(edges: seq<Edge>, a: string, b: string) {
    exists path :: PathBetween(edges, path, a, b)
  }

  lemma ReachesItself(edges: seq<Edge>, a: string)
    ensures Reaches(edges, a, a)
  {
    assert PathBetween(edges, [a], a, a);
  }

  lemma ReachesFurther(edges: seq<Edge>, a: string, b: string, c: string)
    requires Reaches(edges, a, b) && Linked(edges, b, c)
    ensures Reaches(edges, a, c)
  {
    var path :| PathBetween(edges, path, a, b);
    assert PathBetween(edges, path + [c], a, c);
  }

  ghost predicate Closed(edges: seq<Edge>, nodes: set<string>) {
    forall e :: e in edges && e.source in nodes ==> e.target in nodes
  }

  /** Nothing outside a closed set is reached from inside it. */
  lemma {:induction false} PathStaysInside(edges: seq<Edge>, path: seq<string>, nodes: set<string>)
    requires Closed(edges, nodes) && IsPath(edges, path) && path[0] in nodes
    ensures path[|path| - 1] in nodes
    decreases |path|
  {
    if |path| > 1 {
      var init := path[..|path| - 1];
      PathStaysInside(edges, init, nodes);
      assert Linked(edges, path[|path| - 2], path[|path| - 1]);
    }
  }

  // ---------------------------------------------------------------- both directions

  function Flip(edges: seq<Edge>): (r: seq<Edge>)
    ensures |r| == |edges| && forall i :: 0 <= i < |r| ==> r[i] == Edge(edges[i].target, edges[i].source)
  {
    seq(|edges|, i requires 0 <= i < |edges| => Edge(edges[i].target, edges[i].source))
  }

  lemma FlipLinks(edges: seq<Edge>, a: string, b: string)
    ensures Linked(Flip(edges), a, b) <==> Linked(edges, b, a)
  {
    if Linked(edges, b, a) {
      var i :| 0 <= i < |edges| && edges[i] == Edge(b, a);
      assert Flip(edges)[i] == Edge(a, b);
    }
  }

  function Reversed(path: seq<string>): (r: seq<string>)
    ensures |r| == |path| && forall i :: 0 <= i < |r| ==> r[i] == path[|path| - 1 - i]
  {
    seq(|path|, i requires 0 <= i < |path| => path[|path| - 1 - i])
  }

  lemma ReversedPath(edges: seq<Edge>, flipped: seq<Edge>, path: seq<string>, a: string, b: string)
    requires forall x, y :: Linked(edges, x, y) ==> Linked(flipped, y, x)
    requires PathBetween(edges, path, a, b)
    ensures PathBetween(flipped, Reversed(path), b, a)
  {
    var r := Reversed(path);
    forall i | 0 <= i < |r| - 1 ensures Linked(flipped, r[i], r[i + 1]) {
      var j := |path| - 2 - i;
      assert Linked(edges, path[j], path[j + 1]);
    }
  }

  /** Upstream of one node is downstream of the other. */
  lemma UpstreamIsDownstream(edges: seq<Edge>, a: string, b: string)
    ensures Reaches(Flip(edges), a, b) <==> Reaches(edges, b, a)
  {
    forall x, y ensures Linked(Flip(edges), x, y) <==> Linked(edges, y, x) {
      FlipLinks(edges, x, y);
    }
    if path :| PathBetween(Flip(edges), path, a, b) {
      ReversedPath(Flip(edges), edges, path, a, b);
    }
    if path :| PathBetween(edges, path, b, a) {
      ReversedPath(edges, Flip(edges), path, b, a);
    }
  }

  // ---------------------------------------------------------------- the worklist

  function Ends(edges: seq<Edge>): set<string> {
    set e | e in edges :: e.target
  }

  /** The visit closure: a queue of nodes whose edges are still to be followed. */
  method Visit(root: string, edges: seq<Edge>) returns (result: set<string>)
    ensures forall n :: n in result <==> Reaches(edges, root, n)
  {
    result := {root};
    var queue := [root];
    ghost var all := {root} + Ends(edges);
    ReachesItself(edges, root);
    while queue != []
      invariant root in result && result <= all
      invariant forall n :: n in queue ==> n in result
      invariant forall n :: n in result ==> Reaches(edges, root, n)
      invariant forall e :: e in edges && e.source in result && e.source !in queue ==> e.target in result
      decreases all - result, |queue|
    {
      var current := queue[0];
      ghost var before, seen := queue, result;
      queue := queue[1..];
      for i := 0 to |edges|
        invariant seen <= result <= all && root in result
        invariant current in result
        invariant result == seen ==> queue == before[1..]
        invariant forall n :: n in queue ==> n in result
        invariant forall n :: n in result ==> Reaches(edges, root, n)
        invariant forall n :: n in before[1..] || (n in result && n !in seen) ==> n in queue
        invariant forall j :: 0 <= j < i && edges[j].source == current ==> edges[j].target in result
      {
        var e := edges[i];
        assert e in edges;
        if e.source == current && e.target !in result {
          assert Linked(edges, current, e.target);
          ReachesFurther(edges, root, current, e.target);
          result := result + {e.target};
          queue := queue + [e.target];
        }
      }
      forall e | e in edges && e.source in result && e.source !in queue ensures e.target in result {
        if e.source != current {
          assert e.source in seen && e.source !in before;
        }
      }
    }
    assert Closed(edges, result);
    forall n | Reaches(edges, root, n) ensures n in result {
      var path :| PathBetween(edges, path, root, n);
      PathStaysInside(edges, path, result);
    }
  }

  /** Terminates on every graph, cycles included, with exactly the nodes that reach the root,
      are reached from it, or either; a direction other than the two names means both. */
  method Reachable(root: string, edges: seq<Edge>, direction: string) returns (result: set<string>)
    ensures forall n :: n in result <==>
      n == root
      || (direction != "downstream" && Reaches(edges, n, root))
      || (direction != "upstream" && Reaches(edges, root, n))
  {
    result := {root};
    if direction != "downstream" {
      var up := Visit(root, Flip(edges));
      forall n ensures n in up <==> Reaches(edges, n, root) {
        UpstreamIsDownstream(edges, root, n);
      }
      result := result + up;
    }
    if direction != "upstream" {
      var down := Visit(root, edges);
      result := result + down;
    }
  }
}
