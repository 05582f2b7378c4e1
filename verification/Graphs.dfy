/**
 Finite directed graphs given by the predecessors of each vertex, and what it means
 for a route to exist, for a graph to be acyclic and for an order to be topological.
 Everything here is independent of the algorithms that compute these notions.
 */
module Graphs {
  import opened Sequences

  type Vertex(==, !new)

  /** A graph maps each vertex to its predecessors. */
  type Graph = map<Vertex, set<Vertex>>

  /** A vertex that the graph does not know has no predecessors. */
  function Preds(g: Graph, v: Vertex): set<Vertex> {
    if v in g then g[v] else {}
  }

  /** Every predecessor is itself a vertex. */
  ghost predicate Closed(g: Graph) {
    forall v | v in g :: g[v] <= g.Keys
  }

  /** Consecutive elements are linked by an edge, from predecessor to successor. */
  ghost predicate Linked(g: Graph, p: seq<Vertex>) {
    forall i, j | 0 <= i && j == i + 1 < |p| :: p[i] in Preds(g, p[j])
  }

  /** A route follows at least one edge, so a route from v to v is a cycle. */
  ghost predicate Route(g: Graph, s: Vertex, t: Vertex, p: seq<Vertex>) {
    && |p| >= 2
    && p[0] == s
    && p[|p| - 1] == t
    && Linked(g, p)
  }

  ghost predicate Reach(g: Graph, s: Vertex, t: Vertex) {
    exists p :: Route(g, s, t, p)
  }

  ghost predicate Acyclic(g: Graph) {
    forall v :: !Reach(g, v, v)
  }

  /** A graph that a checked DAG accepts. */
  ghost predicate ValidDag(g: Graph) {
    Closed(g) && Acyclic(g)
  }

  /** The vertices of g together with every predecessor it mentions. */
  ghost function Nodes(g: Graph): set<Vertex> {
    g.Keys + set v, u | v in g && u in g[v] :: u
  }

  ghost function Ancestors(g: Graph, v: Vertex): set<Vertex> {
    set u | u in Nodes(g) && Reach(g, u, v)
  }

  /** Graphs with the same vertices and edges are equal. */
  lemma GraphsEqual(g: Graph, h: Graph)
    requires g.Keys == h.Keys && forall v, u :: u in Preds(g, v) <==> u in Preds(h, v)
    ensures g == h
  {
    forall v | v in g ensures g[v] == h[v] {
      forall u ensures u in g[v] <==> u in h[v] {
        assert u in Preds(g, v) <==> u in Preds(h, v);
      }
    }
  }

  // ----- Routes -----

  lemma ReachEdge(g: Graph, u: Vertex, v: Vertex)
    requires u in Preds(g, v)
    ensures Reach(g, u, v)
  {
    assert Route(g, u, v, [u, v]);
  }

  lemma RouteConcat(g: Graph, s: Vertex, m: Vertex, t: Vertex, p: seq<Vertex>, q: seq<Vertex>)
    requires Route(g, s, m, p) && Route(g, m, t, q)
    ensures Route(g, s, t, p + q[1..])
  {
  }

  lemma ReachTransitive(g: Graph, s: Vertex, m: Vertex, t: Vertex)
    requires Reach(g, s, m) && Reach(g, m, t)
    ensures Reach(g, s, t)
  {
    var p :| Route(g, s, m, p);
    var q :| Route(g, m, t, q);
    RouteConcat(g, s, m, t, p, q);
  }

  /** The last edge of a route. */
  lemma ReachLast(g: Graph, s: Vertex, t: Vertex) returns (u: Vertex)
    requires Reach(g, s, t)
    ensures u in Preds(g, t) && (u == s || Reach(g, s, u))
  {
    var p :| Route(g, s, t, p);
    u := p[|p| - 2];
    if |p| > 2 {
      assert Route(g, s, u, p[..|p| - 1]);
    }
  }

  /** The first edge of a route. */
  lemma ReachFirst(g: Graph, s: Vertex, t: Vertex) returns (w: Vertex)
    requires Reach(g, s, t)
    ensures s in Preds(g, w) && (w == t || Reach(g, w, t))
  {
    var p :| Route(g, s, t, p);
    w := p[1];
    if |p| > 2 {
      assert Route(g, w, t, p[1..]);
    }
  }

  lemma ReachInNodes(g: Graph, s: Vertex, t: Vertex)
    requires Reach(g, s, t)
    ensures s in Nodes(g) && t in g
    ensures Closed(g) ==> s in g
  {
    var w := ReachFirst(g, s, t);
    var u := ReachLast(g, s, t);
  }

  ghost predicate Subgraph(g: Graph, h: Graph) {
    forall v | v in g :: g[v] <= Preds(h, v)
  }

  lemma ReachMonotone(g: Graph, h: Graph, s: Vertex, t: Vertex)
    requires Subgraph(g, h) && Reach(g, s, t)
    ensures Reach(h, s, t)
  {
    var p :| Route(g, s, t, p);
    assert Route(h, s, t, p);
  }

  lemma AcyclicMonotone(g: Graph, h: Graph)
    requires Subgraph(g, h) && Acyclic(h)
    ensures Acyclic(g)
  {
    forall v ensures !Reach(g, v, v) {
      if Reach(g, v, v) { ReachMonotone(g, h, v, v); }
    }
  }

  // ----- Cycles -----

  /** A non-empty set whose members all have a predecessor in the set contains a vertex on a cycle. */
  lemma {:induction false} StuckSetHasCycle(g: Graph, stuck: set<Vertex>) returns (v: Vertex)
    requires stuck != {}
    requires forall v | v in stuck :: Preds(g, v) * stuck != {}
    ensures v in stuck && Reach(g, v, v)
    decreases |stuck|
  {
    hide Reach, Preds;
    v :| v in stuck;
    if !Reach(g, v, v) {
      var above := set u | u in stuck && Reach(g, u, v);
      forall w | w in above + {v} ensures Preds(g, w) * above != {} {
        StuckAbove(g, stuck, v, w);
      }
      assert v in above + {v} && v !in above;
      SubsetSmaller(above, stuck);
      v := StuckSetHasCycle(g, above);
    }
  }

  /** The members of a stuck set that reach v, and v itself, wait for members that reach v. */
  lemma StuckAbove(g: Graph, stuck: set<Vertex>, v: Vertex, w: Vertex)
    requires w in stuck && Preds(g, w) * stuck != {}
    requires w == v || Reach(g, w, v)
    ensures Preds(g, w) * (set u | u in stuck && Reach(g, u, v)) != {}
  {
    hide Reach;
    var u :| u in Preds(g, w) * stuck;
    ReachEdge(g, u, w);
    if w != v { ReachTransitive(g, u, w, v); }
    assert u in Preds(g, w) * (set u | u in stuck && Reach(g, u, v));
  }

  lemma SubsetSmaller(a: set<Vertex>, b: set<Vertex>)
    requires a < b
    ensures |a| < |b|
  {
    assert |b| == |a| + |b - a|;
  }

  // ----- Adding edges -----

  /** g with more predecessors for v. */
  function AddEdges(g: Graph, v: Vertex, more: set<Vertex>): Graph {
    g[v := Preds(g, v) + more]
  }

  /** A cycle that new edges into v create goes through v. */
  lemma NewCycleThroughTarget(g: Graph, v: Vertex, more: set<Vertex>)
    requires Acyclic(g)
    ensures Acyclic(AddEdges(g, v, more)) <==> !Reach(AddEdges(g, v, more), v, v)
  {
    var h := AddEdges(g, v, more);
    forall w ensures Reach(h, w, w) ==> Reach(h, v, v) {
      if Reach(h, w, w) {
        var p :| Route(h, w, w, p);
        assert !Reach(g, w, w);
        if i :| 0 < i < |p| && p[i] == v {
          assert Route(h, w, v, p[..i + 1]);
          if i < |p| - 1 {
            assert Route(h, v, w, p[i..]);
            ReachTransitive(h, v, w, v);
          }
        } else {
          assert Route(g, w, w, p);
        }
      }
    }
  }

  /** A vertex that no edge leaves from is on no cycle. */
  lemma NewVertexNoCycle(g: Graph, v: Vertex, more: set<Vertex>)
    requires ValidDag(g) && v !in g && more <= g.Keys
    ensures ValidDag(AddEdges(g, v, more))
  {
    var h := AddEdges(g, v, more);
    if Reach(h, v, v) {
      var w := ReachFirst(h, v, v);
      assert false;
    }
    NewCycleThroughTarget(g, v, more);
  }

  // ----- Topological orders -----

  ghost predicate Distinct<T>(s: seq<T>) {
    forall i, j | 0 <= i < j < |s| :: s[i] != s[j]
  }

  ghost function Elements<T>(s: seq<T>): set<T> {
    set x | x in s
  }

  /** Every vertex occurs exactly once, after all its predecessors. */
  ghost predicate Topological(g: Graph, order: seq<Vertex>) {
    && Distinct(order)
    && Elements(order) == g.Keys
    && forall i | 0 <= i < |order| :: g[order[i]] <= Elements(order[..i])
  }

  lemma {:induction false} TopologicalReach(g: Graph, order: seq<Vertex>, s: Vertex, p: seq<Vertex>, j: nat)
    requires Topological(g, order) && j < |order|
    requires Route(g, s, order[j], p)
    ensures exists i :: 0 <= i < j && order[i] == s
    decreases |p|
  {
    var u := p[|p| - 2];
    assert u in Elements(order[..j]);
    var i :| 0 <= i < j && order[i] == u;
    if |p| > 2 {
      TopologicalReach(g, order, s, p[..|p| - 1], i);
    }
  }

  lemma TopologicalIsValid(g: Graph, order: seq<Vertex>)
    requires Topological(g, order)
    ensures ValidDag(g)
  {
    forall v | v in g ensures g[v] <= g.Keys {
      assert v in Elements(order);
      var i :| 0 <= i < |order| && order[i] == v;
      assert Elements(order[..i]) <= Elements(order);
    }
    forall v ensures !Reach(g, v, v) {
      if Reach(g, v, v) {
        ReachInNodes(g, v, v);
        assert v in Elements(order);
        var j :| 0 <= j < |order| && order[j] == v;
        var p :| Route(g, v, v, p);
        TopologicalReach(g, order, v, p, j);
      }
    }
  }

  /** A sequence without repetitions is no longer than a set that holds its elements. */
  lemma {:induction false} DistinctLength<T>(s: seq<T>, all: set<T>)
    requires Distinct(s) && Elements(s) <= all
    ensures |s| <= |all|
  {
    if s != [] {
      var rest := s[1..];
      assert Elements(rest) <= all - {s[0]};
      DistinctLength(rest, all - {s[0]});
    }
  }

  // ----- Reversal -----

  lemma {:induction false} DistinctSize<T>(s: seq<T>)
    requires Distinct(s)
    ensures |Elements(s)| == |s|
  {
    if s != [] {
      var rest, x := s[..|s| - 1], s[|s| - 1];
      DistinctSize(rest);
      assert x !in rest && s == rest + [x];
      assert Elements(s) == Elements(rest) + {x} && x !in Elements(rest);
      hide Elements, Distinct;
    }
  }

  /** The graph with every edge turned round; predecessors that were no vertices become vertices. */
  ghost function Reverse(g: Graph): Graph {
    map v | v in Nodes(g) :: set u | u in g && v in g[u]
  }

  /** The graph in which predecessors are followed, or successors in reverse order. */
  ghost function Direction(g: Graph, reverseOrder: bool): Graph {
    if reverseOrder then Reverse(g) else g
  }

  lemma ReverseClosed(g: Graph)
    ensures Closed(Reverse(g))
    ensures Closed(g) ==> Reverse(g).Keys == g.Keys
  {
  }

  lemma ReverseReverse(g: Graph)
    requires Closed(g)
    ensures Reverse(Reverse(g)) == g
  {
    var r := Reverse(g);
    ReverseClosed(g);
    ReverseClosed(r);
    forall v | v in g ensures Reverse(r)[v] == g[v] {
      forall u ensures u in Reverse(r)[v] <==> u in g[v] {
        if u in g[v] { assert v in r[u]; }
      }
    }
  }

  lemma RouteReversed(g: Graph, s: Vertex, t: Vertex, p: seq<Vertex>)
    requires Route(g, s, t, p)
    ensures Route(Reverse(g), t, s, Flip(p))
  {
    var q := Flip(p);
    forall i | 0 < i < |q| ensures q[i - 1] in Preds(Reverse(g), q[i]) {
      var j := |p| - i;
      assert q[i - 1] == p[j] && q[i] == p[j - 1];
      assert p[j - 1] in Preds(g, p[j]);
    }
  }

  lemma RouteUnreversed(g: Graph, s: Vertex, t: Vertex, p: seq<Vertex>)
    requires Route(Reverse(g), s, t, p)
    ensures Route(g, t, s, Flip(p))
  {
    var q := Flip(p);
    forall i | 0 < i < |q| ensures q[i - 1] in Preds(g, q[i]) {
      var j := |p| - i;
      assert q[i - 1] == p[j] && q[i] == p[j - 1];
      assert p[j - 1] in Preds(Reverse(g), p[j]);
    }
  }

  /** Turning the edges round turns reachability round, and neither makes nor breaks a cycle. */
  lemma ReverseReach(g: Graph, s: Vertex, t: Vertex)
    ensures Reach(Reverse(g), t, s) <==> Reach(g, s, t)
  {
    if Reach(g, s, t) {
      var p :| Route(g, s, t, p);
      RouteReversed(g, s, t, p);
    }
    if Reach(Reverse(g), t, s) {
      var p :| Route(Reverse(g), t, s, p);
      RouteUnreversed(g, t, s, p);
    }
  }

  lemma ReverseAcyclic(g: Graph)
    ensures Acyclic(Reverse(g)) <==> Acyclic(g)
  {
    forall v ensures Reach(Reverse(g), v, v) <==> Reach(g, v, v) {
      ReverseReach(g, v, v);
    }
  }

  /** The reversed topological order is topological for the reverse graph. */
  lemma ReverseTopological(g: Graph, order: seq<Vertex>)
    requires Topological(g, order)
    ensures Topological(Reverse(g), Flip(order))
  {
    TopologicalIsValid(g, order);
    ReverseClosed(g);
    var r, flipped := Reverse(g), Flip(order);
    forall v ensures v in flipped <==> v in order {
      if v in order {
        var i :| 0 <= i < |order| && order[i] == v;
        assert flipped[|order| - 1 - i] == v;
      }
    }
    forall i | 0 <= i < |flipped| ensures r[flipped[i]] <= Elements(flipped[..i]) {
      forall u | u in r[flipped[i]] ensures u in flipped[..i] {
        assert flipped[i] in g[u];
        assert u in Elements(order);
        var j :| 0 <= j < |order| && order[j] == u;
        assert flipped[i] in Elements(order[..j]);
        var k :| 0 <= k < j && order[k] == flipped[i];
        assert k == |order| - 1 - i;
        assert flipped[|order| - 1 - j] == u;
      }
    }
  }
}
