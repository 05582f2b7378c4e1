/**
 Routes whose inner vertices avoid a given set, the distances they give, and the level
 sets that a breadth-first search computes.
 */
module Contexts {
  import opened Graphs

  /** A route from n to v with no inner vertex in stops. */
  ghost predicate OpenRoute(g: Graph, stops: iset<Vertex>, n: Vertex, v: Vertex, p: seq<Vertex>) {
    && Route(g, n, v, p)
    && forall i | 0 < i < |p| - 1 :: p[i] !in stops
  }

  /** There is an open route of at most d edges. */
  ghost predicate OpenWithin(g: Graph, stops: iset<Vertex>, n: Vertex, v: Vertex, d: int) {
    exists p :: OpenRoute(g, stops, n, v, p) && |p| <= d + 1
  }

  /** d is the length of the shortest open route. */
  ghost predicate OpenDistance(g: Graph, stops: iset<Vertex>, n: Vertex, v: Vertex, d: int) {
    OpenWithin(g, stops, n, v, d) && !OpenWithin(g, stops, n, v, d - 1)
  }

  ghost predicate OpenReach(g: Graph, stops: iset<Vertex>, n: Vertex, v: Vertex) {
    exists p :: OpenRoute(g, stops, n, v, p)
  }

  /** All vertices from which v can be reached by an open route of at most d edges. */
  ghost function Within(g: Graph, stops: iset<Vertex>, v: Vertex, d: nat): set<Vertex> {
    set n | n in Nodes(g) && OpenWithin(g, stops, n, v, d)
  }

  lemma OpenWithinInNodes(g: Graph, stops: iset<Vertex>, n: Vertex, v: Vertex, d: int)
    requires OpenWithin(g, stops, n, v, d)
    ensures n in Nodes(g) && d >= 1 && OpenReach(g, stops, n, v)
  {
    var p :| OpenRoute(g, stops, n, v, p) && |p| <= d + 1;
    assert Reach(g, n, v);
    ReachInNodes(g, n, v);
  }

  lemma WithinIff(g: Graph, stops: iset<Vertex>, v: Vertex, d: nat)
    ensures forall n :: n in Within(g, stops, v, d) <==> OpenWithin(g, stops, n, v, d)
  {
    forall n | OpenWithin(g, stops, n, v, d) ensures n in Nodes(g) {
      OpenWithinInNodes(g, stops, n, v, d);
    }
  }

  lemma WithinMonotone(g: Graph, stops: iset<Vertex>, v: Vertex, d: nat, e: nat)
    requires d <= e
    ensures Within(g, stops, v, d) <= Within(g, stops, v, e)
  {
    forall n | n in Within(g, stops, v, d) ensures OpenWithin(g, stops, n, v, e) {
      var p :| OpenRoute(g, stops, n, v, p) && |p| <= d + 1;
    }
  }

  lemma WithinZero(g: Graph, stops: iset<Vertex>, v: Vertex)
    ensures Within(g, stops, v, 0) == {}
  {
  }

  lemma WithinOne(g: Graph, stops: iset<Vertex>, v: Vertex)
    ensures Within(g, stops, v, 1) == Preds(g, v)
  {
    WithinIff(g, stops, v, 1);
    forall n ensures OpenWithin(g, stops, n, v, 1) <==> n in Preds(g, v) {
      if n in Preds(g, v) {
        assert OpenRoute(g, stops, n, v, [n, v]);
      }
    }
  }

  /** One more edge: the next level adds the predecessors of the vertices that are no stops. */
  lemma WithinStep(g: Graph, stops: iset<Vertex>, v: Vertex, d: nat)
    requires d >= 1
    ensures forall n :: n in Within(g, stops, v, d + 1) <==>
                        n in Within(g, stops, v, d)
                        || exists k :: k in Within(g, stops, v, d) && k !in stops && n in Preds(g, k)
  {
    WithinIff(g, stops, v, d);
    WithinIff(g, stops, v, d + 1);
    WithinMonotone(g, stops, v, d, d + 1);
    forall n ensures n in Within(g, stops, v, d + 1) <==>
                     n in Within(g, stops, v, d)
                     || exists k :: k in Within(g, stops, v, d) && k !in stops && n in Preds(g, k)
    {
      if n in Within(g, stops, v, d + 1) && n !in Within(g, stops, v, d) {
        var p :| OpenRoute(g, stops, n, v, p) && |p| <= d + 2;
        assert |p| == d + 2;
        assert OpenRoute(g, stops, p[1], v, p[1..]);
        assert OpenWithin(g, stops, p[1], v, d);
      }
      if k :| k in Within(g, stops, v, d) && k !in stops && n in Preds(g, k) {
        var p :| OpenRoute(g, stops, k, v, p) && |p| <= d + 1;
        assert OpenRoute(g, stops, n, v, [n] + p);
      }
    }
  }

  lemma WithinStepAt(g: Graph, stops: iset<Vertex>, v: Vertex, d: nat, next: nat, n: Vertex)
    requires d >= 1 && next == d + 1
    ensures n in Within(g, stops, v, next) <==>
            n in Within(g, stops, v, d) || exists k :: k in Within(g, stops, v, d) && k !in stops && n in Preds(g, k)
  {
    hide Within;
    WithinStep(g, stops, v, d);
  }

  /** Once a level adds nothing, every vertex with an open route has been found. */
  lemma {:induction false} WithinFixpoint(g: Graph, stops: iset<Vertex>, v: Vertex, d: nat, n: Vertex, p: seq<Vertex>)
    requires d >= 1 && Within(g, stops, v, d + 1) == Within(g, stops, v, d)
    requires OpenRoute(g, stops, n, v, p)
    ensures n in Within(g, stops, v, d)
    decreases |p|
  {
    WithinIff(g, stops, v, d);
    if |p| > d + 1 {
      assert OpenRoute(g, stops, p[1], v, p[1..]);
      WithinFixpoint(g, stops, v, d, p[1], p[1..]);
      WithinStep(g, stops, v, d);
      assert p[1] in Within(g, stops, v, d) && p[1] !in stops && n in Preds(g, p[1]);
    }
  }

  /** Where an open route exists there is a shortest one. */
  lemma {:induction false} OpenDistanceExists(g: Graph, stops: iset<Vertex>, n: Vertex, v: Vertex, d: nat)
    returns (least: nat)
    requires OpenWithin(g, stops, n, v, d)
    ensures 1 <= least <= d && OpenDistance(g, stops, n, v, least)
    decreases d
  {
    OpenWithinInNodes(g, stops, n, v, d);
    if OpenWithin(g, stops, n, v, d - 1) {
      least := OpenDistanceExists(g, stops, n, v, d - 1);
    } else {
      least := d;
    }
  }
}
