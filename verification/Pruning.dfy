/**
 The graph that remains when some vertices are contracted away, and what it preserves.
 */
module Pruning {
  import opened Graphs
  import opened Contexts
  import opened Sequences

  /** A route whose inner vertices are all dropped. */
  ghost predicate DroppedRoute(g: Graph, drop: Vertex -> bool, u: Vertex, v: Vertex, p: seq<Vertex>) {
    && Route(g, u, v, p)
    && forall i | 0 < i < |p| - 1 :: drop(p[i])
  }

  /** The kept vertices that lead to v through dropped vertices only. */
  ghost function Sources(g: Graph, drop: Vertex -> bool, v: Vertex): set<Vertex> {
    set u | u in Nodes(g) && !drop(u) && exists p :: DroppedRoute(g, drop, u, v, p)
  }

  /** Only the kept vertices, linked by the routes that the dropped ones formed. */
  ghost function Pruned(g: Graph, drop: Vertex -> bool): Graph {
    map v | v in g && !drop(v) :: Sources(g, drop, v)
  }

  /** What a predecessor k hands on to its successors. */
  ghost function HandedOn(g: Graph, drop: Vertex -> bool, k: Vertex): set<Vertex> {
    if drop(k) then Sources(g, drop, k) else {k}
  }

  lemma SourcesIff(g: Graph, drop: Vertex -> bool, v: Vertex, u: Vertex)
    ensures u in Sources(g, drop, v) <==> !drop(u) && exists p :: DroppedRoute(g, drop, u, v, p)
  {
    if p :| DroppedRoute(g, drop, u, v, p) {
      assert Reach(g, u, v);
      ReachInNodes(g, u, v);
    }
  }

  /** The sources of v are what its predecessors hand on. */
  lemma SourcesStep(g: Graph, drop: Vertex -> bool, v: Vertex, u: Vertex)
    ensures u in Sources(g, drop, v) <==> exists k :: k in Preds(g, v) && u in HandedOn(g, drop, k)
  {
    SourcesIff(g, drop, v, u);
    if !drop(u) {
      if p :| DroppedRoute(g, drop, u, v, p) {
        var k := p[|p| - 2];
        assert k in Preds(g, v);
        if |p| > 2 {
          assert DroppedRoute(g, drop, u, k, p[..|p| - 1]);
          SourcesIff(g, drop, k, u);
        }
        assert u in HandedOn(g, drop, k);
      }
    }
    if k :| k in Preds(g, v) && u in HandedOn(g, drop, k) {
      if drop(k) {
        SourcesIff(g, drop, k, u);
        var p :| DroppedRoute(g, drop, u, k, p);
        assert DroppedRoute(g, drop, u, v, p + [v]);
      } else {
        assert DroppedRoute(g, drop, u, v, [u, v]);
      }
    }
  }

  lemma PrunedClosed(g: Graph, drop: Vertex -> bool)
    requires Closed(g)
    ensures Closed(Pruned(g, drop))
  {
    forall v, u | v in Pruned(g, drop) && u in Pruned(g, drop)[v] ensures u in Pruned(g, drop) {
      SourcesIff(g, drop, v, u);
      assert Reach(g, u, v);
      ReachInNodes(g, u, v);
    }
  }

  /** Every route of the pruned graph stretches to one of the original graph. */
  lemma {:induction false} StretchRoute(g: Graph, drop: Vertex -> bool, s: Vertex, t: Vertex, p: seq<Vertex>)
    requires Route(Pruned(g, drop), s, t, p)
    ensures Reach(g, s, t)
    decreases |p|
  {
    var u := p[|p| - 2];
    assert u in Preds(Pruned(g, drop), t);
    SourcesIff(g, drop, t, u);
    assert Reach(g, u, t);
    if |p| > 2 {
      assert Route(Pruned(g, drop), s, u, p[..|p| - 1]);
      StretchRoute(g, drop, s, u, p[..|p| - 1]);
      ReachTransitive(g, s, u, t);
    }
  }

  /** The vertices of a route that are kept. */
  ghost function Kept(drop: Vertex -> bool, p: seq<Vertex>): seq<Vertex> {
    if p == [] then []
    else if drop(p[0]) then Kept(drop, p[1..])
    else [p[0]] + Kept(drop, p[1..])
  }

  lemma {:induction false} KeptProperties(drop: Vertex -> bool, p: seq<Vertex>)
    ensures |Kept(drop, p)| <= |p|
    ensures forall v | v in Kept(drop, p) :: v in p && !drop(v)
    ensures p != [] && !drop(p[|p| - 1]) ==> Kept(drop, p) != [] && Kept(drop, p)[|Kept(drop, p)| - 1] == p[|p| - 1]
  {
    if p != [] { KeptProperties(drop, p[1..]); }
  }

  /** The kept vertices of a route between kept vertices are a route of the pruned graph. */
  lemma {:induction false} ShrinkRoute(g: Graph, drop: Vertex -> bool, s: Vertex, t: Vertex, p: seq<Vertex>)
    requires Route(g, s, t, p) && !drop(s) && !drop(t)
    ensures Route(Pruned(g, drop), s, t, Kept(drop, p))
    decreases |p|
  {
    var i := 1;
    while drop(p[i])
      invariant 1 <= i < |p|
      invariant forall j | 0 < j < i :: drop(p[j])
      invariant Kept(drop, p[1..]) == Kept(drop, p[i..])
      decreases |p| - i
    {
      assert p[i..][1..] == p[i + 1..];
      i := i + 1;
    }
    var k := p[i];
    assert DroppedRoute(g, drop, s, k, p[..i + 1]);
    SourcesIff(g, drop, k, s);
    assert p[i - 1] in Preds(g, k);
    assert s in Preds(Pruned(g, drop), k);
    assert p[i..][1..] == p[i + 1..];
    if i < |p| - 1 {
      assert Route(g, k, t, p[i..]);
      ShrinkRoute(g, drop, k, t, p[i..]);
      assert Kept(drop, p) == [s] + Kept(drop, p[i..]);
    } else {
      assert p[i + 1..] == [];
      assert Kept(drop, p[i..]) == [k] + Kept(drop, []);
      assert Kept(drop, p) == [s, t];
    }
  }

  /** Contracting vertices neither adds nor removes reachability between the kept ones. */
  lemma PrunedReach(g: Graph, drop: Vertex -> bool, s: Vertex, t: Vertex)
    requires !drop(s) && !drop(t)
    ensures Reach(Pruned(g, drop), s, t) <==> Reach(g, s, t)
  {
    if p :| Route(Pruned(g, drop), s, t, p) {
      StretchRoute(g, drop, s, t, p);
    }
    if p :| Route(g, s, t, p) {
      ShrinkRoute(g, drop, s, t, p);
    }
  }

  lemma PrunedValid(g: Graph, drop: Vertex -> bool)
    requires ValidDag(g)
    ensures ValidDag(Pruned(g, drop))
  {
    PrunedClosed(g, drop);
    forall v ensures !Reach(Pruned(g, drop), v, v) {
      if Reach(Pruned(g, drop), v, v) {
        ReachInNodes(Pruned(g, drop), v, v);
        PrunedReach(g, drop, v, v);
      }
    }
  }

  // ----- Tags -----

  /** Stretching a route adds dropped vertices only, and never shortens it. */
  lemma {:induction false} StretchOpenRoute(g: Graph, drop: Vertex -> bool, stops: iset<Vertex>,
                                            n: Vertex, v: Vertex, p: seq<Vertex>)
    returns (q: seq<Vertex>)
    requires forall x | x in stops :: !drop(x)
    requires OpenRoute(Pruned(g, drop), stops, n, v, p)
    ensures OpenRoute(g, stops, n, v, q) && |p| <= |q|
    decreases |p|
  {
    var u := p[|p| - 2];
    assert u in Preds(Pruned(g, drop), v);
    SourcesIff(g, drop, v, u);
    var last :| DroppedRoute(g, drop, u, v, last);
    if |p| == 2 {
      q := last;
    } else {
      assert OpenRoute(Pruned(g, drop), stops, n, u, p[..|p| - 1]);
      var init := StretchOpenRoute(g, drop, stops, n, u, p[..|p| - 1]);
      RouteConcat(g, n, u, v, init, last);
      q := init + last[1..];
      forall i | 0 < i < |q| - 1 ensures q[i] !in stops {
        if i == |init| - 1 {
          assert q[i] == u;
        }
      }
    }
  }

  /** Pruning the reverse graph gives the reverse of the pruned graph. */
  lemma PrunedReverse(g: Graph, drop: Vertex -> bool)
    requires Closed(g)
    ensures Pruned(Reverse(g), drop) == Reverse(Pruned(g, drop))
  {
    var a, b := Pruned(Reverse(g), drop), Reverse(Pruned(g, drop));
    ReverseClosed(g);
    PrunedClosed(g, drop);
    ReverseClosed(Pruned(g, drop));
    forall v, u ensures u in Preds(a, v) <==> u in Preds(b, v) {
      if v in a.Keys {
        SourcesReversed(g, drop, u, v);
      }
    }
    GraphsEqual(a, b);
  }

  lemma SourcesReversed(g: Graph, drop: Vertex -> bool, u: Vertex, v: Vertex)
    requires Closed(g) && v in g && !drop(v)
    ensures u in Sources(Reverse(g), drop, v) <==> u in g && !drop(u) && v in Sources(g, drop, u)
  {
    SourcesIff(Reverse(g), drop, v, u);
    SourcesIff(g, drop, u, v);
    if p :| DroppedRoute(Reverse(g), drop, u, v, p) {
      RouteUnreversed(g, u, v, p);
      ReachInNodes(g, v, u);
      FlippedInside(drop, p);
      assert DroppedRoute(g, drop, v, u, Flip(p));
    }
    if p :| DroppedRoute(g, drop, v, u, p) {
      RouteReversed(g, v, u, p);
      FlippedInside(drop, p);
      assert DroppedRoute(Reverse(g), drop, u, v, Flip(p));
    }
  }

  lemma FlippedInside(drop: Vertex -> bool, p: seq<Vertex>)
    requires forall i | 0 < i < |p| - 1 :: drop(p[i])
    ensures forall i | 0 < i < |p| - 1 :: drop(Flip(p)[i])
  {
    forall i | 0 < i < |p| - 1 ensures drop(Flip(p)[i]) {
      assert Flip(p)[i] == p[|p| - 1 - i];
    }
  }

  /** Looking at the pruned graph in a direction is pruning the graph looked at in that direction. */
  lemma PrunedDirection(g: Graph, drop: Vertex -> bool, reverseOrder: bool)
    requires Closed(g)
    ensures Direction(Pruned(g, drop), reverseOrder) == Pruned(Direction(g, reverseOrder), drop)
  {
    if reverseOrder { PrunedReverse(g, drop); }
  }

  /**
   Pruning untagged vertices keeps the set of tagged vertices that a kept vertex sees in either
   direction, and brings none of them further away.
   */
  lemma PrunedContext(g: Graph, drop: Vertex -> bool, tagged: iset<Vertex>, n: Vertex, v: Vertex, reverseOrder: bool)
    requires Closed(g) && forall x | x in tagged :: !drop(x)
    requires n in tagged && !drop(v)
    ensures var before, after := Direction(g, reverseOrder), Direction(Pruned(g, drop), reverseOrder);
            && (OpenReach(after, tagged, n, v) <==> OpenReach(before, tagged, n, v))
            && forall d: nat | OpenWithin(before, tagged, n, v, d) :: OpenWithin(after, tagged, n, v, d)
  {
    PrunedDirection(g, drop, reverseOrder);
    OneDirection(Direction(g, reverseOrder), drop, tagged, n, v);
  }

  lemma OneDirection(g: Graph, drop: Vertex -> bool, tagged: iset<Vertex>, n: Vertex, v: Vertex)
    requires forall x | x in tagged :: !drop(x)
    requires n in tagged && !drop(v)
    ensures OpenReach(Pruned(g, drop), tagged, n, v) <==> OpenReach(g, tagged, n, v)
    ensures forall d: nat | OpenWithin(g, tagged, n, v, d) :: OpenWithin(Pruned(g, drop), tagged, n, v, d)
  {
    if p :| OpenRoute(Pruned(g, drop), tagged, n, v, p) {
      var q := StretchOpenRoute(g, drop, tagged, n, v, p);
    }
    forall p | OpenRoute(g, tagged, n, v, p)
      ensures OpenRoute(Pruned(g, drop), tagged, n, v, Kept(drop, p)) && |Kept(drop, p)| <= |p|
    {
      ShrinkOpenRoute(g, drop, tagged, n, v, p);
    }
  }

  lemma ShrinkOpenRoute(g: Graph, drop: Vertex -> bool, stops: iset<Vertex>, n: Vertex, v: Vertex, p: seq<Vertex>)
    requires OpenRoute(g, stops, n, v, p) && !drop(n) && !drop(v)
    ensures OpenRoute(Pruned(g, drop), stops, n, v, Kept(drop, p)) && |Kept(drop, p)| <= |p|
  {
    ShrinkRoute(g, drop, n, v, p);
    var inner := p[1..|p| - 1];
    KeptProperties(drop, inner);
    assert p == [n] + inner + [v];
    KeptSplit(drop, [n] + inner, [v]);
    KeptSplit(drop, [n], inner);
    var q := Kept(drop, p);
    assert q == [n] + Kept(drop, inner) + [v];
    forall i | 0 < i < |q| - 1 ensures q[i] !in stops {
      assert q[i] in Kept(drop, inner);
      var j :| 0 <= j < |inner| && inner[j] == q[i];
      assert p[j + 1] == q[i];
    }
  }

  lemma {:induction false} KeptSplit(drop: Vertex -> bool, a: seq<Vertex>, b: seq<Vertex>)
    ensures Kept(drop, a + b) == Kept(drop, a) + Kept(drop, b)
  {
    if a == [] {
      assert a + b == b;
    } else {
      assert (a + b)[1..] == a[1..] + b;
      KeptSplit(drop, a[1..], b);
    }
  }

  /**
   Distances do shrink: with a tagged vertex behind an untagged one, pruning the untagged
   one moves the tag from distance 2 to distance 1.
   */
  lemma PruningShortensDistances(tag: Vertex, middle: Vertex, start: Vertex)
    requires tag != middle && middle != start && start != tag
    ensures var g := map[tag := {}, middle := {tag}, start := {middle}];
            var drop := (x: Vertex) => x == middle;
            OpenDistance(g, iset{tag}, tag, start, 2) && OpenDistance(Pruned(g, drop), iset{tag}, tag, start, 1)
  {
    var g := map[tag := {}, middle := {tag}, start := {middle}];
    var drop := (x: Vertex) => x == middle;
    assert OpenRoute(g, iset{tag}, tag, start, [tag, middle, start]);
    forall p | OpenRoute(g, iset{tag}, tag, start, p) ensures |p| > 2 {
      assert p[|p| - 2] in Preds(g, start);
    }
    assert DroppedRoute(g, drop, tag, start, [tag, middle, start]);
    SourcesIff(g, drop, start, tag);
    assert OpenRoute(Pruned(g, drop), iset{tag}, tag, start, [tag, start]);
  }

  /** Every kept untagged vertex finds every tag within the same distances in both graphs. */
  ghost predicate DistancesKept(before: Graph, after: Graph, drop: Vertex -> bool, tagged: iset<Vertex>) {
    forall n, v, d: nat | n in tagged && v !in tagged && !drop(v) ::
      OpenWithin(after, tagged, n, v, d) <==> OpenWithin(before, tagged, n, v, d)
  }

  /** u is the tagged vertex n itself, or an untagged vertex that finds n within distance d. */
  ghost predicate Finds(g: Graph, tagged: iset<Vertex>, n: Vertex, u: Vertex, d: nat) {
    (u == n && d == 0) || (u !in tagged && OpenWithin(g, tagged, n, u, d))
  }

  /**
   No chain of dropped vertices is a shortcut once it is contracted: whatever its kept start u
   finds, its kept untagged end w found already at most one step further away.
   */
  ghost predicate NoShortcut(g: Graph, drop: Vertex -> bool, tagged: iset<Vertex>) {
    forall n, u, w, d: nat | n in tagged && w !in tagged && !drop(w) && u in Sources(g, drop, w)
      && Finds(g, tagged, n, u, d) ::
      OpenWithin(g, tagged, n, w, d + 1)
  }

  /** Pruning untagged vertices keeps the distances in a direction exactly when no dropped chain is a shortcut in it. */
  lemma DistancesKeptIff(g: Graph, drop: Vertex -> bool, tagged: iset<Vertex>, reverseOrder: bool)
    requires Closed(g) && forall x | x in tagged :: !drop(x)
    ensures DistancesKept(Direction(g, reverseOrder), Direction(Pruned(g, drop), reverseOrder), drop, tagged)
            <==> NoShortcut(Direction(g, reverseOrder), drop, tagged)
  {
    PrunedDirection(g, drop, reverseOrder);
    var before := Direction(g, reverseOrder);
    hide DistancesKept, NoShortcut;
    if DistancesKept(before, Pruned(before, drop), drop, tagged) {
      KeptMeansNoShortcut(before, drop, tagged);
    }
    if NoShortcut(before, drop, tagged) {
      NoShortcutMeansKept(before, drop, tagged);
    }
  }

  lemma KeptMeansNoShortcut(g: Graph, drop: Vertex -> bool, tagged: iset<Vertex>)
    requires forall x | x in tagged :: !drop(x)
    requires DistancesKept(g, Pruned(g, drop), drop, tagged)
    ensures NoShortcut(g, drop, tagged)
  {
    forall n, u, w, d: nat
      | n in tagged && w !in tagged && !drop(w) && u in Sources(g, drop, w) && Finds(g, tagged, n, u, d)
      ensures OpenWithin(g, tagged, n, w, d + 1)
    {
      ShortcutShows(g, drop, tagged, n, u, w, d);
    }
  }

  lemma NoShortcutMeansKept(g: Graph, drop: Vertex -> bool, tagged: iset<Vertex>)
    requires forall x | x in tagged :: !drop(x)
    requires NoShortcut(g, drop, tagged)
    ensures DistancesKept(g, Pruned(g, drop), drop, tagged)
  {
    forall n, v, d: nat | n in tagged && v !in tagged && !drop(v)
      ensures OpenWithin(Pruned(g, drop), tagged, n, v, d) <==> OpenWithin(g, tagged, n, v, d)
    {
      OneDirection(g, drop, tagged, n, v);
      if p :| OpenRoute(Pruned(g, drop), tagged, n, v, p) && |p| <= d + 1 {
        NoShortcutRoute(g, drop, tagged, n, v, p);
      }
    }
  }

  /** The contracted edge makes w find what u finds one step further away. */
  lemma ShortcutShows(g: Graph, drop: Vertex -> bool, tagged: iset<Vertex>, n: Vertex, u: Vertex, w: Vertex, d: nat)
    requires forall x | x in tagged :: !drop(x)
    requires n in tagged && w !in tagged && !drop(w) && u in Sources(g, drop, w) && Finds(g, tagged, n, u, d)
    ensures OpenWithin(Pruned(g, drop), tagged, n, w, d + 1)
  {
    hide Sources;
    SourcesIff(g, drop, w, u);
    assert Reach(g, u, w);
    ReachInNodes(g, u, w);
    assert u in Preds(Pruned(g, drop), w);
    if u == n {
      assert OpenRoute(Pruned(g, drop), tagged, n, w, [n, w]);
    } else {
      OneDirection(g, drop, tagged, n, u);
      var p :| OpenRoute(Pruned(g, drop), tagged, n, u, p) && |p| <= d + 1;
      assert OpenRoute(Pruned(g, drop), tagged, n, w, p + [w]);
    }
  }

  lemma {:induction false} NoShortcutRoute(g: Graph, drop: Vertex -> bool, tagged: iset<Vertex>,
                                           n: Vertex, v: Vertex, p: seq<Vertex>)
    requires NoShortcut(g, drop, tagged)
    requires n in tagged && v !in tagged && !drop(v)
    requires OpenRoute(Pruned(g, drop), tagged, n, v, p)
    ensures OpenWithin(g, tagged, n, v, |p| - 1)
    decreases |p|
  {
    var u := p[|p| - 2];
    assert u in Preds(Pruned(g, drop), v);
    assert u in Sources(g, drop, v);
    if |p| > 2 {
      assert u !in tagged;
      assert OpenRoute(Pruned(g, drop), tagged, n, u, p[..|p| - 1]);
      NoShortcutRoute(g, drop, tagged, n, u, p[..|p| - 1]);
    }
    assert Finds(g, tagged, n, u, |p| - 2);
  }
}
