/**
 The state of the shortest-path search and why it finds a shortest route.

 The search walks from the target back along predecessors. Its nodes are the vertices
 of the graph and, when source and target are the same vertex, a fake node None that
 stands for that vertex seen as a predecessor.
 */
module Searches {
  import opened Wrappers
  import opened Graphs

  type Node = Option<Vertex>

  /** The node where the search ends. */
  function Goal(source: Vertex, target: Vertex): Node {
    if source == target then None else Some(source)
  }

  /** The node that stands for p seen as a predecessor. */
  function AsPred(source: Vertex, target: Vertex, p: Vertex): Node {
    if source == target && p == target then None else Some(p)
  }

  function Real(target: Vertex, x: Node): Vertex {
    if x.None? then target else x.value
  }

  function SearchNodes(g: Graph, source: Vertex, target: Vertex): set<Node> {
    (set v | v in g :: Some(v)) + if source == target then {None} else {}
  }

  datatype Search = Search(
    g: Graph, source: Vertex, target: Vertex,
    dist: map<Node, nat>,          // distance to the target found so far
    prev: map<Node, Node>,         // next node on the way to the target
    paths: map<Node, seq<Vertex>>)  // the route that following prev gives
  {
    function Infinite(): nat { |g| + 1 }

    /** The search is about these local variables of the method that runs it. */
    ghost predicate Records(source: Vertex, target: Vertex, dist: map<Node, nat>, prev: map<Node, Node>) {
      this.source == source && this.target == target && this.dist == dist && this.prev == prev
    }

    ghost function All(): set<Node> { SearchNodes(g, source, target) }

    /** A finite distance is the length of the route that the links describe. */
    ghost predicate SoundAt(open: set<Node>, x: Node)
      requires dist.Keys == paths.Keys && x in dist
    {
      dist[x] < Infinite() ==>
        && |paths[x]| == dist[x] + 1
        && paths[x][0] == Real(target, x)
        && (x == Some(target) ==> paths[x] == [target])
        && (forall i | 0 < i < |paths[x]| :: Some(paths[x][i]) in All() - open)
        && (x.Some? ==> Distinct(paths[x]))
        && (x != Some(target) && x in prev ==>
              var u := prev[x];
              && u.Some? && u in All() - open && u in dist && dist[u] + 1 == dist[x]
              && u.value in g && Real(target, x) in g[u.value]
              && paths[x] == [Real(target, x)] + paths[u])
    }

    ghost predicate Shaped(open: set<Node>) {
      && Closed(g)
      && open <= All()
      && dist.Keys == paths.Keys == All() + {Some(target)}
      && prev.Keys == All()
      && dist[Some(target)] == 0
      && (Some(target) in prev ==> prev[Some(target)] == None)
    }

    ghost predicate Sound(open: set<Node>) {
      && Shaped(open)
      && (forall x | x in dist :: dist[x] <= Infinite() && SoundAt(open, x))
    }

    /** The predecessor p of u is as near as the edge between them makes it. */
    ghost predicate Relaxed(u: Vertex, p: Vertex)
      requires Closed(g) && dist.Keys == All() + {Some(target)} && u in g && p in g[u]
    {
      dist[AsPred(source, target, p)] <= dist[Some(u)] + 1
    }

    /** Every finished vertex has been relaxed. */
    ghost predicate Complete(open: set<Node>)
      requires Closed(g) && dist.Keys == All() + {Some(target)}
    {
      forall u, p | u in g && Some(u) !in open && p in g[u] :: Relaxed(u, p)
    }

    /** What holds whenever the search picks its next node. */
    ghost predicate Searching(open: set<Node>) {
      Sound(open) && Complete(open) && Ordered(open)
    }

    /** What holds while the search looks at the predecessors of u, todo still to come. */
    ghost predicate Expanding(open: set<Node>, u: Vertex, todo: set<Vertex>) {
      && Sound(open) && u in g && todo <= g[u]
      && Frontier(open, u)
      && CompleteBut(open, u, todo)
    }

    /** The predecessors of u that are still to be looked at are all that is missing. */
    ghost predicate CompleteBut(open: set<Node>, u: Vertex, todo: set<Vertex>)
      requires Closed(g) && dist.Keys == All() + {Some(target)} && u in g
    {
      forall w, p | w in g && Some(w) !in open && p in g[w] && !(w == u && p in todo) :: Relaxed(w, p)
    }

    /** No finished node is further away than an open one. */
    ghost predicate Ordered(open: set<Node>)
      requires open <= All() && dist.Keys == All() + {Some(target)}
    {
      forall x, y | x in All() - open && y in open :: dist[x] <= dist[y]
    }

    /** u lies between the finished nodes and the open ones. */
    ghost predicate Frontier(open: set<Node>, u: Vertex)
      requires open <= All() && dist.Keys == All() + {Some(target)}
    {
      && Some(u) in All() - open
      && (forall x | x in All() - open :: dist[x] <= dist[Some(u)])
      && (forall y | y in open :: dist[Some(u)] <= dist[y])
    }

    /** The part of a finite distance's bound that keeps it away from the infinite one. */
    lemma FiniteBound(open: set<Node>, u: Vertex)
      requires Sound(open) && u in g && dist[Some(u)] < Infinite()
      ensures dist[Some(u)] + 1 < Infinite()
    {
      var p := paths[Some(u)];
      assert SoundAt(open, Some(u));
      assert Elements(p) <= g.Keys;
      DistinctLength(p, g.Keys);
    }

    /** The links of a finite node describe a linked sequence ending in the target. */
    lemma {:induction false} PathIsLinked(open: set<Node>, x: Node)
      requires Sound(open) && x in dist && dist[x] < Infinite()
      requires x in prev || x == Some(target)
      ensures Linked(g, paths[x]) && paths[x][|paths[x]| - 1] == target
      decreases dist[x]
    {
      assert SoundAt(open, x);
      if x != Some(target) {
        PathIsLinked(open, prev[x]);
        assert SoundAt(open, prev[x]);
      }
    }

    lemma AllNodes(x: Node)
      ensures x in All() <==> (if x.None? then source == target else x.value in g)
    {
    }

    /** The search after finding a shorter way to the predecessor p of u through u. */
    ghost function Update(u: Vertex, p: Vertex): Search
      requires Some(u) in dist && Some(u) in paths
    {
      var v := AsPred(source, target, p);
      Search(g, source, target, dist[v := dist[Some(u)] + 1], prev[v := Some(u)], paths[v := [p] + paths[Some(u)]])
    }

    lemma UpdateOther(open: set<Node>, u: Vertex, p: Vertex, x: Node)
      requires Sound(open) && u in g && p in g[u] && Some(u) !in open
      requires AsPred(source, target, p) in open && x in dist && x != AsPred(source, target, p)
      ensures Update(u, p).SoundAt(open, x)
    {
      assert SoundAt(open, x);
    }

    lemma UpdateSelf(open: set<Node>, u: Vertex, p: Vertex)
      requires Shaped(open) && u in g && p in g[u] && Some(u) !in open && SoundAt(open, Some(u))
      requires var v := AsPred(source, target, p);
               v in open && dist[Some(u)] + 1 < dist[v] <= Infinite()
      ensures Update(u, p).SoundAt(open, AsPred(source, target, p))
    {
      var v := AsPred(source, target, p);
      AllNodes(Some(u));
      var old_, path := paths[Some(u)], [p] + paths[Some(u)];
      forall i | 0 < i < |path| ensures Some(path[i]) in All() - open {
        assert path[i] == old_[i - 1];
      }
      if v.Some? {
        forall i, j | 0 <= i < j < |path| ensures path[i] != path[j] {
          assert Some(path[j]) !in open;
        }
      }
    }

    lemma UpdateShaped(open: set<Node>, u: Vertex, p: Vertex)
      requires Shaped(open) && Some(u) in dist
      requires var v := AsPred(source, target, p); v in open && dist[Some(u)] + 1 < dist[v]
      ensures Update(u, p).Shaped(open)
    {
      var next := Update(u, p);
      assert next.dist.Keys == dist.Keys && next.prev.Keys == prev.Keys && next.paths.Keys == paths.Keys;
      assert next.All() == All();
    }

    /** Taking a shorter way to p through u keeps the search sound. */
    lemma UpdateSound(open: set<Node>, u: Vertex, p: Vertex)
      requires Sound(open) && u in g && p in g[u] && Some(u) !in open
      requires AsPred(source, target, p) in open && dist[Some(u)] + 1 < dist[AsPred(source, target, p)]
      ensures Update(u, p).Sound(open)
    {
      var v, next := AsPred(source, target, p), Update(u, p);
      assert SoundAt(open, Some(u)) && dist[v] <= Infinite();
      UpdateSelf(open, u, p);
      UpdateShaped(open, u, p);
      forall x | x in next.dist ensures next.dist[x] <= Infinite() && next.SoundAt(open, x) {
        assert dist[x] <= Infinite();
        if x != v { UpdateOther(open, u, p, x); }
      }
    }

    /** The goal is nearer than bound, or q[j] is finished and nearer than bound. */
    ghost predicate Near(open: set<Node>, q: seq<Vertex>, j: nat, bound: int)
      requires dist.Keys == All() + {Some(target)} && j < |q|
      requires Goal(source, target) in All()
    {
      || (dist[Goal(source, target)] <= bound && dist[Goal(source, target)] < Infinite())
      || (q[j] in g && Some(q[j]) !in open && dist[Some(q[j])] <= bound && dist[Some(q[j])] < Infinite())
    }

    lemma NearStep(open: set<Node>, q: seq<Vertex>, j: nat, bound: int)
      requires Shaped(open) && Goal(source, target) in open
      requires forall y | y in open :: dist[Goal(source, target)] <= dist[y]
      requires 0 < j < |q| && q[j - 1] in Preds(g, q[j])
      requires Some(q[j]) in All() - open && dist[Some(q[j])] < Infinite() ==>
                 dist[Some(q[j])] + 1 < Infinite() && Relaxed(q[j], q[j - 1])
      requires Near(open, q, j, bound)
      ensures Near(open, q, j - 1, bound + 1)
      ensures j == 1 && q[0] == source ==>
                dist[Goal(source, target)] <= bound + 1 && dist[Goal(source, target)] < Infinite()
    {
      AllNodes(Some(q[j]));
      AllNodes(AsPred(source, target, q[j - 1]));
      assert q[j - 1] in g;
    }

    /** When the goal is the nearest open node, no route is shorter than its distance. */
    lemma {:induction false} NoShorterRoute(open: set<Node>, q: seq<Vertex>, j: nat)
      requires Sound(open) && Complete(open)
      requires Goal(source, target) in open
      requires forall y | y in open :: dist[Goal(source, target)] <= dist[y]
      requires Route(g, source, target, q) && j < |q|
      ensures Near(open, q, j, |q| - 1 - j)
      ensures j == 0 ==> dist[Goal(source, target)] <= |q| - 1 && dist[Goal(source, target)] < Infinite()
      decreases |q| - j
    {
      if j < |q| - 1 {
        NoShorterRoute(open, q, j + 1);
        var u := q[j + 1];
        assert q[j + 1 - 1] in Preds(g, u);
        if Some(u) in All() - open && dist[Some(u)] < Infinite() {
          AllNodes(Some(u));
          FiniteBound(open, u);
          assert Relaxed(u, q[j]);
        }
        NearStep(open, q, j + 1, |q| - 2 - j);
      } else {
        assert q[j - 1] in Preds(g, q[j]);
      }
    }

    /** Where the search can look things up. */
    lemma Domains(open: set<Node>)
      requires Sound(open)
      ensures dist.Keys == All() + {Some(target)} && prev.Keys == All() && open <= All() && Closed(g)
      ensures forall u, p | u in g && p in g[u] :: AsPred(source, target, p) in All()
      ensures forall u :: Some(u) in All() <==> u in g
      ensures None in All() <==> source == target
    {
      forall u, p | u in g && p in g[u] ensures AsPred(source, target, p) in All() {
        assert p in g;
      }
    }

    lemma Lookups(open: set<Node>)
      requires Searching(open)
      ensures open <= dist.Keys
      ensures forall u | u in open :: u == None ==> u == Goal(source, target)
      ensures forall u: Vertex | Some(u) in open :: u in g
    {
      Domains(open);
    }

    lemma ExpandLookups(open: set<Node>, u: Vertex, todo: set<Vertex>, p: Vertex)
      requires Expanding(open, u, todo) && p in todo
      ensures Some(u) in dist && Some(u) in paths
      ensures AsPred(source, target, p) in dist && AsPred(source, target, p) in prev
    {
      Domains(open);
    }

    /** Picking the nearest open node u. */
    lemma Pick(open: set<Node>, u: Vertex)
      requires Searching(open) && Some(u) in open
      requires forall y | y in open :: dist[Some(u)] <= dist[y]
      ensures Expanding(open - {Some(u)}, u, Preds(g, u))
    {
      AllNodes(Some(u));
      forall x | x in dist ensures dist[x] <= Infinite() && SoundAt(open - {Some(u)}, x) {
        assert dist[x] <= Infinite() && SoundAt(open, x);
      }
    }

    lemma Expanded(open: set<Node>, u: Vertex)
      requires Expanding(open, u, {})
      ensures Searching(open)
    {
    }

    lemma Skip(open: set<Node>, u: Vertex, p: Vertex, todo: set<Vertex>)
      requires Expanding(open, u, todo) && p in todo
      requires dist[Some(u)] + 1 >= dist[AsPred(source, target, p)]
      ensures Expanding(open, u, todo - {p})
    {
      assert Relaxed(u, p);
    }

    /** Only an open node can be given a shorter distance. */
    lemma ShortenedIsOpen(open: set<Node>, u: Vertex, p: Vertex)
      requires Shaped(open) && Frontier(open, u) && u in g && p in g[u]
      requires AsPred(source, target, p) in dist && dist[Some(u)] + 1 < dist[AsPred(source, target, p)]
      ensures AsPred(source, target, p) in open && Some(u) !in open
    {
      AllNodes(AsPred(source, target, p));
      assert p in g;
    }

    lemma ShortenedDistances(open: set<Node>, u: Vertex, p: Vertex)
      requires Shaped(open) && Frontier(open, u)
      requires var v := AsPred(source, target, p); v in open && dist[Some(u)] + 1 < dist[v]
      ensures Update(u, p).Shaped(open) && Update(u, p).Frontier(open, u)
      ensures forall x | x in dist :: Update(u, p).dist[x] <= dist[x]
      ensures forall x | x in dist && x !in open :: Update(u, p).dist[x] == dist[x]
      ensures Update(u, p).dist[AsPred(source, target, p)] == dist[Some(u)] + 1
    {
      UpdateShaped(open, u, p);
    }

    lemma ShortenedRelaxed(open: set<Node>, u: Vertex, p: Vertex, w: Vertex, q: Vertex, next: Search)
      requires Shaped(open) && next.Shaped(open)
      requires next.g == g && next.source == source && next.target == target
      requires w in g && Some(w) !in open && q in g[w] && Some(u) in dist && Some(u) !in open
      requires forall x | x in dist :: next.dist[x] <= dist[x]
      requires forall x | x in dist && x !in open :: next.dist[x] == dist[x]
      requires AsPred(source, target, p) in dist && next.dist[AsPred(source, target, p)] == dist[Some(u)] + 1
      requires Relaxed(w, q) || (w == u && q == p)
      ensures next.Relaxed(w, q)
    {
      AllNodes(Some(w));
      AllNodes(AsPred(source, target, q));
      assert q in g;
    }

    /** A shorter way through u changes an open node only, so the frontier and the rest stay. */
    lemma Shorten(open: set<Node>, u: Vertex, p: Vertex, todo: set<Vertex>)
      requires Expanding(open, u, todo) && p in todo
      requires AsPred(source, target, p) in dist && dist[Some(u)] + 1 < dist[AsPred(source, target, p)]
      ensures Update(u, p).Expanding(open, u, todo - {p})
    {
      hide SoundAt, Frontier, Relaxed;
      var next := Update(u, p);
      ShortenedIsOpen(open, u, p);
      UpdateSound(open, u, p);
      ShortenedDistances(open, u, p);
      forall w, q | w in g && Some(w) !in open && q in g[w] && !(w == u && q in todo - {p}) ensures next.Relaxed(w, q) {
        ShortenedRelaxed(open, u, p, w, q, next);
      }
    }

    /** The goal's final distance is the least there is, and finite exactly if there is a route. */
    lemma Finished(open: set<Node>)
      requires Searching(open) && Goal(source, target) in open
      requires forall y | y in open :: dist[Goal(source, target)] <= dist[y]
      ensures Goal(source, target) in dist && Goal(source, target) in prev
      ensures dist[Goal(source, target)] <= Infinite()
      ensures forall q | Route(g, source, target, q) :: dist[Goal(source, target)] <= |q| - 1
      ensures Reach(g, source, target) ==> dist[Goal(source, target)] < Infinite()
    {
      forall q | Route(g, source, target, q)
        ensures dist[Goal(source, target)] <= |q| - 1 && dist[Goal(source, target)] < Infinite()
      {
        NoShorterRoute(open, q, 0);
      }
    }

    /** A finite distance of the goal is realised by a route. */
    lemma GoalPath(open: set<Node>)
      requires Searching(open) && Goal(source, target) in prev
      requires Goal(source, target) in dist && dist[Goal(source, target)] < Infinite()
      ensures Goal(source, target) in paths
      ensures var path := paths[Goal(source, target)];
              Route(g, source, target, path) && |path| == dist[Goal(source, target)] + 1
    {
      PathIsLinked(open, Goal(source, target));
      assert SoundAt(open, Goal(source, target));
    }

    /** Following one link. */
    lemma Follow(open: set<Node>, x: Node)
      requires Searching(open) && x in prev && x in dist && dist[x] < Infinite() && prev[x] != None
      ensures var u := prev[x];
              && u.Some? && u in prev && u in dist && dist[u] + 1 == dist[x]
              && x in paths && u in paths
              && |paths[x]| >= 1 && |paths[u]| >= 1
              && paths[x] == [Real(target, x)] + paths[u] && paths[u][0] == u.value
    {
      assert SoundAt(open, x);
      assert SoundAt(open, prev[x]);
    }

    lemma Arrived(open: set<Node>, x: Node)
      requires Searching(open) && x in prev && x in dist && dist[x] < Infinite() && prev[x] == None
      ensures x in paths && paths[x] == [target] && x == Some(target)
    {
      assert SoundAt(open, x);
    }
  }

  lemma InitialSearch(search: Search, open: set<Node>)
    requires Closed(search.g) && open == search.All() == search.prev.Keys
    requires search.dist.Keys == search.paths.Keys == search.All() + {Some(search.target)}
    requires forall x | x in search.dist :: search.paths[x] == [search.target]
    requires forall x | x in search.dist :: search.dist[x] == if x == Some(search.target) then 0 else search.Infinite()
    requires forall x | x in search.prev :: search.prev[x] == None
    ensures search.Searching(open)
  {
    forall u | u in search.g ensures Some(u) in open { search.AllNodes(Some(u)); }
    forall x | x in search.dist ensures search.dist[x] <= search.Infinite() && search.SoundAt(open, x) {
    }
  }
}
