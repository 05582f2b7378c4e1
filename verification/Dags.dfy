/**
 The mutable DAG with its lazily invalidated caches, and the topological iterator.
 */
module Dags {
  import opened Wrappers
  import opened Graphs
  import opened Sequences
  import opened Contexts
  import opened Pruning
  import opened Searches

  type Data(==, !new)
  type Tag(==, !new)

  /** A vertex together with its data. */
  type Item = (Vertex, Option<Data>)

  /** A tagged vertex found by GetContext, and how far away it is. */
  datatype ContextEntry = ContextEntry(distance: nat, vertex: Vertex, tag: Tag)

  datatype DagError =
    | VertexExists(vertex: Vertex)
    | UnknownPredecessors
    | KnownCycle
    | CycleDetected(cycle: seq<Vertex>)
    | TagSuppressed(vertex: Vertex)

  function Ids(items: seq<Item>): (r: seq<Vertex>)
    ensures |r| == |items|
    ensures forall i | 0 <= i < |items| :: r[i] == items[i].0
  {
    seq(|items|, i requires 0 <= i < |items| => items[i].0)
  }

  /** The vertices of g in a topological order, each with its data. */
  ghost predicate OrderAgrees(g: Graph, data: map<Vertex, Option<Data>>, items: seq<Item>) {
    && Topological(g, Ids(items))
    && forall item | item in items :: item.0 in data && item.1 == data[item.0]
  }

  /** Data None leaves the data of an existing vertex alone. */
  function SetData(data: map<Vertex, Option<Data>>, v: Vertex, d: Option<Data>): map<Vertex, Option<Data>> {
    if v in data && d.None? then data else data[v := d]
  }

  /** A route from s to t with no shorter one; when the ends are equal, a shortest cycle through them. */
  ghost predicate MinimalRoute(g: Graph, s: Vertex, t: Vertex, p: seq<Vertex>) {
    Route(g, s, t, p) && forall q | Route(g, s, t, q) :: |p| <= |q|
  }

  class DAG {
    var vertexData: map<Vertex, Option<Data>>
    var tags: map<Vertex, Option<Tag>>
    var vertexPredecessors: Graph
    var vertexSuccessors: Graph
    var hasCycle: Option<bool>
    var cachedOrder: Option<seq<Item>>

    /** What the caches hold is what recomputing them would give. */
    ghost predicate CachesAgree()
      reads this`vertexData, this`vertexPredecessors, this`vertexSuccessors, this`hasCycle, this`cachedOrder
    {
      && (vertexSuccessors == map[] ||
          (Closed(vertexPredecessors) && vertexSuccessors == Reverse(vertexPredecessors)))
      && (hasCycle.Some? ==> hasCycle.value == !ValidDag(vertexPredecessors))
      && (cachedOrder.Some? ==> OrderAgrees(vertexPredecessors, vertexData, cachedOrder.value))
    }

    ghost predicate Valid()
      reads this`vertexData, this`vertexPredecessors, this`vertexSuccessors, this`hasCycle, this`cachedOrder
    {
      vertexData.Keys == vertexPredecessors.Keys && CachesAgree()
    }

    constructor ()
      ensures Valid()
      ensures vertexData == map[] && tags == map[] && vertexPredecessors == map[]
      ensures hasCycle == None && cachedOrder == None
    {
      vertexData := map[];
      tags := map[];
      vertexPredecessors := map[];
      vertexSuccessors := map[];
      hasCycle := None;
      cachedOrder := None;
    }

    method ResetCaches()
      modifies this`hasCycle, this`cachedOrder
      ensures hasCycle == None && cachedOrder == None
    {
      hasCycle := None;
      cachedOrder := None;
    }

    function GetPredecessors(v: Vertex): set<Vertex>
      reads this
    {
      Preds(vertexPredecessors, v)
    }

    function GetTag(v: Vertex): Option<Tag>
      reads this
    {
      if v in tags then tags[v] else None
    }

    method AddTag(v: Vertex, tag: Option<Tag>)
      requires Valid()
      modifies this`tags
      ensures Valid() && tags == old(tags)[v := tag]
    {
      tags := tags[v := tag];
    }

    method SetPredecessors(v: Vertex, predecessors: set<Vertex>)
      modifies this`vertexPredecessors, this`vertexSuccessors, this`hasCycle, this`cachedOrder
      ensures vertexPredecessors == old(vertexPredecessors)[v := predecessors]
      ensures CachesAgree() && hasCycle == None && cachedOrder == None
    {
      vertexPredecessors := vertexPredecessors[v := predecessors];
      vertexSuccessors := map[];
      ResetCaches();
    }

    /** Recomputes the successors only when there are none cached. */
    method GetSuccessors(v: Vertex) returns (successors: set<Vertex>)
      requires Valid() && Closed(vertexPredecessors)
      modifies this`vertexSuccessors
      ensures Valid()
      ensures successors == Preds(Reverse(vertexPredecessors), v)
    {
      if vertexSuccessors == map[] {
        vertexSuccessors := ComputeSuccessors();
      }
      successors := if v in vertexSuccessors then vertexSuccessors[v] else {};
    }

    method ComputeSuccessors() returns (successors: Graph)
      requires Closed(vertexPredecessors)
      ensures successors == Reverse(vertexPredecessors)
    {
      var g := vertexPredecessors;
      successors := map k | k in g :: {};
      var todo := g.Keys;
      while todo != {}
        invariant todo <= g.Keys && successors.Keys == g.Keys
        invariant forall v, u | v in g :: u in successors[v] <==> u in g && u !in todo && v in g[u]
      {
        var node :| node in todo;
        var elements := g[node];
        while elements != {}
          invariant elements <= g[node] && successors.Keys == g.Keys
          invariant forall v, u | v in g ::
              u in successors[v] <==> u in g && v in g[u] && (u !in todo || (u == node && v !in elements))
        {
          var element :| element in elements;
          successors := successors[element := successors[element] + {node}];
          elements := elements - {element};
        }
        todo := todo - {node};
      }
      ReverseClosed(g);
      forall v | v in g ensures successors[v] == Reverse(g)[v] {
      }
    }

    /** Dijkstra's algorithm from target back along predecessors; every edge has length 1. */
    method ShortestPath(source: Vertex, target: Vertex) returns (r: Option<seq<Vertex>>)
      requires Valid() && Closed(vertexPredecessors)
      requires source in vertexData || source == target
      ensures r.None? <==> !Reach(vertexPredecessors, source, target)
      ensures r.Some? ==> MinimalRoute(vertexPredecessors, source, target, r.value)
    {
      hide Search.Searching, CachesAgree;
      var infinite := |vertexData| + 1;
      var dist, prev, unvisited, pathSource := InitialTables(source, target, infinite);
      ghost var search := Search(vertexPredecessors, source, target, dist, prev, map x | x in dist :: [target]);
      InitialSearch(search, unvisited);
      assert |vertexData| == |vertexData.Keys| == |vertexPredecessors.Keys| == |vertexPredecessors|;
      r := Explore(search, unvisited, pathSource, infinite, source, target, dist, prev);
    }

    /** The tables with which ShortestPath starts. */
    method InitialTables(source: Vertex, target: Vertex, infinite: nat)
      returns (dist: map<Node, nat>, prev: map<Node, Node>, unvisited: set<Node>, pathSource: Node)
      requires vertexData.Keys == vertexPredecessors.Keys
      requires source in vertexData || source == target
      ensures unvisited == prev.Keys == SearchNodes(vertexPredecessors, source, target)
      ensures dist.Keys == unvisited + {Some(target)}
      ensures forall x | x in dist :: dist[x] == if x == Some(target) then 0 else infinite
      ensures forall x | x in prev :: prev[x] == None
      ensures pathSource == Goal(source, target) && pathSource in unvisited
    {
      unvisited := set v | v in vertexData :: Some(v);
      dist := map x | x in unvisited :: infinite;
      prev := map x | x in unvisited :: None;
      dist := dist[Some(target) := 0];
      pathSource := Some(source);
      if source == target {
        dist := dist[None := infinite];
        prev := prev[None := None];
        unvisited := unvisited + {None};
        pathSource := None;
      }
    }

    /** The main loop of ShortestPath. */
    method Explore(ghost start: Search, open: set<Node>, pathSource: Node, infinite: nat, source: Vertex,
                   target: Vertex,
                   dist0: map<Node, nat>, prev0: map<Node, Node>)
      returns (r: Option<seq<Vertex>>)
      requires start.g == vertexPredecessors && start.Records(source, target, dist0, prev0)
      requires start.Searching(open)
      requires pathSource == Goal(source, target) && pathSource in open && infinite == start.Infinite()
      ensures r.None? <==> !Reach(vertexPredecessors, source, target)
      ensures r.Some? ==> MinimalRoute(vertexPredecessors, source, target, r.value)
    {
      hide Search.Searching, Search.Expanding;
      ghost var search := start;
      var dist, prev, unvisited := dist0, prev0, open;
      ghost var last := unvisited;
      while unvisited != {}
        invariant search.g == vertexPredecessors && search.Records(source, target, dist, prev)
        invariant search.Searching(unvisited) && pathSource in unvisited
        decreases |unvisited|
      {
        last := unvisited;
        search.Lookups(unvisited);
        var u := Nearest(unvisited, dist);
        unvisited := unvisited - {u};
        if u == pathSource {
          break;
        }
        search.Pick(last, u.value);
        dist, prev, search := RelaxPredecessors(search, unvisited, u.value, source, target, dist, prev);
      }
      search.Finished(last);
      if dist[pathSource] == infinite {
        return None;
      }
      var result := FollowLinks(search, last, source, target, pathSource, prev);
      return Some(result);
    }

    /** The innermost loop of ShortestPath: look at every predecessor of u. */
    method RelaxPredecessors(ghost before: Search, ghost open: set<Node>, u: Vertex, source: Vertex, target: Vertex,
                             dist0: map<Node, nat>, prev0: map<Node, Node>)
      returns (dist: map<Node, nat>, prev: map<Node, Node>, ghost search: Search)
      requires before.g == vertexPredecessors && before.Records(source, target, dist0, prev0)
      requires before.Expanding(open, u, GetPredecessors(u))
      ensures search.g == vertexPredecessors && search.Records(source, target, dist, prev)
      ensures search.Searching(open)
    {
      hide Search.Searching, Search.Expanding;
      search := before;
      dist, prev := dist0, prev0;
      var todo := GetPredecessors(u);
      while todo != {}
        invariant search.g == vertexPredecessors && search.Records(source, target, dist, prev)
        invariant search.Expanding(open, u, todo)
      {
        var uPred :| uPred in todo;
        search.ExpandLookups(open, u, todo, uPred);
        var v := if source == target && uPred == target then None else Some(uPred);
        var alt := dist[Some(u)] + 1;
        if alt < dist[v] {
          search.Shorten(open, u, uPred, todo);
          search := search.Update(u, uPred);
          dist := dist[v := alt];
          prev := prev[v := Some(u)];
        } else {
          search.Skip(open, u, uPred, todo);
        }
        todo := todo - {uPred};
      }
      search.Expanded(open, u);
    }

    /** Reads the route off the links. */
    method FollowLinks(ghost search: Search, ghost open: set<Node>, source: Vertex, target: Vertex, pathSource: Node,
                       prev: map<Node, Node>)
      returns (result: seq<Vertex>)
      requires search.source == source && search.target == target && search.prev == prev
      requires search.Searching(open) && pathSource == Goal(source, target)
      requires pathSource in prev && pathSource in search.dist
      requires search.dist[pathSource] < search.Infinite()
      ensures Route(search.g, source, target, result) && |result| == search.dist[pathSource] + 1
    {
      hide Search.Searching;
      search.GoalPath(open);
      result := [source];
      var x := pathSource;
      while prev[x] != None
        invariant x in prev && x in search.dist && x in search.paths && search.dist[x] < search.Infinite()
        invariant |search.paths[x]| >= 1
        invariant result + search.paths[x][1..] == search.paths[pathSource]
        decreases search.dist[x]
      {
        search.Follow(open, x);
        x := prev[x];
        result := result + [x.value];
      }
      search.Arrived(open, x);
      assert search.paths[x][1..] == [] && result + [] == result;
    }

    /** Exhausts a plain iterator. */
    method Traverse() returns (r: Result<seq<Item>, DagError>)
      requires Valid() && Closed(vertexPredecessors)
      modifies this`vertexSuccessors
      ensures Valid()
      ensures r.Ok? <==> Acyclic(vertexPredecessors)
      ensures r.Ok? ==> OrderAgrees(vertexPredecessors, vertexData, r.value)
      ensures r.Err? ==> NamesCycle(vertexPredecessors, r.error)
    {
      hide CachesAgree, Iterating, Pending, Collected, OrderAgrees, Acyclic, NamesCycle;
      var items: seq<Item> := [];
      var iterator_ := new DAGIterator(this, false);
      CollectedEmpty(vertexPredecessors, vertexData, iterator_.nonVisited);
      var more := true;
      while more
        invariant fresh(iterator_) && iterator_.dag == this && !iterator_.enableBusyState
        invariant iterator_.Valid()
        invariant Collected(vertexPredecessors, vertexData, iterator_.nonVisited, items)
        invariant !more ==> iterator_.nonVisited == {}
        decreases |iterator_.nonVisited|, more
      {
        hide DAGIterator.Valid, Closed;
        var error;
        items, more, error := TraverseNext(iterator_, items);
        if error.Some? {
          return Err(error.value);
        }
      }
      CollectedAll(vertexPredecessors, vertexData, items);
      return Ok(items);
    }

    /** One round of the loop over the iterator. */
    method TraverseNext(iterator_: DAGIterator, items0: seq<Item>)
      returns (items: seq<Item>, more: bool, error: Option<DagError>)
      requires iterator_.dag == this && !iterator_.enableBusyState && iterator_.Valid()
      requires Collected(vertexPredecessors, vertexData, iterator_.nonVisited, items0)
      modifies iterator_`states, iterator_`nonVisited, iterator_`predNumber, this`vertexSuccessors
      ensures iterator_.Valid()
      ensures error == None ==> Collected(vertexPredecessors, vertexData, iterator_.nonVisited, items)
      ensures error == None && more ==> |iterator_.nonVisited| < |old(iterator_.nonVisited)|
      ensures error == None && !more ==> iterator_.nonVisited == {} == old(iterator_.nonVisited)
      ensures error.Some? ==> NamesCycle(vertexPredecessors, error.value) && !Acyclic(vertexPredecessors)
    {
      hide CachesAgree, Iterating, Pending, Collected, Acyclic, NamesCycle;
      ghost var before, states := iterator_.nonVisited, iterator_.states;
      ReadyIff(vertexPredecessors, false, before, states, iterator_.predNumber);
      items, more, error := items0, true, None;
      var next := iterator_.NextElement();
      match next
      case StopIteration =>
        more := false;
      case Raised(cycle) =>
        NamedCycleExists(vertexPredecessors, cycle);
        error := Some(cycle);
      case Element(v, data, _) =>
        PlainPending(vertexPredecessors, before, states, v);
        CollectedStep(vertexPredecessors, vertexData, before, items, v);
        items := items + [(v, data)];
      case NoneReady =>
    }

    /** Raises when the graph is no valid DAG; the verdict and the order found are cached. */
    method Check() returns (r: Result<(), DagError>)
      requires Valid()
      modifies this`hasCycle, this`cachedOrder, this`vertexSuccessors
      ensures Valid()
      ensures r.Ok? <==> ValidDag(vertexPredecessors)
      ensures hasCycle == Some(!ValidDag(vertexPredecessors))
      ensures r.Err? && old(hasCycle) == Some(true) ==> r.error == KnownCycle
      ensures r.Err? && old(hasCycle) != Some(true) ==>
                if Closed(vertexPredecessors) then NamesCycle(vertexPredecessors, r.error)
                else r.error == UnknownPredecessors
      ensures r.Err? && r.error.CycleDetected? ==> NamesCycle(vertexPredecessors, r.error)
    {
      hide Reverse, Acyclic, NamesCycle, OrderAgrees;
      if hasCycle == Some(false) {
        return Ok(());
      }
      if hasCycle == Some(true) {
        return Err(KnownCycle);
      }
      var todo := vertexPredecessors.Keys;
      while todo != {}
        invariant todo <= vertexPredecessors.Keys
        invariant forall v | v in vertexPredecessors && v !in todo :: vertexPredecessors[v] <= vertexData.Keys
      {
        var node :| node in todo;
        if !(vertexPredecessors[node] <= vertexData.Keys) {
          hasCycle := Some(true);
          return Err(UnknownPredecessors);
        }
        todo := todo - {node};
      }
      var order := Traverse();
      match order
      case Err(error) =>
        hasCycle := Some(true);
        r := Err(error);
      case Ok(items) =>
        hasCycle := Some(false);
        cachedOrder := Some(items);
        r := Ok(());
    }

    /** The vertices in topological order, from the cache when there is one. */
    method Items() returns (r: Result<seq<Item>, DagError>)
      requires Valid() && Closed(vertexPredecessors)
      modifies this`vertexSuccessors
      ensures Valid()
      ensures r.Ok? <==> Acyclic(vertexPredecessors)
      ensures r.Ok? ==> OrderAgrees(vertexPredecessors, vertexData, r.value)
    {
      hide Reverse;
      if cachedOrder.Some? {
        TopologicalIsValid(vertexPredecessors, Ids(cachedOrder.value));
        return Ok(cachedOrder.value);
      }
      r := Traverse();
    }

    /** All transitive predecessors, level by level; the graph may have cycles. */
    method GetClosure(v: Vertex) returns (closure: set<Vertex>)
      ensures closure == Ancestors(vertexPredecessors, v)
    {
      hide Ancestors;
      ghost var g := vertexPredecessors;
      closure := {};
      var toVisit := GetPredecessors(v);
      PredsAreAncestors(g, v);
      while toVisit != {}
        invariant closure !! toVisit && closure + toVisit <= Ancestors(g, v) <= Nodes(g)
        invariant Preds(g, v) <= closure + toVisit
        invariant forall n | n in closure :: Preds(g, n) <= closure + toVisit
        decreases Nodes(g) - closure
      {
        ghost var seen := closure;
        var nextVisit: set<Vertex> := {};
        var todo := toVisit;
        while todo != {}
          invariant todo <= toVisit && closure == seen + (toVisit - todo)
          invariant nextVisit <= Ancestors(g, v)
          invariant forall n | n in toVisit - todo :: Preds(g, n) <= nextVisit
        {
          var n :| n in todo;
          todo := todo - {n};
          closure := closure + {n};
          nextVisit := nextVisit + GetPredecessors(n);
          PredsOfAncestor(g, v, n);
        }
        toVisit := nextVisit - closure;
      }
      ClosedUnderPreds(g, v, closure);
    }

    /**
     Adds a vertex, or adds predecessors (and data) to an existing one. With checks the
     update is rejected, and undone, exactly when the graph would not be a valid DAG.
     */
    method UpdateVertex(v: Vertex, data: Option<Data>, predecessors: set<Vertex>, enableChecks: bool)
      returns (r: Result<(), DagError>)
      requires Valid()
      modifies this`vertexData, this`vertexPredecessors, this`vertexSuccessors, this`hasCycle, this`cachedOrder
      ensures Valid()
      ensures r.Ok? <==> !enableChecks || UpdateAccepted(old(vertexPredecessors), v, predecessors)
      ensures r.Ok? ==>
                && vertexPredecessors == AddEdges(old(vertexPredecessors), v, predecessors)
                && vertexData == SetData(old(vertexData), v, data)
                && vertexData == (if v in old(vertexData) && data == None then old(vertexData)
                                  else old(vertexData)[v := data])
                && hasCycle == None && cachedOrder == None
      ensures r.Err? ==> vertexPredecessors == old(vertexPredecessors) && vertexData == old(vertexData)
      ensures r.Err? && r.error.CycleDetected? ==>
                var g := old(vertexPredecessors);
                NamesCycle(if ValidDag(g) then AddEdges(g, v, predecessors) else g, r.error)
      ensures r.Err? && ValidDag(old(vertexPredecessors)) ==>
                if predecessors <= old(vertexPredecessors).Keys then r.error.CycleDetected?
                else r.error == UnknownPredecessors
    {
      hide Reverse, Acyclic, NamesCycle, OrderAgrees, Ancestors;
      ghost var g := vertexPredecessors;
      if enableChecks {
        var checked := Check();
        if checked.Err? {
          return Err(checked.error);
        }
        if !(predecessors <= vertexData.Keys) {
          return Err(UnknownPredecessors);
        }
        UpdateAcceptedIff(g, v, predecessors);
      }
      if v !in vertexData {
        assert Preds(g, v) + predecessors == predecessors;
        SetPredecessors(v, predecessors);
        vertexData := vertexData[v := data];
      } else {
        var extended := ExtendPredecessors(v, predecessors, enableChecks);
        if extended.Err? {
          return extended;
        }
        if data.Some? {
          vertexData := vertexData[v := data];
        }
      }
      if enableChecks {
        cachedOrder := None;
      } else {
        ResetCaches();
      }
      return Ok(());
    }

    /** More predecessors for a vertex that is there; taken back when they make a cycle. */
    method ExtendPredecessors(v: Vertex, predecessors: set<Vertex>, enableChecks: bool)
      returns (r: Result<(), DagError>)
      requires vertexData.Keys == vertexPredecessors.Keys && v in vertexData
      requires enableChecks ==> ValidDag(vertexPredecessors) && predecessors <= vertexPredecessors.Keys
      modifies this`vertexPredecessors, this`vertexSuccessors, this`hasCycle, this`cachedOrder
      ensures CachesAgree() && hasCycle == None && cachedOrder == None
      ensures r.Ok? <==> !enableChecks || UpdateAccepted(old(vertexPredecessors), v, predecessors)
      ensures r.Ok? ==> vertexPredecessors == AddEdges(old(vertexPredecessors), v, predecessors)
      ensures r.Err? ==> vertexPredecessors == old(vertexPredecessors)
      ensures r.Err? ==>
                r.error.CycleDetected? && NamesCycle(AddEdges(old(vertexPredecessors), v, predecessors), r.error)
    {
      hide Reverse, Acyclic, NamesCycle, OrderAgrees, Ancestors, UpdateAccepted, MinimalRoute;
      ghost var g := vertexPredecessors;
      if enableChecks {
        UpdateAcceptedIff(g, v, predecessors);
      }
      var previous := GetPredecessors(v);
      SetPredecessors(v, previous + predecessors);
      if enableChecks {
        var closure := GetClosure(v);
        if v in closure {
          var cycle := ShortestPath(v, v);
          ShortestIsNamed(vertexPredecessors, v, cycle);
          SetPredecessors(v, previous);
          assert vertexPredecessors == g;
          return Err(CycleDetected(cycle.value));
        }
      }
      r := Ok(());
    }

    /** Like a checked UpdateVertex, for a vertex that must be new. */
    method AddVertex(v: Vertex, data: Option<Data>, predecessors: set<Vertex>) returns (r: Result<(), DagError>)
      requires Valid()
      modifies this`vertexData, this`vertexPredecessors, this`vertexSuccessors, this`hasCycle, this`cachedOrder
      ensures Valid()
      ensures r.Ok? <==>
              v !in old(vertexData) && ValidDag(old(vertexPredecessors)) && predecessors <= old(vertexData).Keys
      ensures r.Ok? ==>
                && vertexPredecessors == old(vertexPredecessors)[v := predecessors]
                && vertexData == old(vertexData)[v := data]
      ensures v in old(vertexData) ==> r == Err(VertexExists(v))
      ensures r.Err? ==> vertexPredecessors == old(vertexPredecessors) && vertexData == old(vertexData)
    {
      hide Reverse, Acyclic, OrderAgrees;
      if v in vertexData {
        return Err(VertexExists(v));
      }
      if ValidDag(vertexPredecessors) && predecessors <= vertexData.Keys {
        NewVertexNoCycle(vertexPredecessors, v, predecessors);
      }
      assert Preds(vertexPredecessors, v) + predecessors == predecessors;
      r := UpdateVertex(v, data, predecessors, true);
    }

    /**
     The DAG with every edge turned round. Unless all predecessors are vertices, the checks
     can leave this DAG marked as free of cycles although it is not valid.
     */
    method ReverseGraph(enableChecks: bool) returns (r: Result<DAG, DagError>)
      requires Valid()
      modifies this`hasCycle
      ensures r.Ok? <==> !enableChecks || (old(hasCycle) != Some(true) && Acyclic(vertexPredecessors))
      ensures r.Ok? ==> fresh(r.value)
      ensures r.Ok? ==> r.value.vertexPredecessors == Reverse(vertexPredecessors)
      ensures r.Ok? ==> r.value.vertexData == DataOfPart(vertexPredecessors, vertexData)
      ensures r.Ok? ==> r.value.tags == tags
      ensures r.Ok? && Closed(vertexPredecessors) ==> r.value.Valid()
      ensures Valid() <==> (Closed(vertexPredecessors) || !enableChecks || old(hasCycle) == Some(true)
                            || !Acyclic(vertexPredecessors))
    {
      hide Reverse, Acyclic, OrderAgrees, Nodes, NamesCycle, DataOfPart;
      var result := BuildReverse();
      ReverseClosed(vertexPredecessors);
      ReverseAcyclic(vertexPredecessors);
      CopyCaches(result);
      r := Ok(result);
      if enableChecks {
        r := CheckReverse(result);
      }
    }

    /** The reverse graph takes over the tags, the verdict and the reversed order. */
    method CopyCaches(result: DAG)
      requires Valid() && result != this && result.Valid()
      requires result.vertexPredecessors == Reverse(vertexPredecessors)
      requires result.vertexData == DataOfPart(vertexPredecessors, vertexData)
      modifies result`tags, result`hasCycle, result`cachedOrder
      ensures result.tags == tags && result.hasCycle == hasCycle
      ensures hasCycle != Some(true) || Closed(vertexPredecessors) ==> result.Valid()
    {
      hide Reverse, Acyclic, OrderAgrees, Nodes, DataOfPart;
      ReverseClosed(vertexPredecessors);
      ReverseAcyclic(vertexPredecessors);
      result.tags := tags;
      result.hasCycle := hasCycle;
      result.cachedOrder := if cachedOrder.None? then None else Some(Flip(cachedOrder.value));
      if cachedOrder.Some? {
        FlippedAgrees(vertexPredecessors, vertexData, cachedOrder.value);
      }
    }

    /** Checks the reverse graph, and takes over the verdict. */
    method CheckReverse(result: DAG) returns (r: Result<DAG, DagError>)
      requires result != this && Closed(result.vertexPredecessors) && result.hasCycle == hasCycle
      requires hasCycle != Some(true) ==> result.Valid()
      modifies this`hasCycle, result`hasCycle, result`cachedOrder, result`vertexSuccessors
      ensures old(result.Valid()) ==> result.Valid()
      ensures r.Ok? ==> r.value == result
      ensures r.Ok? <==> old(hasCycle) != Some(true) && Acyclic(result.vertexPredecessors)
      ensures hasCycle == if old(hasCycle) == Some(true) then Some(true) else Some(!Acyclic(result.vertexPredecessors))
    {
      hide CachesAgree, Acyclic, NamesCycle;
      if hasCycle != Some(true) {
        var checked := result.Check();
        hasCycle := Some(checked.Err?);
        if checked.Err? {
          return Err(checked.error);
        }
        return Ok(result);
      }
      return Err(KnownCycle);
    }

    /** The vertices and edges of the reverse graph, added one at a time without checks. */
    method BuildReverse() returns (result: DAG)
      requires Valid()
      ensures fresh(result) && result.Valid()
      ensures result.hasCycle == None && result.cachedOrder == None
      ensures result.vertexPredecessors == Reverse(vertexPredecessors)
      ensures result.vertexData == DataOfPart(vertexPredecessors, vertexData)
    {
      hide Reverse, Acyclic, OrderAgrees, DataOfPart, AddEdges, SetData;
      result := new DAG();
      ghost var part: Graph := map[];
      EmptyPart(vertexData);
      var todo := vertexPredecessors.Keys;
      while todo != {}
        invariant todo <= vertexPredecessors.Keys
        invariant fresh(result) && result.Valid() && result.hasCycle == None && result.cachedOrder == None
        invariant part == map v | v in vertexPredecessors && v !in todo :: vertexPredecessors[v]
        invariant result.vertexPredecessors == Reverse(part) && result.vertexData == DataOfPart(part, vertexData)
      {
        var node :| node in todo;
        todo := todo - {node};
        var updated := result.UpdateVertex(node, vertexData[node], {}, false);
        PartVertex(part, vertexData, node);
        ghost var before := part;
        part := part[node := {}];
        var predecessors := vertexPredecessors[node];
        assert vertexPredecessors[node] - predecessors == {};
        while predecessors != {}
          invariant predecessors <= vertexPredecessors[node]
          invariant fresh(result) && result.Valid() && result.hasCycle == None && result.cachedOrder == None
          invariant part == before[node := vertexPredecessors[node] - predecessors]
          invariant result.vertexPredecessors == Reverse(part) && result.vertexData == DataOfPart(part, vertexData)
        {
          var p :| p in predecessors;
          assert vertexPredecessors[node] - (predecessors - {p}) == vertexPredecessors[node] - predecessors + {p};
          predecessors := predecessors - {p};
          updated := result.UpdateVertex(p, None, {node}, false);
          PartEdge(part, vertexData, node, p);
          part := part[node := part[node] + {p}];
        }
        assert vertexPredecessors[node] - {} == vertexPredecessors[node];
      }
      assert part == vertexPredecessors;
    }

    /** A new DAG with the vertices and edges of both; it exists exactly when their union is a valid DAG. */
    method Merge(other: DAG) returns (r: Result<DAG, DagError>)
      requires Valid() && other.Valid()
      ensures r.Ok? <==> ValidDag(UnionGraph(vertexPredecessors, other.vertexPredecessors))
      ensures r.Ok? ==>
                && fresh(r.value) && r.value.Valid() && r.value.tags == map[]
                && r.value.vertexPredecessors == UnionGraph(vertexPredecessors, other.vertexPredecessors)
                && r.value.vertexData == MergedData(vertexData, other.vertexData)
      ensures r.Ok? ==>
                && r.value.vertexPredecessors.Keys == r.value.vertexData.Keys == vertexData.Keys + other.vertexData.Keys
                && forall v | v in r.value.vertexData ::
                     var mine := if v in vertexData then vertexData[v] else None;
                     var theirs := if v in other.vertexData then other.vertexData[v] else None;
                     && r.value.vertexData[v] == (if theirs == None then mine else theirs)
                     && r.value.vertexPredecessors[v] == GetPredecessors(v) + other.GetPredecessors(v)
    {
      hide CachesAgree, ValidDag, UnionGraph, MergedData, NamesCycle, Bare, BareData, Subgraph, Preds, Closed;
      MergeMeans(vertexPredecessors, vertexData, other.vertexPredecessors, other.vertexData);
      var result := BareVertices(other);
      var merged := MergeBoth(result, other);
      if merged.Err? {
        return Err(merged.error);
      }
      var checked := result.Check();
      if checked.Err? {
        return Err(checked.error);
      }
      return Ok(result);
    }

    /** The second half of Merge: the data and edges of both DAGs. */
    method MergeBoth(result: DAG, other: DAG) returns (r: Result<(), DagError>)
      requires Valid() && other.Valid() && result.Valid() && result != this && result != other
      requires result.vertexPredecessors == Bare(vertexData.Keys + other.vertexData.Keys)
      requires result.vertexData == BareData(vertexData.Keys + other.vertexData.Keys)
      modifies result`vertexData, result`vertexPredecessors, result`vertexSuccessors, result`hasCycle,
               result`cachedOrder
      ensures result.Valid()
      ensures r.Err? ==> !ValidDag(UnionGraph(vertexPredecessors, other.vertexPredecessors))
      ensures r.Ok? ==>
                && result.vertexPredecessors == UnionGraph(vertexPredecessors, other.vertexPredecessors)
                && result.vertexData == MergedData(vertexData, other.vertexData)
    {
      hide CachesAgree, ValidDag, UnionGraph, MergedData, NamesCycle, Bare, BareData, Subgraph, Preds, Closed;
      ghost var g, h := vertexPredecessors, other.vertexPredecessors;
      ghost var all := UnionGraph(g, h);
      UnionContains(g, h);
      UnionReached(g, h);
      DataReached(vertexData, other.vertexData);
      r := result.MergeEdges(this, all);
      if r.Ok? {
        r := result.MergeEdges(other, all);
      }
    }

    /** The first half of Merge: the vertices of both DAGs, without data or edges. */
    method BareVertices(other: DAG) returns (result: DAG)
      requires Valid() && other.Valid()
      ensures fresh(result) && result.Valid() && result.tags == map[]
      ensures result.vertexPredecessors == Bare(vertexData.Keys + other.vertexData.Keys)
      ensures result.vertexData == BareData(vertexData.Keys + other.vertexData.Keys)
    {
      hide Valid, ValidDag, NamesCycle, UpdateAccepted, AddEdges, SetData, Bare, BareData;
      result := new DAG();
      BareEmpty();
      ghost var done: set<Vertex> := {};
      var todo := vertexData.Keys;
      while todo != {}
        invariant todo <= vertexData.Keys && fresh(result) && result.Valid() && result.tags == map[]
        invariant done == vertexData.Keys - todo
        invariant result.vertexPredecessors == Bare(done) && result.vertexData == BareData(done)
      {
        var nid :| nid in todo;
        BareStep(done, nid);
        var added := result.AddVertex(nid, None, {});
        todo := todo - {nid};
        done := done + {nid};
      }
      todo := other.vertexData.Keys;
      while todo != {}
        invariant todo <= other.vertexData.Keys && fresh(result) && result.Valid() && result.tags == map[]
        invariant done == vertexData.Keys + (other.vertexData.Keys - todo)
        invariant result.vertexPredecessors == Bare(done) && result.vertexData == BareData(done)
      {
        var nid :| nid in todo;
        BareStep(done, nid);
        var updated := result.UpdateVertex(nid, None, {}, true);
        todo := todo - {nid};
        done := done + {nid};
      }
      assert done == vertexData.Keys + other.vertexData.Keys;
    }

    /** Adds the data and edges of source, whose vertices are all here; inside a valid DAG this cannot fail. */
    method MergeEdges(source: DAG, ghost all: Graph) returns (r: Result<(), DagError>)
      requires Valid() && source.Valid() && source != this
      requires source.vertexPredecessors.Keys <= vertexPredecessors.Keys == all.Keys
      requires Subgraph(vertexPredecessors, all) && Subgraph(source.vertexPredecessors, all)
      modifies this`vertexData, this`vertexPredecessors, this`vertexSuccessors, this`hasCycle, this`cachedOrder
      ensures Valid()
      ensures r.Err? ==> !ValidDag(all)
      ensures r.Ok? ==> Subgraph(vertexPredecessors, all) && vertexPredecessors.Keys == all.Keys
      ensures r.Ok? ==> vertexPredecessors == UnionGraph(old(vertexPredecessors), source.vertexPredecessors)
      ensures r.Ok? ==> vertexData == MergedData(old(vertexData), source.vertexData)
    {
      hide CachesAgree, ValidDag, NamesCycle, UpdateAccepted, AddEdges, SetData, UnionGraph, MergedData, Subgraph;
      ghost var g, before, data := source.vertexPredecessors, vertexPredecessors, vertexData;
      var todo := source.vertexData.Keys;
      MergeStart(before, data, g, source.vertexData, all);
      while todo != {}
        invariant todo <= g.Keys && source.Valid() && Valid()
        invariant source.vertexPredecessors == g && source.vertexData == old(source.vertexData)
        invariant vertexPredecessors == UnionGraph(before, Without(g, todo)) && vertexPredecessors.Keys == all.Keys
        invariant vertexData == MergedData(data, Without(source.vertexData, todo))
        invariant Subgraph(vertexPredecessors, all)
      {
        var nid :| nid in todo;
        MergeStep(before, data, g, source.vertexData, todo, nid, all);
        var updated := UpdateVertex(nid, source.vertexData[nid], source.GetPredecessors(nid), true);
        if updated.Err? {
          return updated;
        }
        todo := todo - {nid};
      }
      assert Without(g, todo) == g && Without(source.vertexData, todo) == source.vertexData;
      return Ok(());
    }

    /**
     The DAG of the vertices that fun keeps, with the contracted edges. Raises when the graph has a
     cycle or, with preserveContext, when fun drops a vertex that has a tag entry.
     */
    method Prune(fun: Vertex -> bool, preserveContext: bool) returns (r: Result<DAG, DagError>)
      requires Valid() && Closed(vertexPredecessors)
      modifies this`vertexSuccessors
      ensures Valid()
      ensures r.Ok? <==> Acyclic(vertexPredecessors)
                         && (preserveContext ==> forall v | v in vertexData && v in tags :: !fun(v))
      ensures r.Err? && Acyclic(vertexPredecessors) ==>
                r.error.TagSuppressed? && r.error.vertex in vertexData && r.error.vertex in tags && fun(r.error.vertex)
      ensures r.Ok? ==>
                && fresh(r.value) && r.value.Valid()
                && r.value.vertexPredecessors == Pruned(vertexPredecessors, fun)
                && r.value.vertexData == Restrict(vertexData, vertexPredecessors.Keys, fun)
                && r.value.tags == Restrict(tags, vertexPredecessors.Keys, fun)
    {
      hide CachesAgree, Acyclic, Pruned, PrunedPart, Sources, HandedOn, Restrict, AddEdges, SetData;
      hide NamesCycle, OrderAgrees, Elements, UpdateAccepted, ValidDag;
      var order := Items();
      if order.Err? {
        return Err(order.error);
      }
      var items := order.value;
      ghost var g := vertexPredecessors;
      var result := new DAG();
      var handedOn: map<Vertex, set<Vertex>> := map[];
      ghost var done: set<Vertex> := {};
      PruneStart(g, fun, items, vertexData, tags);
      for i := 0 to |items|
        invariant fresh(result) && result.Valid() && Valid()
        invariant done == Elements(Ids(items)[..i]) <= g.Keys
        invariant handedOn.Keys == done && forall k | k in done :: handedOn[k] == HandedOn(g, fun, k)
        invariant result.vertexPredecessors == PrunedPart(g, fun, done)
        invariant result.vertexData == Restrict(vertexData, done, fun)
        invariant result.tags == Restrict(tags, done, fun)
        invariant preserveContext ==> forall v | v in done && v in tags :: !fun(v)
      {
        var node, data := items[i].0, items[i].1;
        PruneNext(g, vertexData, items, i);
        var predecessors := CollectHandedOn(handedOn, node, fun);
        if fun(node) {
          if node in tags && preserveContext {
            return Err(TagSuppressed(node));
          }
          handedOn := handedOn[node := predecessors];
          PruneDropped(g, fun, done, node, vertexData, tags);
        } else {
          PruneKept(g, fun, done, node, vertexData, tags);
          var updated := result.UpdateVertex(node, data, predecessors, false);
          handedOn := handedOn[node := {node}];
          if node in tags {
            result.AddTag(node, tags[node]);
          }
        }
        done := done + {node};
      }
      PruneEnd(g, fun, vertexData, items);
      return Ok(result);
    }

    /** The union of what the predecessors of node hand on. */
    method CollectHandedOn(handedOn: map<Vertex, set<Vertex>>, node: Vertex, ghost fun: Vertex -> bool)
      returns (predecessors: set<Vertex>)
      requires GetPredecessors(node) <= handedOn.Keys
      requires forall k | k in handedOn :: handedOn[k] == HandedOn(vertexPredecessors, fun, k)
      ensures predecessors == Sources(vertexPredecessors, fun, node)
    {
      hide HandedOn, Sources;
      ghost var g := vertexPredecessors;
      predecessors := {};
      var todo := GetPredecessors(node);
      while todo != {}
        invariant todo <= Preds(g, node)
        invariant forall u :: u in predecessors <==> exists k :: k in Preds(g, node) - todo && u in HandedOn(g, fun, k)
      {
        var k :| k in todo;
        todo := todo - {k};
        predecessors := predecessors + handedOn[k];
      }
      forall u ensures u in predecessors <==> u in Sources(g, fun, node) {
        SourcesStep(g, fun, node, u);
      }
    }

    /** Successors or predecessors. */
    method GetNext(v: Vertex, reverseOrder: bool) returns (next: set<Vertex>)
      requires Valid() && Closed(vertexPredecessors)
      modifies this`vertexSuccessors
      ensures Valid()
      ensures next == Preds(Direction(vertexPredecessors, reverseOrder), v)
    {
      hide CachesAgree, Reverse;
      if reverseOrder {
        next := GetSuccessors(v);
      } else {
        next := GetPredecessors(v);
      }
    }

    /** The nearest tagged vertices on the way from v, nearest first. */
    method GetContext(v: Vertex, maxDistance: Option<int>, maxElement: Option<int>, reverseOrder: bool)
      returns (r: Result<seq<ContextEntry>, DagError>)
      requires Valid()
      modifies this`hasCycle, this`cachedOrder, this`vertexSuccessors
      ensures Valid()
      ensures r.Ok? <==> ValidDag(vertexPredecessors)
      ensures r.Ok? && GetTag(v).Some? ==> r.value == [ContextEntry(0, v, GetTag(v).value)]
      ensures r.Ok? && GetTag(v).None? ==>
                ContextAnswer(Direction(vertexPredecessors, reverseOrder), tags, v, maxDistance, maxElement, r.value)
    {
      hide CachesAgree, Acyclic, NamesCycle, Direction, ContextAnswer, Within, ContextSoFar;
      var checked := Check();
      if checked.Err? {
        return Err(checked.error);
      }
      var nodeTag := GetTag(v);
      if nodeTag.Some? {
        return Ok([ContextEntry(0, v, nodeTag.value)]);
      }
      ghost var g, stops := Direction(vertexPredecessors, reverseOrder), TaggedIn(tags);
      var entries: seq<ContextEntry> := [];
      var distance: nat := 0;
      var visited: set<Vertex> := {};
      var closure := GetNext(v, reverseOrder);
      var closureLen := |closure|;
      ContextStart(g, tags, v);
      LevelInNodes(g, stops, v, 0, closure);
      while true
        invariant Valid() && g == Direction(vertexPredecessors, reverseOrder)
        invariant visited == Within(g, stops, v, distance)
        invariant closure == Within(g, stops, v, distance + 1) && closureLen == |closure| <= |Nodes(g)|
        invariant ContextSoFar(g, tags, v, distance, visited, entries)
        invariant maxDistance.Some? && distance > 0 ==> distance <= maxDistance.value
        invariant maxElement.Some? && maxElement.value > 0 ==> |entries| < maxElement.value
        decreases |Nodes(g)| - |closure|
      {
        distance := distance + 1;
        if maxDistance.Some? && distance > maxDistance.value {
          ContextCut(g, tags, v, distance - 1, maxDistance, maxElement, entries);
          return Ok(entries);
        }
        ghost var level := closure;
        var full;
        visited, closure, entries, full := ScanLevel(v, distance, visited, closure, entries, maxElement, reverseOrder);
        if full {
          ContextFull(g, tags, v, distance, maxDistance, maxElement, entries);
          return Ok(entries);
        }
        LevelInNodes(g, stops, v, distance, closure);
        SubsetCardinality(level, closure);
        if |closure| == closureLen {
          SameSize(level, closure);
          ContextExhausted(g, tags, v, distance, maxDistance, maxElement, entries);
          break;
        }
        closureLen := |closure|;
      }
      return Ok(entries);
    }

    /**
     One level of GetContext: looks at the vertices that are new at this distance, and stops in the
     middle once there are maxElement entries.
     */
    method ScanLevel(ghost v: Vertex, distance: nat, visited0: set<Vertex>, closure0: set<Vertex>,
                     entries0: seq<ContextEntry>, maxElement: Option<int>, reverseOrder: bool)
      returns (visited: set<Vertex>, closure: set<Vertex>, entries: seq<ContextEntry>, full: bool)
      requires Valid() && Closed(vertexPredecessors) && distance >= 1
      requires var g, stops := Direction(vertexPredecessors, reverseOrder), TaggedIn(tags);
               && visited0 == Within(g, stops, v, distance - 1) && closure0 == Within(g, stops, v, distance)
               && ContextSoFar(g, tags, v, distance - 1, visited0, entries0)
      requires maxElement.Some? && maxElement.value > 0 ==> |entries0| < maxElement.value
      modifies this`vertexSuccessors
      ensures Valid()
      ensures var g, stops := Direction(vertexPredecessors, reverseOrder), TaggedIn(tags);
              && (!full ==> visited == closure0 && ContextSoFar(g, tags, v, distance, closure0, entries))
              && (!full ==> closure == Within(g, stops, v, distance + 1) && closure0 <= closure)
              && (full ==> exists seen :: ContextSoFar(g, tags, v, distance, seen, entries))
      ensures full ==> maxElement == Some(|entries|) && |entries| > 0
      ensures !full && maxElement.Some? && maxElement.value > 0 ==> |entries| < maxElement.value
    {
      hide CachesAgree, Direction, Within, ContextSoFar;
      ghost var g, stops := Direction(vertexPredecessors, reverseOrder), TaggedIn(tags);
      visited, closure, entries := visited0, closure0, entries0;
      var todo := closure0 - visited;
      ContextNextLevel(g, tags, v, distance - 1, visited, entries);
      while todo != {}
        invariant todo <= closure0 - visited0 && visited == visited0 + (closure0 - visited0 - todo)
        invariant Valid() && g == Direction(vertexPredecessors, reverseOrder)
        invariant ContextSoFar(g, tags, v, distance, visited, entries)
        invariant maxElement.Some? && maxElement.value > 0 ==> |entries| < maxElement.value
        invariant LevelClosure(g, stops, closure0, visited - visited0, closure)
      {
        var n :| n in todo;
        todo := todo - {n};
        visited := visited + {n};
        var nTag := GetTag(n);
        if nTag.Some? {
          ContextFound(g, tags, v, distance, visited - {n}, entries, n);
          entries := entries + [ContextEntry(distance, n, nTag.value)];
          if maxElement.Some? && |entries| == maxElement.value {
            return visited, closure, entries, true;
          }
          LevelTagged(g, stops, closure0, visited - {n} - visited0, closure, n);
        } else {
          ContextPassed(g, tags, v, distance, visited - {n}, entries, n);
          LevelUntagged(g, stops, closure0, visited - {n} - visited0, closure, n);
          var next := GetNext(n, reverseOrder);
          closure := closure + next;
        }
        assert visited - {n} - visited0 + {n} == visited - visited0;
      }
      assert visited == closure0 by {
        WithinMonotone(g, stops, v, distance - 1, distance);
      }
      LevelDone(g, stops, v, distance, closure);
      full := false;
    }
  }

  /** The error names a cycle of g with no shorter one through its first vertex. */
  ghost predicate NamesCycle(g: Graph, error: DagError) {
    && error.CycleDetected?
    && |error.cycle| >= 2
    && MinimalRoute(g, error.cycle[0], error.cycle[0], error.cycle)
  }

  /** The items are the vertices visited so far, each after its predecessors. */
  ghost predicate Collected(g: Graph, data: map<Vertex, Option<Data>>, nonVisited: set<Vertex>, items: seq<Item>) {
    && Distinct(Ids(items))
    && Elements(Ids(items)) == g.Keys - nonVisited
    && (forall i | 0 <= i < |items| :: Preds(g, Ids(items)[i]) <= Elements(Ids(items)[..i]))
    && (forall item | item in items :: item.0 in data && item.1 == data[item.0])
  }

  lemma CollectedEmpty(g: Graph, data: map<Vertex, Option<Data>>, nonVisited: set<Vertex>)
    requires nonVisited == g.Keys
    ensures Collected(g, data, nonVisited, [])
  {
  }

  lemma CollectedStep(g: Graph, data: map<Vertex, Option<Data>>, nonVisited: set<Vertex>, items: seq<Item>, v: Vertex)
    requires Collected(g, data, nonVisited, items) && data.Keys == g.Keys
    requires v in nonVisited && v in g && g[v] <= g.Keys - nonVisited
    ensures Collected(g, data, nonVisited - {v}, items + [(v, data[v])])
  {
    var next := items + [(v, data[v])];
    assert Ids(next) == Ids(items) + [v];
    forall i | 0 <= i < |next| ensures Preds(g, Ids(next)[i]) <= Elements(Ids(next)[..i]) {
      assert Ids(next)[..i] == Ids(items)[..i];
    }
    assert v !in Elements(Ids(items));
    assert Elements(Ids(next)) == Elements(Ids(items)) + {v};
  }

  lemma CollectedAll(g: Graph, data: map<Vertex, Option<Data>>, items: seq<Item>)
    requires Collected(g, data, {}, items)
    ensures OrderAgrees(g, data, items) && Acyclic(g)
  {
    TopologicalIsValid(g, Ids(items));
  }

  lemma NamedCycleExists(g: Graph, error: DagError)
    requires NamesCycle(g, error)
    ensures !Acyclic(g)
  {
    assert Reach(g, error.cycle[0], error.cycle[0]);
  }

  /** In a plain iteration the predecessors of a ready vertex have left nonVisited. */
  lemma PlainPending(g: Graph, nonVisited: set<Vertex>, states: map<Vertex, State>, v: Vertex)
    requires Closed(g) && states.Keys == g.Keys && v in g && Pending(g, states, v) == {}
    requires nonVisited == set u | u in states && states[u].NotVisited?
    ensures g[v] <= g.Keys - nonVisited
  {
    forall u | u in g[v] ensures u !in nonVisited {
      assert u !in Pending(g, states, v);
    }
  }

  lemma PredsAreAncestors(g: Graph, v: Vertex)
    ensures Preds(g, v) <= Ancestors(g, v) <= Nodes(g)
  {
    forall u | u in Preds(g, v) ensures u in Ancestors(g, v) {
      ReachEdge(g, u, v);
    }
  }

  lemma PredsOfAncestor(g: Graph, v: Vertex, n: Vertex)
    requires n in Ancestors(g, v)
    ensures Preds(g, n) <= Ancestors(g, v)
  {
    forall u | u in Preds(g, n) ensures u in Ancestors(g, v) {
      ReachEdge(g, u, n);
      ReachTransitive(g, u, n, v);
    }
  }

  /** A set that holds the predecessors of v and of all its own members holds every ancestor of v. */
  lemma ClosedUnderPreds(g: Graph, v: Vertex, closure: set<Vertex>)
    requires Preds(g, v) <= closure && forall n | n in closure :: Preds(g, n) <= closure
    ensures Ancestors(g, v) <= closure
  {
    forall u | u in Ancestors(g, v) ensures u in closure {
      var p :| Route(g, u, v, p);
      RouteStaysInside(g, u, v, closure, p);
    }
  }

  lemma {:induction false} RouteStaysInside(g: Graph, u: Vertex, v: Vertex, closure: set<Vertex>, p: seq<Vertex>)
    requires Preds(g, v) <= closure && forall n | n in closure :: Preds(g, n) <= closure
    requires Route(g, u, v, p)
    ensures u in closure
    decreases |p|
  {
    var w := p[|p| - 2];
    if |p| > 2 {
      RouteStaysInside(g, u, w, closure, p[..|p| - 1]);
    }
  }

  /** Adding these predecessors to v turns a valid DAG into a valid DAG. */
  ghost predicate UpdateAccepted(g: Graph, v: Vertex, predecessors: set<Vertex>) {
    ValidDag(g) && predecessors <= g.Keys && ValidDag(AddEdges(g, v, predecessors))
  }

  /** All that can go wrong is that v becomes its own ancestor, and not even that if v is new. */
  lemma UpdateAcceptedIff(g: Graph, v: Vertex, predecessors: set<Vertex>)
    requires ValidDag(g) && predecessors <= g.Keys
    ensures Closed(AddEdges(g, v, predecessors))
    ensures UpdateAccepted(g, v, predecessors) <==>
            v !in Ancestors(AddEdges(g, v, predecessors), v)
    ensures v !in g ==> UpdateAccepted(g, v, predecessors)
  {
    var h := AddEdges(g, v, predecessors);
    NewCycleThroughTarget(g, v, predecessors);
    if Reach(h, v, v) { ReachInNodes(h, v, v); }
    if v !in g { NewVertexNoCycle(g, v, predecessors); }
  }

  lemma ShortestIsNamed(g: Graph, v: Vertex, cycle: Option<seq<Vertex>>)
    requires v in Ancestors(g, v)
    requires cycle.None? <==> !Reach(g, v, v)
    requires cycle.Some? ==> MinimalRoute(g, v, v, cycle.value)
    ensures cycle.Some? && NamesCycle(g, CycleDetected(cycle.value))
  {
  }

  /** The data of a reversed graph: predecessors that were no vertices have none. */
  ghost function DataOfPart(part: Graph, data: map<Vertex, Option<Data>>): map<Vertex, Option<Data>> {
    map v | v in Nodes(part) :: if v in part && v in data then data[v] else None
  }

  lemma EmptyPart(data: map<Vertex, Option<Data>>)
    ensures Reverse(map[]) == map[] && DataOfPart(map[], data) == map[]
  {
  }

  lemma NodesGrow(part: Graph, next: Graph, v: Vertex, p: Vertex)
    requires next.Keys == part.Keys + {v} && p in Preds(next, v) + {v}
    requires forall x | x in next :: Preds(part, x) <= next[x] <= Preds(part, x) + {p}
    ensures Nodes(next) == Nodes(part) + {v, p}
  {
    forall x ensures x in Nodes(next) <==> x in Nodes(part) + {v, p} {
      if y :| y in part && x in part[y] { assert x in next[y]; }
      if y :| y in next && x in next[y] && x != p { assert x in Preds(part, y); }
    }
  }

  lemma ReverseIff(g: Graph)
    ensures Reverse(g).Keys == Nodes(g)
    ensures forall v, u :: u in Preds(Reverse(g), v) <==> u in g && v in g[u]
  {
  }

  /** Adding a vertex to the part already reversed. */
  lemma PartVertex(part: Graph, data: map<Vertex, Option<Data>>, node: Vertex)
    requires node !in part && node in data
    ensures Reverse(part[node := {}]) == AddEdges(Reverse(part), node, {})
    ensures DataOfPart(part[node := {}], data) == SetData(DataOfPart(part, data), node, data[node])
  {
    hide Reverse, Nodes;
    var next := part[node := {}];
    NodesGrow(part, next, node, node);
    ReverseIff(part);
    ReverseIff(next);
    var h := AddEdges(Reverse(part), node, {});
    forall v, u ensures u in Preds(Reverse(next), v) <==> u in Preds(h, v) {
      assert u in Preds(h, v) <==> u in Preds(Reverse(part), v);
      assert u in Preds(Reverse(part), v) <==> u in part && v in part[u];
      assert u in Preds(Reverse(next), v) <==> u in next && v in next[u];
    }
    GraphsEqual(Reverse(next), h);
    NodesContain(part);
  }

  /** Adding an edge to the part already reversed. */
  lemma PartEdge(part: Graph, data: map<Vertex, Option<Data>>, node: Vertex, p: Vertex)
    requires node in part
    ensures Reverse(part[node := part[node] + {p}]) == AddEdges(Reverse(part), p, {node})
    ensures DataOfPart(part[node := part[node] + {p}], data) == SetData(DataOfPart(part, data), p, None)
  {
    hide Reverse, Nodes;
    var next := part[node := part[node] + {p}];
    NodesGrow(part, next, node, p);
    ReverseIff(part);
    ReverseIff(next);
    NodesContain(part);
    var h := AddEdges(Reverse(part), p, {node});
    forall v, u ensures u in Preds(Reverse(next), v) <==> u in Preds(h, v) {
      assert u in Preds(h, v) <==> u in Preds(Reverse(part), v) || (v == p && u == node);
      assert u in next <==> u in part;
      if u in part {
        assert v in next[u] <==> v in part[u] || (u == node && v == p);
      }
      assert u in Preds(Reverse(part), v) <==> u in part && v in part[u];
      assert u in Preds(Reverse(next), v) <==> u in next && v in next[u];
    }
    GraphsEqual(Reverse(next), h);
  }

  lemma NodesContain(g: Graph)
    ensures g.Keys <= Nodes(g)
  {
  }

  /** The reversed order of a DAG is an order of its reverse. */
  lemma FlippedAgrees(g: Graph, data: map<Vertex, Option<Data>>, items: seq<Item>)
    requires OrderAgrees(g, data, items) && data.Keys == g.Keys
    ensures OrderAgrees(Reverse(g), DataOfPart(g, data), Flip(items))
  {
    ReverseTopological(g, Ids(items));
    TopologicalIsValid(g, Ids(items));
    assert Ids(Flip(items)) == Flip(Ids(items));
    forall item | item in Flip(items) ensures item in items {
    }
  }

  ghost function UnionGraph(g: Graph, h: Graph): Graph {
    map v | v in g.Keys + h.Keys :: Preds(g, v) + Preds(h, v)
  }

  /** The second data wins unless it is None. */
  ghost function MergedData(first: map<Vertex, Option<Data>>, second: map<Vertex, Option<Data>>)
    : map<Vertex, Option<Data>>
  {
    map v | v in first.Keys + second.Keys ::
      if v in second && second[v].Some? then second[v] else if v in first then first[v] else None
  }

  /** What the union of two DAGs holds for each vertex. */
  lemma MergeMeans(g: Graph, first: map<Vertex, Option<Data>>, h: Graph, second: map<Vertex, Option<Data>>)
    ensures UnionGraph(g, h).Keys == g.Keys + h.Keys && MergedData(first, second).Keys == first.Keys + second.Keys
    ensures forall v | v in g.Keys + h.Keys :: UnionGraph(g, h)[v] == Preds(g, v) + Preds(h, v)
    ensures forall v | v in first.Keys + second.Keys ::
              var mine := if v in first then first[v] else None;
              var theirs := if v in second then second[v] else None;
              MergedData(first, second)[v] == if theirs == None then mine else theirs
  {
  }

  ghost function Bare(vertices: set<Vertex>): Graph {
    map v | v in vertices :: {}
  }

  ghost function BareData(vertices: set<Vertex>): map<Vertex, Option<Data>> {
    map v | v in vertices :: None
  }

  ghost function Without<T>(m: map<Vertex, T>, keys: set<Vertex>): map<Vertex, T> {
    map v | v in m && v !in keys :: m[v]
  }

  lemma UnionContains(g: Graph, h: Graph)
    ensures Subgraph(g, UnionGraph(g, h)) && Subgraph(h, UnionGraph(g, h))
    ensures UnionGraph(g, h).Keys == g.Keys + h.Keys == Bare(g.Keys + h.Keys).Keys
    ensures Subgraph(Bare(g.Keys + h.Keys), UnionGraph(g, h))
  {
  }

  lemma UnionReached(g: Graph, h: Graph)
    ensures UnionGraph(UnionGraph(Bare(g.Keys + h.Keys), g), h) == UnionGraph(g, h)
  {
    BareUnion(g, g.Keys + h.Keys);
    UnionDependsOnPreds(UnionGraph(Bare(g.Keys + h.Keys), g), g, h);
  }

  lemma BareUnion(g: Graph, vertices: set<Vertex>)
    requires g.Keys <= vertices
    ensures UnionGraph(Bare(vertices), g).Keys == vertices
    ensures forall v :: Preds(UnionGraph(Bare(vertices), g), v) == Preds(g, v)
  {
    forall v ensures Preds(UnionGraph(Bare(vertices), g), v) == Preds(g, v) {
      assert {} + Preds(g, v) == Preds(g, v);
    }
  }

  lemma UnionDependsOnPreds(first: Graph, g: Graph, h: Graph)
    requires first.Keys == g.Keys + h.Keys && forall v :: Preds(first, v) == Preds(g, v)
    ensures UnionGraph(first, h) == UnionGraph(g, h)
  {
    hide Preds;
    assert first.Keys + h.Keys == g.Keys + h.Keys;
  }

  lemma DataReached(first: map<Vertex, Option<Data>>, second: map<Vertex, Option<Data>>)
    ensures MergedData(MergedData(BareData(first.Keys + second.Keys), first), second) == MergedData(first, second)
  {
  }

  lemma BareEmpty()
    ensures Bare({}) == map[] && BareData({}) == map[]
  {
  }

  /** Adding one more vertex without edges is never rejected. */
  lemma BareStep(done: set<Vertex>, v: Vertex)
    ensures ValidDag(Bare(done)) && UpdateAccepted(Bare(done), v, {})
    ensures Bare(done).Keys == done == BareData(done).Keys
    ensures AddEdges(Bare(done), v, {}) == Bare(done)[v := {}] == Bare(done + {v})
    ensures SetData(BareData(done), v, None) == BareData(done)[v := None] == BareData(done + {v})
  {
    EdgeFreeValid(Bare(done));
    EdgeFreeValid(Bare(done + {v}));
    EdgeFreeValid(AddEdges(Bare(done), v, {}));
    assert Preds(Bare(done), v) + {} == {};
  }

  lemma MergeStart(before: Graph, data: map<Vertex, Option<Data>>, g: Graph, more: map<Vertex, Option<Data>>,
                   all: Graph)
    requires g.Keys == more.Keys <= before.Keys == data.Keys
    ensures UnionGraph(before, Without(g, g.Keys)) == before
    ensures MergedData(data, Without(more, g.Keys)) == data
  {
    assert Without(g, g.Keys) == map[] && Without(more, g.Keys) == map[];
    GraphsEqual(UnionGraph(before, Without(g, g.Keys)), before);
  }

  /** One vertex of the second graph merged into the first. */
  lemma MergeStep(before: Graph, data: map<Vertex, Option<Data>>, g: Graph, more: map<Vertex, Option<Data>>,
                  todo: set<Vertex>, v: Vertex, all: Graph)
    requires g.Keys == more.Keys <= before.Keys == data.Keys == all.Keys
    requires v in todo && todo <= g.Keys
    requires Subgraph(UnionGraph(before, Without(g, todo)), all) && Subgraph(g, all)
    ensures var part, next := UnionGraph(before, Without(g, todo)), UnionGraph(before, Without(g, todo - {v}));
            && AddEdges(part, v, g[v]) == next && next.Keys == all.Keys && Subgraph(next, all)
            && (ValidDag(all) ==> UpdateAccepted(part, v, g[v]))
    ensures SetData(MergedData(data, Without(more, todo)), v, more[v]) == MergedData(data, Without(more, todo - {v}))
  {
    hide ValidDag, Subgraph, UpdateAccepted, AddEdges, UnionGraph, Without, MergedData, SetData;
    var part := UnionGraph(before, Without(g, todo));
    MergeStepGraph(before, g, todo, v);
    MergeStepBounded(part, g, v, all);
    if ValidDag(all) {
      PartAccepted(part, all, v, g[v]);
    }
    MergeStepData(data, more, todo, v);
  }

  lemma MergeStepData(data: map<Vertex, Option<Data>>, more: map<Vertex, Option<Data>>, todo: set<Vertex>, v: Vertex)
    requires more.Keys <= data.Keys && v in todo && todo <= more.Keys
    ensures SetData(MergedData(data, Without(more, todo)), v, more[v]) == MergedData(data, Without(more, todo - {v}))
  {
    var rest, rest_ := Without(more, todo), Without(more, todo - {v});
    assert rest_ == rest[v := more[v]];
  }

  lemma MergeStepBounded(part: Graph, g: Graph, v: Vertex, all: Graph)
    requires Subgraph(part, all) && Subgraph(g, all) && v in g && part.Keys == all.Keys && v in all
    ensures Subgraph(AddEdges(part, v, g[v]), all) && AddEdges(part, v, g[v]).Keys == all.Keys && g[v] <= all[v]
  {
  }

  lemma MergeStepGraph(before: Graph, g: Graph, todo: set<Vertex>, v: Vertex)
    requires g.Keys <= before.Keys && v in todo && todo <= g.Keys
    ensures UnionGraph(before, Without(g, todo)).Keys == before.Keys
    ensures AddEdges(UnionGraph(before, Without(g, todo)), v, g[v]) == UnionGraph(before, Without(g, todo - {v}))
  {
    var rest, rest_ := Without(g, todo), Without(g, todo - {v});
    assert rest_ == rest[v := g[v]];
    assert Preds(rest, v) == {};
    GraphsEqual(AddEdges(UnionGraph(before, rest), v, g[v]), UnionGraph(before, rest_));
  }

  lemma EdgeFreeValid(g: Graph)
    requires forall v | v in g :: g[v] == {}
    ensures ValidDag(g)
  {
    forall v ensures !Reach(g, v, v) {
      if Reach(g, v, v) {
        var u := ReachLast(g, v, v);
      }
    }
  }

  /** Inside a valid DAG no update is rejected. */
  lemma PartAccepted(part: Graph, all: Graph, v: Vertex, predecessors: set<Vertex>)
    requires ValidDag(all) && part.Keys == all.Keys && Subgraph(part, all)
    requires v in all && predecessors <= all[v]
    ensures UpdateAccepted(part, v, predecessors)
  {
    AcyclicMonotone(part, all);
    AcyclicMonotone(AddEdges(part, v, predecessors), all);
  }

  /** Reversing a DAG twice gives back its vertices, data and edges. */
  lemma ReverseTwice(g: Graph, data: map<Vertex, Option<Data>>)
    requires Closed(g) && data.Keys == g.Keys
    ensures Reverse(Reverse(g)) == g
    ensures DataOfPart(Reverse(g), DataOfPart(g, data)) == data
  {
    ReverseReverse(g);
    ReverseClosed(g);
    ReverseClosed(Reverse(g));
  }

  /** A vertex with a predecessor that does not exist: not a valid DAG, but its reverse is one. */
  lemma ReverseOfUnknownPredecessor(v: Vertex, missing: Vertex)
    requires v != missing
    ensures var g: Graph := map[v := {missing}];
            !ValidDag(g) && Acyclic(g) && ValidDag(Reverse(g))
  {
    var g: Graph := map[v := {missing}];
    assert missing in g[v] && missing !in g;
    forall w ensures !Reach(g, w, w) {
      if Reach(g, w, w) {
        var first := ReachFirst(g, w, w);
        var last := ReachLast(g, w, w);
      }
    }
    ReverseAcyclic(g);
    ReverseClosed(g);
  }

  ghost function Restrict<T>(m: map<Vertex, T>, vertices: set<Vertex>, fun: Vertex -> bool): map<Vertex, T> {
    map v | v in m && v in vertices && !fun(v) :: m[v]
  }

  ghost function PrunedPart(g: Graph, fun: Vertex -> bool, done: set<Vertex>): Graph {
    map v | v in done && !fun(v) :: Sources(g, fun, v)
  }

  lemma PruneStart(g: Graph, fun: Vertex -> bool, items: seq<Item>,
                   data: map<Vertex, Option<Data>>, tags: map<Vertex, Option<Tag>>)
    ensures Elements(Ids(items)[..0]) == {}
    ensures PrunedPart(g, fun, {}) == map[]
    ensures Restrict(data, {}, fun) == map[] && Restrict(tags, {}, fun) == map[]
  {
  }

  /** The next vertex of the order is new and its predecessors are done. */
  lemma PruneNext(g: Graph, data: map<Vertex, Option<Data>>, items: seq<Item>, i: nat)
    requires OrderAgrees(g, data, items) && i < |items| && data.Keys == g.Keys
    ensures var v := items[i].0;
            && v in g && v !in Elements(Ids(items)[..i]) && Preds(g, v) <= Elements(Ids(items)[..i])
            && items[i].1 == data[v]
            && Elements(Ids(items)[..i + 1]) == Elements(Ids(items)[..i]) + {v} <= g.Keys
  {
    var ids := Ids(items);
    assert ids[..i + 1] == ids[..i] + [ids[i]];
    assert ids[i] in Elements(ids);
    assert items[i] in items;
  }

  lemma PruneDropped(g: Graph, fun: Vertex -> bool, done: set<Vertex>, v: Vertex,
                     data: map<Vertex, Option<Data>>, tags: map<Vertex, Option<Tag>>)
    requires fun(v)
    ensures HandedOn(g, fun, v) == Sources(g, fun, v)
    ensures PrunedPart(g, fun, done + {v}) == PrunedPart(g, fun, done)
    ensures Restrict(data, done + {v}, fun) == Restrict(data, done, fun)
    ensures Restrict(tags, done + {v}, fun) == Restrict(tags, done, fun)
  {
  }

  lemma PruneKept(g: Graph, fun: Vertex -> bool, done: set<Vertex>, v: Vertex,
                  data: map<Vertex, Option<Data>>, tags: map<Vertex, Option<Tag>>)
    requires !fun(v) && v !in done && v in data
    ensures HandedOn(g, fun, v) == {v}
    ensures AddEdges(PrunedPart(g, fun, done), v, Sources(g, fun, v)) == PrunedPart(g, fun, done + {v})
    ensures SetData(Restrict(data, done, fun), v, data[v]) == Restrict(data, done + {v}, fun)
    ensures Restrict(tags, done + {v}, fun) ==
            if v in tags then Restrict(tags, done, fun)[v := tags[v]] else Restrict(tags, done, fun)
  {
    assert Preds(PrunedPart(g, fun, done), v) + Sources(g, fun, v) == Sources(g, fun, v);
  }

  lemma PruneEnd(g: Graph, fun: Vertex -> bool, data: map<Vertex, Option<Data>>, items: seq<Item>)
    requires OrderAgrees(g, data, items)
    ensures Elements(Ids(items)[..|items|]) == g.Keys
    ensures PrunedPart(g, fun, g.Keys) == Pruned(g, fun)
  {
    assert Ids(items)[..|items|] == Ids(items);
  }

  ghost function TaggedIn(tags: map<Vertex, Option<Tag>>): iset<Vertex> {
    iset v | v in tags && tags[v].Some?
  }

  /** Each entry is a tagged vertex with its tag and its exact distance. */
  ghost predicate EntriesSound(g: Graph, tags: map<Vertex, Option<Tag>>, v: Vertex, entries: seq<ContextEntry>) {
    forall e | e in entries ::
      && e.vertex in tags && tags[e.vertex] == Some(e.tag)
      && OpenDistance(g, TaggedIn(tags), e.vertex, v, e.distance)
  }

  /** No vertex comes twice, and none before a nearer one. */
  ghost predicate EntriesSorted(entries: seq<ContextEntry>) {
    forall i, j | 0 <= i < j < |entries| ::
      entries[i].vertex != entries[j].vertex && entries[i].distance <= entries[j].distance
  }

  ghost predicate Mentions(entries: seq<ContextEntry>, n: Vertex) {
    exists e :: e in entries && e.vertex == n
  }

  /**
   What get_context promises for an untagged vertex v: exactly the tagged vertices within the
   bound that are reached through untagged ones, nearest first; with maxElement, the first ones.
   */
  ghost predicate ContextAnswer(g: Graph, tags: map<Vertex, Option<Tag>>, v: Vertex,
                                maxDistance: Option<int>, maxElement: Option<int>, entries: seq<ContextEntry>) {
    && EntriesSound(g, tags, v, entries)
    && EntriesSorted(entries)
    && (forall e | e in entries && maxDistance.Some? :: e.distance <= maxDistance.value)
    && (maxElement.Some? && maxElement.value > 0 ==> |entries| <= maxElement.value)
    && (forall n, d: nat | n in TaggedIn(tags) && OpenDistance(g, TaggedIn(tags), n, v, d)
                      && (maxDistance.Some? ==> d <= maxDistance.value) ::
          Mentions(entries, n)
          || (|entries| > 0 && maxElement == Some(|entries|) && forall e | e in entries :: e.distance <= d))
  }

  /** The entries are the tagged vertices among those seen, none further than d. */
  ghost predicate ContextSoFar(g: Graph, tags: map<Vertex, Option<Tag>>, v: Vertex, d: nat,
                               seen: set<Vertex>, entries: seq<ContextEntry>) {
    && EntriesSound(g, tags, v, entries)
    && EntriesSorted(entries)
    && (forall e | e in entries :: e.distance <= d && e.vertex in seen)
    && (forall n | n in seen && n in TaggedIn(tags) :: Mentions(entries, n))
    && (forall n | n in Within(g, TaggedIn(tags), v, if d == 0 then 0 else d - 1) :: n in seen)
    && (forall n | n in seen :: n in Within(g, TaggedIn(tags), v, d))
  }

  lemma ContextStart(g: Graph, tags: map<Vertex, Option<Tag>>, v: Vertex)
    ensures Within(g, TaggedIn(tags), v, 0) == {} && Within(g, TaggedIn(tags), v, 1) == Preds(g, v)
    ensures ContextSoFar(g, tags, v, 0, {}, [])
  {
    WithinZero(g, TaggedIn(tags), v);
    WithinOne(g, TaggedIn(tags), v);
  }

  lemma ContextNextLevel(g: Graph, tags: map<Vertex, Option<Tag>>, v: Vertex, d: nat, seen: set<Vertex>,
                         entries: seq<ContextEntry>)
    requires ContextSoFar(g, tags, v, d, seen, entries) && seen == Within(g, TaggedIn(tags), v, d)
    ensures ContextSoFar(g, tags, v, d + 1, seen, entries)
  {
    WithinMonotone(g, TaggedIn(tags), v, d, d + 1);
  }

  lemma ContextFound(g: Graph, tags: map<Vertex, Option<Tag>>, v: Vertex, d: nat, seen: set<Vertex>,
                     entries: seq<ContextEntry>, n: Vertex)
    requires ContextSoFar(g, tags, v, d, seen, entries) && n !in seen && d >= 1
    requires n in Within(g, TaggedIn(tags), v, d) && n in TaggedIn(tags)
    ensures ContextSoFar(g, tags, v, d, seen + {n}, entries + [ContextEntry(d, n, tags[n].value)])
  {
    var entry := ContextEntry(d, n, tags[n].value);
    var next := entries + [entry];
    WithinIff(g, TaggedIn(tags), v, d);
    WithinIff(g, TaggedIn(tags), v, d - 1);
    assert OpenDistance(g, TaggedIn(tags), n, v, d);
    forall m | m in seen + {n} && m in TaggedIn(tags) ensures Mentions(next, m) {
      if m == n {
        assert entry in next;
      } else {
        var e :| e in entries && e.vertex == m;
        assert e in next;
      }
    }
  }

  lemma ContextPassed(g: Graph, tags: map<Vertex, Option<Tag>>, v: Vertex, d: nat, seen: set<Vertex>,
                      entries: seq<ContextEntry>, n: Vertex)
    requires ContextSoFar(g, tags, v, d, seen, entries)
    requires n in Within(g, TaggedIn(tags), v, d) && n !in TaggedIn(tags)
    ensures ContextSoFar(g, tags, v, d, seen + {n}, entries)
  {
  }

  /** Stopping at the distance bound loses nothing within the bound. */
  lemma ContextCut(g: Graph, tags: map<Vertex, Option<Tag>>, v: Vertex, d: nat,
                   maxDistance: Option<int>, maxElement: Option<int>, entries: seq<ContextEntry>)
    requires ContextSoFar(g, tags, v, d, Within(g, TaggedIn(tags), v, d), entries)
    requires maxDistance.Some? && d + 1 > maxDistance.value && (d > 0 ==> d <= maxDistance.value)
    requires maxElement.Some? && maxElement.value > 0 ==> |entries| < maxElement.value
    ensures ContextAnswer(g, tags, v, maxDistance, maxElement, entries)
  {
    var stops := TaggedIn(tags);
    forall n, m: nat | n in stops && OpenDistance(g, stops, n, v, m) && m <= maxDistance.value
      ensures Mentions(entries, n)
    {
      OpenWithinInNodes(g, stops, n, v, m);
      WithinIff(g, stops, v, m);
      WithinMonotone(g, stops, v, m, d);
    }
    forall e | e in entries ensures e.distance <= maxDistance.value {
      OpenWithinInNodes(g, stops, e.vertex, v, e.distance);
    }
  }

  /** Stopping at the element bound loses nothing nearer than the last entry. */
  lemma ContextFull(g: Graph, tags: map<Vertex, Option<Tag>>, v: Vertex, d: nat,
                    maxDistance: Option<int>, maxElement: Option<int>, entries: seq<ContextEntry>)
    requires d >= 1 && (maxDistance.Some? ==> d <= maxDistance.value) && maxElement == Some(|entries|) && |entries| > 0
    requires exists seen :: ContextSoFar(g, tags, v, d, seen, entries)
    ensures ContextAnswer(g, tags, v, maxDistance, maxElement, entries)
  {
    var stops := TaggedIn(tags);
    var seen :| ContextSoFar(g, tags, v, d, seen, entries);
    forall n, m: nat | n in stops && OpenDistance(g, stops, n, v, m)
      ensures Mentions(entries, n) || forall e | e in entries :: e.distance <= m
    {
      if m < d {
        WithinIff(g, stops, v, m);
        WithinMonotone(g, stops, v, m, d - 1);
      }
    }
  }

  /** A level that adds nothing is the last one. */
  lemma ContextExhausted(g: Graph, tags: map<Vertex, Option<Tag>>, v: Vertex, d: nat,
                         maxDistance: Option<int>, maxElement: Option<int>, entries: seq<ContextEntry>)
    requires d >= 1 && ContextSoFar(g, tags, v, d, Within(g, TaggedIn(tags), v, d), entries)
    requires Within(g, TaggedIn(tags), v, d + 1) == Within(g, TaggedIn(tags), v, d)
    requires maxDistance.Some? ==> d <= maxDistance.value
    requires maxElement.Some? && maxElement.value > 0 ==> |entries| < maxElement.value
    ensures ContextAnswer(g, tags, v, maxDistance, maxElement, entries)
  {
    var stops := TaggedIn(tags);
    forall n, m: nat | n in stops && OpenDistance(g, stops, n, v, m) ensures Mentions(entries, n) {
      var p :| OpenRoute(g, stops, n, v, p);
      WithinFixpoint(g, stops, v, d, n, p);
    }
  }

  /** Only stops that are in the graph matter. */
  lemma SameStops(g: Graph, a: iset<Vertex>, b: iset<Vertex>, n: Vertex, v: Vertex)
    requires forall x | x in Nodes(g) :: x in a <==> x in b
    ensures forall p :: OpenRoute(g, a, n, v, p) <==> OpenRoute(g, b, n, v, p)
    ensures OpenReach(g, a, n, v) <==> OpenReach(g, b, n, v)
    ensures forall d :: OpenWithin(g, a, n, v, d) <==> OpenWithin(g, b, n, v, d)
  {
    forall p | Route(g, n, v, p) ensures OpenRoute(g, a, n, v, p) <==> OpenRoute(g, b, n, v, p) {
      forall i | 0 < i < |p| - 1 ensures p[i] in Nodes(g) {
        assert p[i] in Preds(g, p[i + 1]);
      }
    }
  }

  /** With unlimited contexts, the same tagged vertices are mentioned exactly if the same ones can be reached. */
  lemma MentionsIff(g: Graph, tags: map<Vertex, Option<Tag>>, v: Vertex, entries: seq<ContextEntry>, n: Vertex)
    requires ContextAnswer(g, tags, v, None, None, entries)
    ensures Mentions(entries, n) <==> n in TaggedIn(tags) && OpenReach(g, TaggedIn(tags), n, v)
  {
    if e :| e in entries && e.vertex == n {
      OpenWithinInNodes(g, TaggedIn(tags), n, v, e.distance);
    }
    if n in TaggedIn(tags) && OpenReach(g, TaggedIn(tags), n, v) {
      var p :| OpenRoute(g, TaggedIn(tags), n, v, p);
      assert OpenWithin(g, TaggedIn(tags), n, v, |p| - 1);
      var d := OpenDistanceExists(g, TaggedIn(tags), n, v, |p| - 1);
    }
  }

  /**
   What get_context gives for a kept vertex before and after untagged vertices were pruned: the same
   vertices with the same tags, none further away. The distances need not be the same.
   */
  lemma ContextAfterPrune(g: Graph, fun: Vertex -> bool, tags: map<Vertex, Option<Tag>>, v: Vertex, reverseOrder: bool,
                          before: seq<ContextEntry>, after: seq<ContextEntry>)
    requires Closed(g) && !fun(v) && forall n | n in TaggedIn(tags) :: !fun(n)
    requires ContextAnswer(Direction(g, reverseOrder), tags, v, None, None, before)
    requires ContextAnswer(Direction(Pruned(g, fun), reverseOrder), Restrict(tags, g.Keys, fun), v, None, None, after)
    ensures forall n :: Mentions(before, n) <==> Mentions(after, n)
    ensures forall e, f | e in before && f in after && e.vertex == f.vertex ::
              f.tag == e.tag && f.distance <= e.distance
  {
    var tags' := Restrict(tags, g.Keys, fun);
    var a, b := Direction(g, reverseOrder), Direction(Pruned(g, fun), reverseOrder);
    var stops, stops' := TaggedIn(tags), TaggedIn(tags');
    ReverseClosed(g);
    PrunedClosed(g, fun);
    ReverseClosed(Pruned(g, fun));
    assert Nodes(a) == g.Keys && Nodes(b) <= g.Keys;
    assert forall n | n in g :: n in stops <==> n in stops';
    hide ContextAnswer, Direction, Restrict, OpenReach, TaggedIn;
    forall n ensures Mentions(before, n) <==> Mentions(after, n) {
      MentionsIff(a, tags, v, before, n);
      MentionsIff(b, tags', v, after, n);
      SameStops(b, stops, stops', n, v);
      if OpenReach(a, stops, n, v) { OpenReachInNodes(a, stops, n, v); }
      if OpenReach(b, stops, n, v) { OpenReachInNodes(b, stops, n, v); }
      if n in stops { PrunedContext(g, fun, stops, n, v, reverseOrder); }
    }
    forall e, f | e in before && f in after && e.vertex == f.vertex
      ensures f.tag == e.tag && f.distance <= e.distance
    {
      EntryMeans(a, tags, v, before, e);
      EntryMeans(b, tags', v, after, f);
      SameStops(b, stops, stops', e.vertex, v);
      PrunedContext(g, fun, stops, e.vertex, v, reverseOrder);
      RestrictSame(tags, g.Keys, fun, e.vertex);
    }
  }

  lemma OpenReachInNodes(g: Graph, stops: iset<Vertex>, n: Vertex, v: Vertex)
    requires OpenReach(g, stops, n, v)
    ensures n in Nodes(g)
  {
    ReachInNodes(g, n, v);
  }

  lemma EntryMeans(g: Graph, tags: map<Vertex, Option<Tag>>, v: Vertex, entries: seq<ContextEntry>, e: ContextEntry)
    requires ContextAnswer(g, tags, v, None, None, entries) && e in entries
    ensures e.vertex in tags && tags[e.vertex] == Some(e.tag) && e.vertex in TaggedIn(tags)
    ensures forall d: nat | OpenWithin(g, TaggedIn(tags), e.vertex, v, d) :: e.distance <= d
    ensures OpenWithin(g, TaggedIn(tags), e.vertex, v, e.distance)
  {
  }

  lemma RestrictSame(tags: map<Vertex, Option<Tag>>, vertices: set<Vertex>, fun: Vertex -> bool, v: Vertex)
    ensures v in Restrict(tags, vertices, fun) ==> v in tags && Restrict(tags, vertices, fun)[v] == tags[v]
  {
  }

  /** closure is the level together with what the untagged vertices expanded so far lead to. */
  ghost predicate LevelClosure(g: Graph, stops: iset<Vertex>, level: set<Vertex>, expanded: set<Vertex>,
                               closure: set<Vertex>)
  {
    forall n :: n in closure <==> n in level || exists k :: k in expanded && k !in stops && n in Preds(g, k)
  }

  lemma LevelTagged(g: Graph, stops: iset<Vertex>, level: set<Vertex>, expanded: set<Vertex>, closure: set<Vertex>,
                    n: Vertex)
    requires LevelClosure(g, stops, level, expanded, closure) && n in stops
    ensures LevelClosure(g, stops, level, expanded + {n}, closure)
  {
  }

  lemma LevelUntagged(g: Graph, stops: iset<Vertex>, level: set<Vertex>, expanded: set<Vertex>, closure: set<Vertex>,
                      n: Vertex)
    requires LevelClosure(g, stops, level, expanded, closure) && n !in stops
    ensures LevelClosure(g, stops, level, expanded + {n}, closure + Preds(g, n))
  {
  }

  /** Expanding the new vertices of a level gives the next one: the older ones have been expanded before. */
  lemma LevelDone(g: Graph, stops: iset<Vertex>, v: Vertex, d: nat, closure: set<Vertex>)
    requires d >= 1
    requires var level, older := Within(g, stops, v, d), Within(g, stops, v, d - 1);
             LevelClosure(g, stops, level, level - older, closure)
    ensures closure == Within(g, stops, v, d + 1) && Within(g, stops, v, d) <= closure
  {
    hide Within;
    var level, older := Within(g, stops, v, d), Within(g, stops, v, d - 1);
    WithinZero(g, stops, v);
    forall n ensures n in closure <==> n in Within(g, stops, v, d + 1) {
      WithinStepAt(g, stops, v, d, d + 1, n);
      if k :| k in older && k !in stops && n in Preds(g, k) {
        WithinStepAt(g, stops, v, d - 1, d, n);
      }
    }
  }

  lemma LevelInNodes(g: Graph, stops: iset<Vertex>, v: Vertex, d: nat, closure: set<Vertex>)
    requires closure == Within(g, stops, v, d + 1)
    ensures |closure| <= |Nodes(g)|
  {
    SubsetCardinality(closure, Nodes(g));
  }

  lemma SubsetCardinality(a: set<Vertex>, b: set<Vertex>)
    requires a <= b
    ensures |a| <= |b|
  {
    assert |b| == |a| + |b - a|;
  }

  lemma SameSize(a: set<Vertex>, b: set<Vertex>)
    requires a <= b && |a| == |b|
    ensures a == b
  {
    assert |b| == |a| + |b - a|;
  }

  datatype State = NotVisited | Busy | Visited

  datatype Next =
    | StopIteration
    | NoneReady
    | Element(vertex: Vertex, data: Option<Data>, predecessors: set<Vertex>)
    | Raised(error: DagError)

  /** The predecessors of v that are not visited yet. */
  ghost function Pending(g: Graph, states: map<Vertex, State>, v: Vertex): set<Vertex> {
    set u | u in Preds(g, v) && !(u in states && states[u].Visited?)
  }

  /** The bookkeeping of an iteration: the counters count, and nothing starts before its predecessors are visited. */
  ghost predicate Iterating(g: Graph, enableBusyState: bool, nonVisited: set<Vertex>,
                            states: map<Vertex, State>, predNumber: map<Vertex, int>)
    requires states.Keys == predNumber.Keys == g.Keys
  {
    && nonVisited == (set v | v in states && states[v].NotVisited?)
    && (forall v | v in g :: predNumber[v] == |Pending(g, states, v)|)
    && (forall v | v in g && !states[v].NotVisited? :: Pending(g, states, v) == {})
    && (!enableBusyState ==> forall v | v in states :: !states[v].Busy?)
  }

  lemma SuccessorsAreVertices(g: Graph, v: Vertex)
    ensures Preds(Reverse(g), v) <= g.Keys
    ensures forall k | k in g :: k in Preds(Reverse(g), v) <==> v in g[k]
  {
  }

  lemma PendingAfterVisit(g: Graph, states: map<Vertex, State>, v: Vertex, k: Vertex)
    requires states.Keys == g.Keys && v in g && !states[v].Visited? && k in g
    ensures Pending(g, states[v := Visited], k) == Pending(g, states, k) - {v}
    ensures v in Pending(g, states, k) <==> v in g[k]
  {
  }

  /** Visiting v and counting it off at its successors keeps the bookkeeping right. */
  lemma IteratingAfterVisit(g: Graph, enableBusyState: bool, nonVisited: set<Vertex>,
                            states: map<Vertex, State>, predNumber: map<Vertex, int>,
                            v: Vertex, counted: map<Vertex, int>)
    requires states.Keys == predNumber.Keys == g.Keys == counted.Keys
    requires Iterating(g, enableBusyState, nonVisited, states, predNumber)
    requires v in states && !states[v].Visited? && Pending(g, states, v) == {}
    requires forall k | k in g :: counted[k] == predNumber[k] - if k in Preds(Reverse(g), v) then 1 else 0
    ensures Iterating(g, enableBusyState, nonVisited - {v}, states[v := Visited], counted)
  {
    hide Reverse, Pending, Preds;
    var after := states[v := Visited];
    forall k | k in g
      ensures counted[k] == |Pending(g, after, k)| && (!after[k].NotVisited? ==> Pending(g, after, k) == {})
    {
      CountedOff(g, states, v, k);
    }
  }

  lemma CountedOff(g: Graph, states: map<Vertex, State>, v: Vertex, k: Vertex)
    requires states.Keys == g.Keys && v in g && !states[v].Visited? && k in g
    ensures |Pending(g, states[v := Visited], k)| ==
            |Pending(g, states, k)| - if k in Preds(Reverse(g), v) then 1 else 0
    ensures Pending(g, states, k) == {} ==> Pending(g, states[v := Visited], k) == {}
  {
    hide Reverse, Pending, Preds;
    SuccessorsAreVertices(g, v);
    PendingAfterVisit(g, states, v, k);
    var p := Pending(g, states, k);
    assert v in p ==> |p - {v}| == |p| - 1;
    assert v !in p ==> p - {v} == p;
  }

  lemma IteratingAfterBusy(g: Graph, nonVisited: set<Vertex>,
                           states: map<Vertex, State>, predNumber: map<Vertex, int>, v: Vertex)
    requires states.Keys == predNumber.Keys == g.Keys
    requires Iterating(g, true, nonVisited, states, predNumber)
    requires v in nonVisited && Pending(g, states, v) == {}
    ensures Iterating(g, true, nonVisited - {v}, states[v := Busy], predNumber)
  {
    var after := states[v := Busy];
    forall k | k in g ensures Pending(g, after, k) == Pending(g, states, k) {
    }
  }

  /** A vertex is ready exactly when its counter is 0. */
  lemma ReadyIff(g: Graph, enableBusyState: bool, nonVisited: set<Vertex>,
                 states: map<Vertex, State>, predNumber: map<Vertex, int>)
    requires states.Keys == predNumber.Keys == g.Keys
    requires Iterating(g, enableBusyState, nonVisited, states, predNumber)
    ensures nonVisited == (set u | u in states && states[u].NotVisited?) && nonVisited <= g.Keys
    ensures forall v | v in nonVisited :: states[v].NotVisited?
    ensures forall v | v in g :: predNumber[v] == 0 <==> Pending(g, states, v) == {}
  {
  }

  /** When every vertex left waits for another one and none is busy, there is a cycle among them. */
  lemma BlockedIsCyclic(g: Graph, nonVisited: set<Vertex>, states: map<Vertex, State>, predNumber: map<Vertex, int>)
    returns (v: Vertex)
    requires Closed(g) && states.Keys == predNumber.Keys == g.Keys
    requires Iterating(g, false, nonVisited, states, predNumber)
    requires nonVisited != {} && forall v | v in nonVisited :: Pending(g, states, v) != {}
    ensures v in nonVisited && nonVisited <= g.Keys && Reach(g, v, v)
  {
    forall v | v in nonVisited ensures Preds(g, v) * nonVisited != {} {
      var u :| u in Pending(g, states, v);
      assert u in Preds(g, v) * nonVisited;
    }
    v := StuckSetHasCycle(g, nonVisited);
  }

  class DAGIterator {
    const dag: DAG
    const enableBusyState: bool
    var nonVisited: set<Vertex>
    var states: map<Vertex, State>
    var predNumber: map<Vertex, int>

    ghost predicate Valid()
      reads this, dag
    {
      && dag.Valid()
      && Closed(dag.vertexPredecessors)
      && states.Keys == predNumber.Keys == dag.vertexPredecessors.Keys
      && Iterating(dag.vertexPredecessors, enableBusyState, nonVisited, states, predNumber)
    }

    constructor (dag: DAG, enableBusyState: bool)
      requires dag.Valid() && Closed(dag.vertexPredecessors)
      ensures Valid() && this.dag == dag && this.enableBusyState == enableBusyState
      ensures nonVisited == dag.vertexPredecessors.Keys
    {
      this.dag := dag;
      this.enableBusyState := enableBusyState;
      nonVisited := dag.vertexData.Keys;
      states := map v | v in dag.vertexData :: NotVisited;
      predNumber := map v | v in dag.vertexPredecessors :: |dag.vertexPredecessors[v]|;
      new;
      forall v | v in dag.vertexPredecessors
        ensures Pending(dag.vertexPredecessors, states, v) == dag.vertexPredecessors[v]
      {
      }
    }

    /** One predecessor less for each of these vertices. */
    method CountOff(successors: set<Vertex>)
      requires successors <= predNumber.Keys
      modifies this`predNumber
      ensures predNumber.Keys == old(predNumber).Keys
      ensures forall k | k in predNumber :: predNumber[k] == old(predNumber)[k] - if k in successors then 1 else 0
    {
      var todo := successors;
      while todo != {}
        invariant todo <= successors && predNumber.Keys == old(predNumber).Keys
        invariant forall k | k in predNumber ::
                    predNumber[k] == old(predNumber)[k] - if k in successors - todo then 1 else 0
      {
        var k :| k in todo;
        todo := todo - {k};
        predNumber := predNumber[k := predNumber[k] - 1];
      }
    }

    /** Visits v: every successor of v waits for one predecessor less. */
    method MarkVisited(v: Vertex)
      requires Valid() && v in states && !states[v].Visited?
      requires Pending(dag.vertexPredecessors, states, v) == {}
      modifies this`states, this`nonVisited, this`predNumber, dag`vertexSuccessors
      ensures Valid() && states == old(states)[v := Visited] && nonVisited == old(nonVisited) - {v}
    {
      hide DAG.CachesAgree, Iterating, Pending, Reverse, Preds;
      ghost var g, numbers := dag.vertexPredecessors, predNumber;
      states := states[v := Visited];
      var successors := dag.GetSuccessors(v);
      SuccessorsAreVertices(g, v);
      CountOff(successors);
      nonVisited := nonVisited - {v};
      IteratingAfterVisit(g, enableBusyState, old(nonVisited), old(states), numbers, v, predNumber);
    }

    method NextElement() returns (r: Next)
      requires Valid()
      modifies this`states, this`nonVisited, this`predNumber, dag`vertexSuccessors
      ensures Valid()
      ensures r.StopIteration? <==> old(nonVisited) == {}
      ensures !r.Element? ==> states == old(states) && nonVisited == old(nonVisited)
      ensures !r.Element? ==> forall v | v in nonVisited :: Pending(dag.vertexPredecessors, states, v) != {}
      ensures r.NoneReady? ==> enableBusyState
      ensures r.Element? ==>
                && r.vertex in old(nonVisited) && Pending(dag.vertexPredecessors, old(states), r.vertex) == {}
                && r.data == dag.vertexData[r.vertex] && r.predecessors == dag.vertexPredecessors[r.vertex]
                && states == old(states)[r.vertex := if enableBusyState then Busy else Visited]
                && nonVisited == old(nonVisited) - {r.vertex}
      ensures r.Raised? ==>
                !enableBusyState && NamesCycle(dag.vertexPredecessors, r.error) && r.error.cycle[0] in nonVisited
    {
      hide DAG.CachesAgree, Iterating;
      if nonVisited == {} {
        return StopIteration;
      }
      ReadyIff(dag.vertexPredecessors, enableBusyState, nonVisited, states, predNumber);
      if v :| v in nonVisited && predNumber[v] == 0 {
        if enableBusyState {
          IteratingAfterBusy(dag.vertexPredecessors, nonVisited, states, predNumber, v);
          states := states[v := Busy];
          nonVisited := nonVisited - {v};
        } else {
          MarkVisited(v);
        }
        return Element(v, dag.vertexData[v], dag.GetPredecessors(v));
      }
      if enableBusyState {
        return NoneReady;
      }
      r := NameCycle();
    }

    /** Which cycle blocks a plain iteration. The fallback for a cycle that is not found is never reached. */
    method NameCycle() returns (r: Next)
      requires Valid() && !enableBusyState && nonVisited != {}
      requires forall v | v in nonVisited :: Pending(dag.vertexPredecessors, states, v) != {}
      ensures r.Raised? && NamesCycle(dag.vertexPredecessors, r.error) && r.error.cycle[0] in nonVisited
    {
      hide DAG.CachesAgree, Iterating, Pending, Linked;
      ghost var onCycle := BlockedIsCyclic(dag.vertexPredecessors, nonVisited, states, predNumber);
      var todo := nonVisited;
      while todo != {}
        invariant onCycle in todo && todo <= nonVisited
      {
        var node :| node in todo;
        var cycle := dag.ShortestPath(node, node);
        if cycle.Some? {
          return Raised(CycleDetected(cycle.value));
        }
        todo := todo - {node};
      }
      assert false;
    }

    method Leave(v: Vertex)
      requires Valid() && v in states && states[v] == Busy
      modifies this`states, this`nonVisited, this`predNumber, dag`vertexSuccessors
      ensures Valid() && states == old(states)[v := Visited] && nonVisited == old(nonVisited)
    {
      MarkVisited(v);
    }
  }

  /** The node at which min() with the distance as key stops. */
  method Nearest(open: set<Node>, dist: map<Node, nat>) returns (u: Node)
    requires open != {} && open <= dist.Keys
    ensures u in open && forall y | y in open :: dist[u] <= dist[y]
  {
    u :| u in open;
    var rest := open - {u};
    while rest != {}
      invariant rest <= open && u in open
      invariant forall y | y in open - rest :: dist[u] <= dist[y]
    {
      var y :| y in rest;
      rest := rest - {y};
      if dist[y] < dist[u] { u := y; }
    }
  }
}
