/**
 Which sources and packages a specification draws on through its dependencies, and which of
 them may be published.
 */
module SourceClosures {
  import opened Wrappers
  import opened Graphs

  type Name(==, !new)
  type SourceData(==, !new)
  type DataKey(==, !new)

  datatype SpecKind = Install | OtherSpec

  datatype DepKind = BuildDep | InstallDep | DownloadDep | SourceDep

  datatype Dep = Dep(kind: DepKind, track: bool, target: Vertex)

  datatype SourceDecl = SourceDecl(name: Name, publish: bool)

  datatype SourceKey = SourceKey(uid: Vertex, name: Name, publish: bool)

  datatype PackageKey = PackageKey(uid: Vertex, track: bool, hasClosure: bool)

  /** What the context knows about the specifications. */
  datatype Context = Context(
    kind: Vertex -> SpecKind,
    sources: Vertex -> set<SourceDecl>,
    dependencies: Vertex -> set<Dep>,
    buildNode: Vertex -> Option<Vertex>,
    hasComponent: Vertex -> bool,
    expandPackages: bool)
  {
    /** An installation is looked through to its build when packages are expanded, or when it has no component. */
    function Effective(target: Vertex): Vertex {
      if kind(target) == Install && (expandPackages || !hasComponent(target)) then
        if buildNode(target).Some? then buildNode(target).value else target
      else target
    }

    /** The dependencies that are followed. */
    function Followed(spec: Vertex): set<Dep> {
      if kind(spec) == Install then {}
      else set d | d in dependencies(spec) && d.kind != SourceDep
    }

    /**
     A build, installation or download that a specification other than an installation depends on is followed,
     and an installation that is expanded or has no component is looked through to its build, if there is one.
     */
    ghost predicate Leads(from: Vertex, d: Dep, to: Vertex) {
      && kind(from) != Install && d in dependencies(from)
      && (d.kind == BuildDep || d.kind == InstallDep || d.kind == DownloadDep)
      && var through := kind(d.target) == Install && (expandPackages || !hasComponent(d.target));
         to == if through && buildNode(d.target).Some? then buildNode(d.target).value else d.target
    }

    lemma LeadsIff(from: Vertex, d: Dep, to: Vertex)
      ensures Leads(from, d, to) <==> d in Followed(from) && to == Effective(d.target)
    {
    }

    /** Following these dependencies in turn leads from one specification to another. */
    ghost predicate Trail(from: Vertex, to: Vertex, deps: seq<Dep>)
      decreases |deps|
    {
      if deps == [] then from == to
      else exists next :: Leads(from, deps[0], next) && Trail(next, to, deps[1..])
    }

    lemma TrailStep(from: Vertex, to: Vertex, deps: seq<Dep>)
      requires deps != []
      ensures Trail(from, to, deps) <==> deps[0] in Followed(from) && Trail(Effective(deps[0].target), to, deps[1..])
    {
      if Trail(from, to, deps) {
        var next :| Leads(from, deps[0], next) && Trail(next, to, deps[1..]);
        LeadsIff(from, deps[0], next);
      }
      if deps[0] in Followed(from) {
        LeadsIff(from, deps[0], Effective(deps[0].target));
      }
    }
  }

  predicate AllTracked(deps: seq<Dep>) {
    forall i | 0 <= i < |deps| :: deps[i].track
  }

  /** The graph in which the specifications that are followed come before the one that follows them. */
  ghost predicate FollowGraph(c: Context, g: Graph) {
    Closed(g) && forall s, d, t | s in g && c.Leads(s, d, t) :: t in g[s]
  }

  /** The trail leads to a specification with this source; it is publishable if all of the trail is tracked. */
  ghost predicate SourceFoundBy(c: Context, spec: Vertex, publish: bool, key: SourceKey, deps: seq<Dep>,
                                decl: SourceDecl)
  {
    && c.Trail(spec, key.uid, deps) && c.kind(key.uid) != Install
    && decl in c.sources(key.uid) && decl.name == key.name
    && key.publish == (publish && AllTracked(deps) && decl.publish)
  }

  ghost predicate SourceFound(c: Context, spec: Vertex, publish: bool, key: SourceKey) {
    exists deps, decl :: SourceFoundBy(c, spec, publish, key, deps, decl)
  }

  /** The specification itself has this source. */
  ghost predicate Declared(c: Context, spec: Vertex, publish: bool, key: SourceKey) {
    key.uid == spec && exists decl :: decl in c.sources(spec) && decl.name == key.name
                                      && key.publish == (publish && decl.publish)
  }

  ghost predicate PackageFoundBy(c: Context, spec: Vertex, publish: bool, key: PackageKey, deps: seq<Dep>) {
    && c.Trail(spec, key.uid, deps) && c.kind(key.uid) == Install
    && key.hasClosure == c.buildNode(key.uid).Some?
    && key.track == (publish && AllTracked(deps))
  }

  ghost predicate PackageFound(c: Context, spec: Vertex, publish: bool, key: PackageKey) {
    exists deps :: PackageFoundBy(c, spec, publish, key, deps)
  }

  /** What follows one dependency finds is what the trails that begin with it find. */
  lemma TrailFirst(c: Context, spec: Vertex, d: Dep, deps: seq<Dep>, to: Vertex)
    requires d in c.Followed(spec) && c.Trail(c.Effective(d.target), to, deps)
    ensures c.Trail(spec, to, [d] + deps)
    ensures AllTracked([d] + deps) <==> d.track && AllTracked(deps)
  {
    assert ([d] + deps)[1..] == deps;
    c.TrailStep(spec, to, [d] + deps);
    if AllTracked([d] + deps) {
      forall i | 0 <= i < |deps| ensures deps[i].track {
        assert ([d] + deps)[i + 1] == deps[i];
      }
    }
  }

  lemma TrackedRest(deps: seq<Dep>)
    requires deps != []
    ensures AllTracked(deps) <==> deps[0].track && AllTracked(deps[1..])
  {
    if AllTracked(deps[1..]) {
      forall i | 0 < i < |deps| ensures deps[i].track {
        assert deps[i] == deps[1..][i - 1];
      }
    }
  }

  /** The sources of a closure are its own and those of what it follows. */
  lemma SourceFoundStep(c: Context, spec: Vertex, publish: bool, key: SourceKey)
    requires c.kind(spec) != Install
    ensures SourceFound(c, spec, publish, key) <==>
            || Declared(c, spec, publish, key)
            || exists d :: d in c.Followed(spec) && SourceFound(c, c.Effective(d.target), publish && d.track, key)
  {
    if SourceFound(c, spec, publish, key) {
      var deps: seq<Dep>, decl :| SourceFoundBy(c, spec, publish, key, deps, decl);
      if deps != [] {
        c.TrailStep(spec, key.uid, deps);
        TrackedRest(deps);
        var d := deps[0];
        assert SourceFoundBy(c, c.Effective(d.target), publish && d.track, key, deps[1..], decl);
        assert d in c.Followed(spec) && SourceFound(c, c.Effective(d.target), publish && d.track, key);
      }
    }
    if Declared(c, spec, publish, key) {
      var decl :| decl in c.sources(spec) && decl.name == key.name && key.publish == (publish && decl.publish);
      assert SourceFoundBy(c, spec, publish, key, [], decl);
    }
    if exists d :: d in c.Followed(spec) && SourceFound(c, c.Effective(d.target), publish && d.track, key) {
      var d :| d in c.Followed(spec) && SourceFound(c, c.Effective(d.target), publish && d.track, key);
      var deps, decl :| SourceFoundBy(c, c.Effective(d.target), publish && d.track, key, deps, decl);
      TrailFirst(c, spec, d, deps, key.uid);
      assert SourceFoundBy(c, spec, publish, key, [d] + deps, decl);
    }
  }

  /** The packages of a closure are those of what it follows. */
  lemma PackageFoundStep(c: Context, spec: Vertex, publish: bool, key: PackageKey)
    requires c.kind(spec) != Install
    ensures PackageFound(c, spec, publish, key) <==>
            exists d :: d in c.Followed(spec) && PackageFound(c, c.Effective(d.target), publish && d.track, key)
  {
    if PackageFound(c, spec, publish, key) {
      var deps: seq<Dep> :| PackageFoundBy(c, spec, publish, key, deps);
      c.TrailStep(spec, key.uid, deps);
      TrackedRest(deps);
      var d := deps[0];
      assert PackageFoundBy(c, c.Effective(d.target), publish && d.track, key, deps[1..]);
      assert d in c.Followed(spec) && PackageFound(c, c.Effective(d.target), publish && d.track, key);
    }
    if exists d :: d in c.Followed(spec) && PackageFound(c, c.Effective(d.target), publish && d.track, key) {
      var d :| d in c.Followed(spec) && PackageFound(c, c.Effective(d.target), publish && d.track, key);
      var deps :| PackageFoundBy(c, c.Effective(d.target), publish && d.track, key, deps);
      TrailFirst(c, spec, d, deps, key.uid);
      assert PackageFoundBy(c, spec, publish, key, [d] + deps);
    }
  }

  /** An installation is a package and leads nowhere. */
  lemma InstallFound(c: Context, spec: Vertex, publish: bool)
    requires c.kind(spec) == Install
    ensures forall key :: !SourceFound(c, spec, publish, key)
    ensures forall key ::
              PackageFound(c, spec, publish, key) <==> key == PackageKey(spec, publish, c.buildNode(spec).Some?)
  {
    forall to, deps | c.Trail(spec, to, deps) ensures deps == [] && to == spec {
      if deps != [] { c.TrailStep(spec, to, deps); }
    }
    forall key, deps, decl ensures !SourceFoundBy(c, spec, publish, key, deps, decl) {
    }
    var key := PackageKey(spec, publish, c.buildNode(spec).Some?);
    assert PackageFoundBy(c, spec, publish, key, []);
  }

  /** On an acyclic dependency relation the recursion goes down. */
  lemma FollowingDescends(c: Context, g: Graph, spec: Vertex, d: Dep)
    requires FollowGraph(c, g) && Acyclic(g) && spec in g && d in c.Followed(spec)
    ensures c.Effective(d.target) in g
    ensures |Ancestors(g, c.Effective(d.target))| < |Ancestors(g, spec)|
  {
    var t := c.Effective(d.target);
    c.LeadsIff(spec, d, t);
    assert t in g[spec];
    ReachEdge(g, t, spec);
    ReachInNodes(g, t, spec);
    forall a | a in Ancestors(g, t) ensures a in Ancestors(g, spec) {
      ReachTransitive(g, a, t, spec);
    }
    assert t in Ancestors(g, spec) && t !in Ancestors(g, t);
    SubsetSmaller(Ancestors(g, t), Ancestors(g, spec));
  }

  /** What a package resolves to: source data, each with whether it may be published. */
  type PackageData = seq<(SourceData, bool)>

  datatype Missing = Missing

  class SourceClosure {
    const context: Context
    const root: Vertex
    const dataKey: SourceData -> DataKey
    var sourceList: map<SourceKey, Option<SourceData>>
    var packageList: map<PackageKey, Option<PackageData>>

    /** The keys are exactly the sources and packages found along the trails from the root. */
    ghost predicate Valid()
      reads this
    {
      && (forall key :: key in sourceList <==> SourceFound(context, root, true, key))
      && (forall key :: key in packageList <==> PackageFound(context, root, true, key))
    }

    constructor (context: Context, root: Vertex, dataKey: SourceData -> DataKey, ghost g: Graph)
      requires FollowGraph(context, g) && Acyclic(g) && root in g
      ensures Valid() && this.context == context && this.root == root && this.dataKey == dataKey
      ensures forall key | key in sourceList :: sourceList[key] == None
      ensures forall key | key in packageList :: packageList[key] == None
    {
      this.context := context;
      this.root := root;
      this.dataKey := dataKey;
      sourceList := map[];
      packageList := map[];
      new;
      ComputeClosure(root, true, g);
    }

    method ComputeClosure(spec: Vertex, publish: bool, ghost g: Graph)
      requires FollowGraph(context, g) && Acyclic(g) && spec in g
      requires forall key | key in sourceList :: sourceList[key] == None
      requires forall key | key in packageList :: packageList[key] == None
      modifies this`sourceList, this`packageList
      ensures forall key :: key in sourceList <==> key in old(sourceList) || SourceFound(context, spec, publish, key)
      ensures forall key :: key in packageList <==> key in old(packageList) || PackageFound(context, spec, publish, key)
      ensures forall key | key in sourceList :: sourceList[key] == None
      ensures forall key | key in packageList :: packageList[key] == None
      decreases |Ancestors(g, spec)|
    {
      hide SourceFound, PackageFound, FollowGraph, Ancestors, Acyclic;
      if context.kind(spec) == Install {
        packageList := packageList[PackageKey(spec, publish, context.buildNode(spec).Some?) := None];
        InstallFound(context, spec, publish);
        return;
      }
      sourceList := AddSources(spec, publish);
      var todo := context.Followed(spec);
      while todo != {}
        invariant todo <= context.Followed(spec)
        invariant forall key :: key in sourceList <==>
            || key in old(sourceList) || Declared(context, spec, publish, key)
            || exists d ::
                 && d in context.Followed(spec) - todo
                 && SourceFound(context, context.Effective(d.target), publish && d.track, key)
        invariant forall key :: key in packageList <==>
            || key in old(packageList)
            || exists d ::
                 && d in context.Followed(spec) - todo
                 && PackageFound(context, context.Effective(d.target), publish && d.track, key)
        invariant forall key | key in sourceList :: sourceList[key] == None
        invariant forall key | key in packageList :: packageList[key] == None
      {
        var d :| d in todo;
        FollowingDescends(context, g, spec, d);
        ComputeClosure(context.Effective(d.target), publish && d.track, g);
        todo := todo - {d};
      }
      forall key {
        SourceFoundStep(context, spec, publish, key);
      }
      forall key {
        PackageFoundStep(context, spec, publish, key);
      }
    }

    /** The loop over the sources of the specification itself. */
    method AddSources(spec: Vertex, publish: bool) returns (list: map<SourceKey, Option<SourceData>>)
      requires forall key | key in sourceList :: sourceList[key] == None
      ensures forall key :: key in list <==> key in sourceList || Declared(context, spec, publish, key)
      ensures forall key | key in list :: list[key] == None
    {
      list := sourceList;
      var todo := context.sources(spec);
      while todo != {}
        invariant todo <= context.sources(spec)
        invariant forall key :: key in list <==>
            (key in sourceList ||
             (key.uid == spec && exists decl :: decl in context.sources(spec) - todo && decl.name == key.name
                                                && key.publish == (publish && decl.publish)))
        invariant forall key | key in list :: list[key] == None
      {
        var decl :| decl in todo;
        todo := todo - {decl};
        list := list[SourceKey(spec, decl.name, publish && decl.publish) := None];
      }
    }

    method ResolveSource(name: Name, data: SourceData)
      requires Valid()
      modifies this`sourceList
      ensures Valid() && sourceList.Keys == old(sourceList).Keys
      ensures forall key | key in sourceList ::
                sourceList[key] == if key.name == name then Some(data) else old(sourceList)[key]
    {
      var todo := sourceList.Keys;
      while todo != {}
        invariant todo <= sourceList.Keys == old(sourceList).Keys
        invariant forall key | key in sourceList ::
                    sourceList[key] == if key.name == name && key !in todo then Some(data) else old(sourceList)[key]
      {
        var key :| key in todo;
        todo := todo - {key};
        if key.name == name {
          sourceList := sourceList[key := Some(data)];
        }
      }
    }

    method ResolvePackage(uid: Vertex, data: PackageData)
      requires Valid()
      modifies this`packageList
      ensures Valid() && packageList.Keys == old(packageList).Keys
      ensures forall key | key in packageList ::
                packageList[key] == if key.uid == uid then Some(data) else old(packageList)[key]
    {
      var todo := packageList.Keys;
      while todo != {}
        invariant todo <= packageList.Keys == old(packageList).Keys
        invariant forall key | key in packageList ::
                    packageList[key] == if key.uid == uid && key !in todo then Some(data) else old(packageList)[key]
      {
        var key :| key in todo;
        todo := todo - {key};
        if key.uid == uid {
          packageList := packageList[key := Some(data)];
        }
      }
    }

    /** An untracked package without a closure is ignored. */
    ghost predicate Unresolved()
      reads this
    {
      || (exists key :: key in sourceList && sourceList[key] == None)
      || (exists key :: key in packageList && (key.hasClosure || key.track) && packageList[key] == None)
    }

    /** What the resolutions contribute: data, each with whether this contribution may be published. */
    ghost function Given(sources: set<SourceKey>, packages: set<PackageKey>): set<(SourceData, bool)>
      reads this
    {
      (set key | key in sources && key in sourceList && sourceList[key].Some? :: (sourceList[key].value, key.publish))
      + GivenInPackages(packages)
    }

    /** An untracked package without a closure contributes nothing, and an untracked one nothing to publish. */
    ghost function GivenInPackages(packages: set<PackageKey>): set<(SourceData, bool)>
      reads this
    {
      set key, p | key in packages && key in packageList && (key.hasClosure || key.track) && packageList[key].Some?
                   && p in packageList[key].value :: (p.0, p.1 && key.track)
    }

    /** A tracked trail leads to a publishable source that was resolved to data with this key. */
    ghost predicate PublishedAsSource(k: DataKey)
      reads this
    {
      exists deps, uid, decl ::
        && context.Trail(root, uid, deps) && AllTracked(deps) && context.kind(uid) != Install
        && decl in context.sources(uid) && decl.publish && PublishesSource(SourceKey(uid, decl.name, true), k)
    }

    ghost predicate PublishesSource(key: SourceKey, k: DataKey)
      reads this
    {
      key in sourceList && sourceList[key].Some? && dataKey(sourceList[key].value) == k
    }

    /** A tracked trail leads to a package whose resolution lists data with this key as published. */
    ghost predicate PublishedInPackage(k: DataKey)
      reads this
    {
      exists deps, uid ::
        && context.Trail(root, uid, deps) && AllTracked(deps) && context.kind(uid) == Install
        && PublishesPackage(PackageKey(uid, true, context.buildNode(uid).Some?), k)
    }

    ghost predicate PublishesPackage(key: PackageKey, k: DataKey)
      reads this
    {
      && key in packageList && packageList[key].Some?
      && exists p :: p in packageList[key].value && p.1 && dataKey(p.0) == k
    }

    /** A package that is not ignored resolves to a list whose last entry with this key is data. */
    ghost predicate ListsLast(key: PackageKey, k: DataKey, data: SourceData)
      reads this
    {
      && key in packageList && (key.hasClosure || key.track) && packageList[key].Some?
      && LastIn(dataKey, packageList[key].value, k) == Some(data)
    }

    /** What is listed is the last entry of one of these packages, or what was there before any of them. */
    ghost predicate PackagesWin(before: map<DataKey, (SourceData, bool)>, list: map<DataKey, (SourceData, bool)>,
                                packages: set<PackageKey>)
      reads this
    {
      forall k | k in list ::
        || (exists key :: key in packages && ListsLast(key, k, list[k].0))
        || (k in before && before[k].0 == list[k].0 && forall key, d | key in packages :: !ListsLast(key, k, d))
    }

    lemma OnePackageMore(before: map<DataKey, (SourceData, bool)>, middle: map<DataKey, (SourceData, bool)>,
                         after: map<DataKey, (SourceData, bool)>, packages: set<PackageKey>, key: PackageKey)
      requires PackagesWin(before, middle, packages) && key in packageList
      requires if Counted(key) then packageList[key].Some? && Overridden(dataKey, middle, packageList[key].value, after)
               else after == middle
      ensures PackagesWin(before, after, packages + {key})
    {
      forall k | k in after
        ensures || (exists p :: p in packages + {key} && ListsLast(p, k, after[k].0))
                || (k in before && before[k].0 == after[k].0
                    && forall p, d | p in packages + {key} :: !ListsLast(p, k, d))
      {
        if Counted(key) && LastIn(dataKey, packageList[key].value, k).Some? {
          assert ListsLast(key, k, after[k].0);
        } else {
          assert k in middle && middle[k].0 == after[k].0;
          assert forall d :: !ListsLast(key, k, d);
          if p :| p in packages && ListsLast(p, k, middle[k].0) { assert p in packages + {key}; }
        }
        hide LastIn;
      }
    }

    /** What is listed for a key: a package wins over the sources, and in its list the last entry wins. */
    ghost predicate ListedFrom(k: DataKey, data: SourceData)
      reads this
    {
      || (exists key :: ListsLast(key, k, data))
      || ((exists key :: key in sourceList && sourceList[key] == Some(data)) && forall key, d :: !ListsLast(key, k, d))
    }

    lemma WinnerListed(before: map<DataKey, (SourceData, bool)>, list: map<DataKey, (SourceData, bool)>, k: DataKey)
      requires Gathered(dataKey, before, Given(sourceList.Keys, {})) && PackagesWin(before, list, packageList.Keys)
      requires k in list
      ensures ListedFrom(k, list[k].0)
    {
      hide ListsLast, LastIn;
      if !exists key :: key in packageList.Keys && ListsLast(key, k, list[k].0) {
        GivenBySource(before, k);
        OnlyKnownPackages(k);
      }
    }

    lemma OnlyKnownPackages(k: DataKey)
      ensures forall key, d :: ListsLast(key, k, d) ==> key in packageList.Keys
    {
    }

    lemma GivenBySource(before: map<DataKey, (SourceData, bool)>, k: DataKey)
      requires k in before && Gathered(dataKey, before, Given(sourceList.Keys, {}))
      ensures exists key :: key in sourceList && sourceList[key] == Some(before[k].0)
    {
      assert GivenInPackages({}) == {};
      var g :| g in Given(sourceList.Keys, {}) && g.0 == before[k].0;
      hide Gathered;
      var key :| key in sourceList && sourceList[key].Some? && g == (sourceList[key].value, key.publish);
    }

    lemma GivenSource(key: SourceKey, sources: set<SourceKey>)
      requires key in sourceList && sourceList[key].Some?
      ensures Given(sources + {key}, {}) == Given(sources, {}) + {(sourceList[key].value, key.publish)}
    {
    }

    lemma GivenPackage(key: PackageKey, sources: set<SourceKey>, packages: set<PackageKey>)
      requires key in packageList && (Counted(key) ==> packageList[key].Some?)
      ensures Given(sources, packages + {key}) ==
              Given(sources, packages) + if Counted(key) then Listed(packageList[key].value, key.track) else {}
    {
      var before, after := GivenInPackages(packages), GivenInPackages(packages + {key});
      var more := if Counted(key) then Listed(packageList[key].value, key.track) else {};
      forall g | g in after ensures g in before + more {
        var k, p :| k in packages + {key} && k in packageList && (k.hasClosure || k.track) && packageList[k].Some?
                    && p in packageList[k].value && g == (p.0, p.1 && k.track);
        if k in packages { assert g in before; }
      }
      assert before <= after;
      if Counted(key) {
        forall g | g in more ensures g in after {
          var p :| p in packageList[key].value && g == (p.0, p.1 && key.track);
        }
      }
      assert after == before + more;
      hide GivenInPackages;
    }

    /** A dependency of the root, looked through or not. */
    lemma DirectDependency(d: Dep)
      requires Valid() && context.kind(root) != Install && d in context.dependencies(root)
      requires d.kind == BuildDep || d.kind == InstallDep || d.kind == DownloadDep
      ensures var t, b := d.target, context.buildNode(d.target);
              var install := context.kind(t) == Install;
              var through := install && (context.expandPackages || !context.hasComponent(t)) && b.Some?;
              && (install && !through ==> PackageKey(t, d.track, b.Some?) in packageList)
              && (!install ==> forall decl | decl in context.sources(t) ::
                    SourceKey(t, decl.name, d.track && decl.publish) in sourceList)
              && (through && context.kind(b.value) != Install ==> forall decl | decl in context.sources(b.value) ::
                    SourceKey(b.value, decl.name, d.track && decl.publish) in sourceList)
              && (through && context.kind(b.value) == Install ==>
                    PackageKey(b.value, d.track, context.buildNode(b.value).Some?) in packageList)
    {
      var next := if context.kind(d.target) == Install && (context.expandPackages || !context.hasComponent(d.target))
                     && context.buildNode(d.target).Some? then context.buildNode(d.target).value else d.target;
      assert context.Leads(root, d, next);
      assert [d][1..] == [] && context.Trail(next, next, []);
      assert context.Trail(root, next, [d]);
      assert AllTracked([d]) <==> d.track by {
        assert [d][0] == d;
      }
      hide AllTracked, Context.Trail;
      if context.kind(next) == Install {
        assert PackageFoundBy(context, root, true, PackageKey(next, d.track, context.buildNode(next).Some?), [d]);
      } else {
        forall decl | decl in context.sources(next)
          ensures SourceKey(next, decl.name, d.track && decl.publish) in sourceList
        {
          assert SourceFoundBy(context, root, true, SourceKey(next, decl.name, d.track && decl.publish), [d], decl);
        }
      }
    }

    /** With source dependencies only, the closure is the root's own sources. */
    lemma OwnSourcesOnly()
      requires Valid() && context.kind(root) != Install
      requires forall d | d in context.dependencies(root) :: d.kind == SourceDep
      ensures packageList.Keys == {}
      ensures forall key :: key in sourceList <==>
                key.uid == root && exists decl :: decl in context.sources(root) && decl.name == key.name
                                                  && key.publish == decl.publish
    {
      forall to, deps | context.Trail(root, to, deps) ensures deps == [] && to == root {
      }
      forall key, deps ensures !PackageFoundBy(context, root, true, key, deps) {
      }
      forall key ensures key in sourceList <==> Declared(context, root, true, key) {
        if key in sourceList {
          var deps: seq<Dep>, decl :| SourceFoundBy(context, root, true, key, deps, decl);
        }
        if Declared(context, root, true, key) {
          var decl :| decl in context.sources(root) && decl.name == key.name && key.publish == (true && decl.publish);
          assert SourceFoundBy(context, root, true, key, [], decl);
        }
      }
    }

    method GetSourceList() returns (result: Result<map<DataKey, (SourceData, bool)>, Missing>)
      requires Valid()
      ensures result.Err? <==> Unresolved()
      ensures result.Ok? ==> Gathered(dataKey, result.value, Given(sourceList.Keys, packageList.Keys))
      ensures result.Ok? ==> forall k | k in result.value ::
                               result.value[k].1 <==> PublishedAsSource(k) || PublishedInPackage(k)
      ensures result.Ok? ==> forall k | k in result.value :: ListedFrom(k, result.value[k].0)
    {
      hide AllTracked, PublishedAsSource, PublishedInPackage, Valid, Given, PublishedIn, ListedIn, ListedFrom,
           PackagesWin;
      var ok, list := GatherSources();
      if !ok {
        return Err(Missing);
      }
      ghost var before := list;
      ok, list := GatherPackages(list);
      if !ok {
        return Err(Missing);
      }
      forall k | k in list ensures list[k].1 <==> PublishedAsSource(k) || PublishedInPackage(k) {
        PublishedByTrails(k);
      }
      forall k | k in list ensures ListedFrom(k, list[k].0) {
        WinnerListed(before, list, k);
      }
      result := Ok(list);
    }

    /** The loop over the sources of the closure. */
    method GatherSources() returns (ok: bool, list: map<DataKey, (SourceData, bool)>)
      ensures ok <==> forall key | key in sourceList :: sourceList[key].Some?
      ensures ok ==> Gathered(dataKey, list, Given(sourceList.Keys, {}))
    {
      list := map[];
      ghost var done: set<SourceKey> := {};
      var todo := sourceList.Keys;
      while todo != {}
        invariant done + todo == sourceList.Keys
        invariant forall key | key in done :: sourceList[key].Some?
        invariant Gathered(dataKey, list, Given(done, {}))
      {
        hide Gathered, Given;
        var key :| key in todo;
        if sourceList[key] == None {
          return false, map[];
        }
        var data := sourceList[key].value;
        GatheredStep(dataKey, list, Given(done, {}), data, key.publish);
        GivenSource(key, done);
        list := Gather(dataKey, list, data, key.publish);
        todo, done := todo - {key}, done + {key};
      }
      assert done == sourceList.Keys;
      ok := true;
    }

    /** The loop over the packages of the closure. */
    method GatherPackages(before: map<DataKey, (SourceData, bool)>)
      returns (ok: bool, list: map<DataKey, (SourceData, bool)>)
      requires Gathered(dataKey, before, Given(sourceList.Keys, {}))
      ensures ok <==> forall key | key in packageList && Counted(key) :: packageList[key].Some?
      ensures ok ==> Gathered(dataKey, list, Given(sourceList.Keys, packageList.Keys))
      ensures ok ==> PackagesWin(before, list, packageList.Keys)
    {
      hide Gathered, Given, Overridden;
      list := before;
      ghost var done: set<PackageKey> := {};
      var todo := packageList.Keys;
      while todo != {}
        invariant done + todo == packageList.Keys
        invariant forall key | key in done && Counted(key) :: packageList[key].Some?
        invariant Gathered(dataKey, list, Given(sourceList.Keys, done))
        invariant PackagesWin(before, list, done)
      {
        hide PackagesWin;
        ghost var list0 := list;
        var key :| key in todo;
        todo := todo - {key};
        if Counted(key) {
          if packageList[key] == None {
            return false, map[];
          }
          list := AddPackage(dataKey, list, packageList[key].value, key.track, Given(sourceList.Keys, done));
        }
        OnePackageMore(before, list0, list, done, key);
        GivenPackage(key, sourceList.Keys, done);
        assert !Counted(key) ==> Given(sourceList.Keys, done + {key}) == Given(sourceList.Keys, done);
        done := done + {key};
      }
      assert done == packageList.Keys;
      ok := true;
    }

    /** Publication is decided by the tracked trails. */
    lemma PublishedByTrails(k: DataKey)
      requires Valid()
      ensures PublishedIn(dataKey, Given(sourceList.Keys, packageList.Keys), k)
              <==> PublishedAsSource(k) || PublishedInPackage(k)
    {
      hide Valid, PublishedIn, PublishedAsSource, PublishedInPackage, Given;
      PublishedByKeys(k);
      SourcesByTrails(k);
      PackagesByTrails(k);
    }

    lemma PublishedByKeys(k: DataKey)
      ensures PublishedIn(dataKey, Given(sourceList.Keys, packageList.Keys), k) <==>
              || (exists key :: PublishesSource(key, k) && key.publish)
              || (exists key :: PublishesPackage(key, k) && key.track)
    {
      var given := Given(sourceList.Keys, packageList.Keys);
      if PublishedIn(dataKey, given, k) {
        var g :| g in given && dataKey(g.0) == k && g.1;
        if key :| key in sourceList && sourceList[key].Some? && g == (sourceList[key].value, key.publish) {
          assert PublishesSource(key, k) && key.publish;
        } else {
          var key, p :| key in packageList && Counted(key) && packageList[key].Some?
                        && p in packageList[key].value && g == (p.0, p.1 && key.track);
          assert PublishesPackage(key, k) && key.track;
        }
      }
      if key :| PublishesSource(key, k) && key.publish {
        assert (sourceList[key].value, key.publish) in given;
      }
      if key :| PublishesPackage(key, k) && key.track {
        var p :| p in packageList[key].value && p.1 && dataKey(p.0) == k;
        assert (p.0, p.1 && key.track) in given;
      }
    }

    lemma SourcesByTrails(k: DataKey)
      requires Valid()
      ensures (exists key :: PublishesSource(key, k) && key.publish) <==> PublishedAsSource(k)
    {
      if key :| PublishesSource(key, k) && key.publish {
        assert SourceFound(context, root, true, key);
        var deps: seq<Dep>, decl :| SourceFoundBy(context, root, true, key, deps, decl);
        assert key == SourceKey(key.uid, decl.name, true);
      }
    }

    lemma PackagesByTrails(k: DataKey)
      requires Valid()
      ensures (exists key :: PublishesPackage(key, k) && key.track) <==> PublishedInPackage(k)
    {
      if key :| PublishesPackage(key, k) && key.track {
        assert PackageFound(context, root, true, key);
        var deps: seq<Dep> :| PackageFoundBy(context, root, true, key, deps);
        assert key == PackageKey(key.uid, true, context.buildNode(key.uid).Some?);
      }
    }
  }

  predicate Counted(key: PackageKey) {
    key.hasClosure || key.track
  }

  /** The entry for this data, published if it already was or now is. */
  function Gather(dataKey: SourceData -> DataKey, list: map<DataKey, (SourceData, bool)>, data: SourceData,
                  publish: bool)
    : map<DataKey, (SourceData, bool)>
  {
    var k := dataKey(data);
    list[k := (data, (k in list && list[k].1) || publish)]
  }

  ghost predicate ListedIn(given: set<(SourceData, bool)>, data: SourceData) {
    exists g :: g in given && g.0 == data
  }

  ghost predicate PublishedIn(dataKey: SourceData -> DataKey, given: set<(SourceData, bool)>, k: DataKey) {
    exists g :: g in given && dataKey(g.0) == k && g.1
  }

  /** The list has one entry per data key, published exactly if one of the contributions is. */
  ghost predicate Gathered(dataKey: SourceData -> DataKey, list: map<DataKey, (SourceData, bool)>,
                           given: set<(SourceData, bool)>)
  {
    && (forall g | g in given :: dataKey(g.0) in list)
    && (forall k | k in list :: dataKey(list[k].0) == k && ListedIn(given, list[k].0))
    && (forall k | k in list :: list[k].1 <==> PublishedIn(dataKey, given, k))
  }

  lemma OneMore(dataKey: SourceData -> DataKey, given: set<(SourceData, bool)>, data: SourceData, publish: bool)
    ensures forall d :: ListedIn(given + {(data, publish)}, d) <==> ListedIn(given, d) || d == data
    ensures forall k :: PublishedIn(dataKey, given + {(data, publish)}, k)
                        <==> PublishedIn(dataKey, given, k) || (dataKey(data) == k && publish)
  {
    var all := given + {(data, publish)};
    assert (data, publish) in all;
    forall d ensures ListedIn(all, d) <==> ListedIn(given, d) || d == data {
      if ListedIn(given, d) {
        var g :| g in given && g.0 == d;
        assert g in all;
      }
    }
    forall k
      ensures PublishedIn(dataKey, all, k) <==> PublishedIn(dataKey, given, k) || (dataKey(data) == k && publish)
    {
      if PublishedIn(dataKey, given, k) {
        var g :| g in given && dataKey(g.0) == k && g.1;
        assert g in all;
      }
    }
  }

  lemma GatheredStep(dataKey: SourceData -> DataKey, list: map<DataKey, (SourceData, bool)>,
                     given: set<(SourceData, bool)>,
                     data: SourceData, publish: bool)
    requires Gathered(dataKey, list, given)
    ensures Gathered(dataKey, Gather(dataKey, list, data, publish), given + {(data, publish)})
  {
    OneMore(dataKey, given, data, publish);
    if dataKey(data) !in list {
      NotListed(dataKey, list, given, dataKey(data));
    }
    hide ListedIn, PublishedIn;
  }

  lemma NotListed(dataKey: SourceData -> DataKey, list: map<DataKey, (SourceData, bool)>,
                  given: set<(SourceData, bool)>, k: DataKey)
    requires Gathered(dataKey, list, given) && k !in list
    ensures !PublishedIn(dataKey, given, k)
  {
  }

  ghost function Listed(data: PackageData, track: bool): set<(SourceData, bool)> {
    set p | p in data :: (p.0, p.1 && track)
  }

  /** The last entry with this key in what a package resolves to. */
  ghost function LastIn(dataKey: SourceData -> DataKey, data: PackageData, k: DataKey): Option<SourceData> {
    if data == [] then None
    else if dataKey(data[|data| - 1].0) == k then Some(data[|data| - 1].0)
    else LastIn(dataKey, data[..|data| - 1], k)
  }

  lemma LastInStep(dataKey: SourceData -> DataKey, data: PackageData, i: nat, k: DataKey)
    requires i < |data|
    ensures LastIn(dataKey, data[..i + 1], k) ==
            if dataKey(data[i].0) == k then Some(data[i].0) else LastIn(dataKey, data[..i], k)
  {
    assert data[..i + 1][..i] == data[..i];
  }

  /** The last entry for each key in data takes the place of what was listed before. */
  ghost predicate Overridden(dataKey: SourceData -> DataKey, before: map<DataKey, (SourceData, bool)>,
                             data: PackageData, list: map<DataKey, (SourceData, bool)>)
  {
    forall k :: var last := LastIn(dataKey, data, k);
                && (k in list <==> k in before || last.Some?)
                && (k in list && last.Some? ==> list[k].0 == last.value)
                && (k in list && last.None? ==> k in before && list[k].0 == before[k].0)
  }

  lemma OverriddenStep(dataKey: SourceData -> DataKey, before: map<DataKey, (SourceData, bool)>,
                       data: PackageData, list: map<DataKey, (SourceData, bool)>, i: nat, publish: bool)
    requires i < |data| && Overridden(dataKey, before, data[..i], list)
    ensures Overridden(dataKey, before, data[..i + 1], Gather(dataKey, list, data[i].0, publish))
  {
    forall k {
      LastInStep(dataKey, data, i, k);
    }
    hide LastIn;
  }

  /** The loop over what a package resolves to. */
  method AddPackage(dataKey: SourceData -> DataKey, before: map<DataKey, (SourceData, bool)>, data: PackageData,
                    track: bool,
                    ghost given: set<(SourceData, bool)>)
    returns (list: map<DataKey, (SourceData, bool)>)
    requires Gathered(dataKey, before, given)
    ensures Gathered(dataKey, list, given + Listed(data, track)) && Overridden(dataKey, before, data, list)
  {
    hide Gathered, Gather;
    list := before;
    assert given + Listed(data[..0], track) == given;
    for i := 0 to |data|
      invariant Gathered(dataKey, list, given + Listed(data[..i], track))
      invariant Overridden(dataKey, before, data[..i], list)
    {
      hide Overridden;
      OverriddenStep(dataKey, before, data, list, i, data[i].1 && track);
      GatheredStep(dataKey, list, given + Listed(data[..i], track), data[i].0, data[i].1 && track);
      assert data[..i + 1] == data[..i] + [data[i]];
      assert given + Listed(data[..i + 1], track) ==
             given + Listed(data[..i], track) + {(data[i].0, data[i].1 && track)};
      list := Gather(dataKey, list, data[i].0, data[i].1 && track);
    }
    assert data[..|data|] == data;
  }
}
