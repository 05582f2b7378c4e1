/**
 The synchronisation of a target tree with a source tree by two threads: one walks both trees and
 queues operations, the other takes them from the queue and changes the target.

 A file system is a finite map from paths to nodes. A copy and a removal are one step each, no
 operation fails, names are case-sensitive, everything in the source is synchronised, and what is
 only in the target is deleted.
 */
module SyncTrees {
  import opened Wrappers

  type Name(==, !new)
  type Content(==, !new)

  type Path = seq<Name>

  datatype Node = File(content: Content) | Link(to: Content) | Dir

  type FileSystem = map<Path, Node>

  function Get(fs: FileSystem, p: Path): Option<Node> {
    if p in fs then Some(fs[p]) else None
  }

  function Parent(p: Path): Path
    requires p != []
  {
    p[..|p| - 1]
  }

  /** Everything except the root lies in a directory. */
  ghost predicate IsTree(fs: FileSystem) {
    forall p | p in fs && p != [] :: Get(fs, Parent(p)) == Some(Dir)
  }

  predicate SameKind(a: Node, b: Node) {
    a.File? == b.File? && a.Link? == b.Link?
  }

  function Children(fs: FileSystem, p: Path): set<Path> {
    set q | q in fs && q != [] && Parent(q) == p
  }

  /** The two trees at the start, and which same-kind files or links count as different. */
  datatype Job = Job(source: FileSystem, target: FileSystem, stale: (Node, Node) -> bool)

  ghost predicate JobOk(job: Job) {
    IsTree(job.source) && [] in job.source && IsTree(job.target)
  }

  predicate NeedUpdate(job: Job, src: Node, dst: Option<Node>) {
    if dst.None? then true
    else if src.Dir? && dst.value.Dir? then false
    else !SameKind(src, dst.value) || job.stale(src, dst.value)
  }

  // ----- The two threads -----

  /** A queued operation, with the state of the target that the walk saw. */
  datatype Op =
    | Rm(path: Path, dst: Option<Node>)
    | MkDir(path: Path, dst: Option<Node>)
    | Copy(path: Path, src: Node, dst: Option<Node>)

  function RemoveAll(fs: FileSystem, p: Path): FileSystem {
    map q | q in fs && !(p <= q) :: fs[q]
  }

  function Apply(fs: FileSystem, op: Op): FileSystem {
    match op
    case Rm(p, _) => RemoveAll(fs, p)
    case MkDir(p, dst) => if dst == Some(Dir) then fs else RemoveAll(fs, p)[p := Dir]
    case Copy(p, src, _) => RemoveAll(fs, p)[p := src]
  }

  /** What the generator still has to do: yield an entry, or list a directory. */
  datatype Item =
    | Entry(path: Path, src: Option<Node>, dst: Option<Node>)
    | Listing(path: Path, targetIsDir: bool)

  /** visited and executed are history: the entries yielded and the operations carried out. */
  datatype Sync = Sync(
    fs: FileSystem, stack: seq<Item>, queue: seq<Op>,
    visited: set<Path>, executed: set<Path>)

  function Init(job: Job): Sync {
    Sync(job.target, [Entry([], Get(job.source, []), Get(job.target, []))], [], {}, {})
  }

  /** The main loop's decision about an entry. */
  function OpsFor(job: Job, e: Item): seq<Op>
    requires e.Entry?
  {
    if e.src.None? then (if e.dst.Some? then [Rm(e.path, e.dst)] else [])
    else if NeedUpdate(job, e.src.value, e.dst) then
      [if e.src.value.Dir? then MkDir(e.path, e.dst) else Copy(e.path, e.src.value, e.dst)]
    else []
  }

  /** The walking thread yields the next entry and queues what must be done about it. */
  ghost predicate YieldStep(job: Job, s: Sync, t: Sync) {
    && s.stack != [] && s.stack[0].Entry?
    && var e := s.stack[0];
       t == s.(stack := (if e.src == Some(Dir) then [Listing(e.path, e.dst == Some(Dir))] else []) + s.stack[1..],
               queue := s.queue + OpsFor(job, e),
               visited := s.visited + {e.path})
  }

  /** The walking thread lists a directory of both trees, the target as it is now, in any order. */
  ghost predicate ListStep(job: Job, s: Sync, t: Sync, order: seq<Path>) {
    && s.stack != [] && s.stack[0].Listing?
    && var p := s.stack[0].path;
       var found := if s.stack[0].targetIsDir then Children(s.fs, p) else {};
       && (forall i, j | 0 <= i < j < |order| :: order[i] != order[j])
       && (set q | q in order) == Children(job.source, p) + found
       && t == s.(stack := Entries(job, s.fs, found, order) + s.stack[1..])
  }

  function Entries(job: Job, fs: FileSystem, found: set<Path>, order: seq<Path>): (r: seq<Item>)
    ensures |r| == |order|
    ensures forall i | 0 <= i < |order| ::
              r[i] == Entry(order[i], Get(job.source, order[i]), if order[i] in found then Get(fs, order[i]) else None)
  {
    seq(|order|, i requires 0 <= i < |order| =>
      Entry(order[i], Get(job.source, order[i]), if order[i] in found then Get(fs, order[i]) else None))
  }

  /** The other thread carries out the oldest operation. */
  ghost predicate IoStep(s: Sync, t: Sync) {
    && s.queue != []
    && t == s.(fs := Apply(s.fs, s.queue[0]), queue := s.queue[1..], executed := s.executed + {s.queue[0].path})
  }

  ghost predicate Step(job: Job, s: Sync, t: Sync) {
    YieldStep(job, s, t) || (exists order :: ListStep(job, s, t, order)) || IoStep(s, t)
  }

  /** Any interleaving of the two threads from the start. */
  ghost predicate Run(job: Job, run: seq<Sync>) {
    && run != [] && run[0] == Init(job)
    && forall i, j | 0 <= i && j == i + 1 < |run| :: Step(job, run[i], run[j])
  }

  // ----- What is true in every interleaving -----

  /** Something must be done about this entry. */
  ghost predicate HasOp(job: Job, p: Path) {
    if p in job.source then NeedUpdate(job, job.source[p], Get(job.target, p)) else p in job.target
  }

  /** What is done about it, judging from the target at the start. */
  ghost function OpAt(job: Job, p: Path): Op {
    if p !in job.source then Rm(p, Get(job.target, p))
    else if job.source[p].Dir? then MkDir(p, Get(job.target, p))
    else Copy(p, job.source[p], Get(job.target, p))
  }

  /** The walk comes to this path. */
  ghost predicate Relevant(job: Job, p: Path) {
    && (p in job.source || p in job.target)
    && (p == [] || Get(job.source, Parent(p)) == Some(Dir))
  }

  /** An operation has been carried out at p or above it. */
  ghost predicate Touched(s: Sync, p: Path) {
    exists a :: a <= p && a in s.executed
  }

  /** What the target has at p, given the operations carried out so far. */
  ghost function ContentAt(job: Job, s: Sync, p: Path): Option<Node> {
    if !Touched(s, p) then Get(job.target, p)
    else if p in s.executed then Get(job.source, p)
    else None
  }

  ghost predicate ContentOk(job: Job, s: Sync) {
    forall p :: Get(s.fs, p) == ContentAt(job, s, p)
  }

  ghost predicate Queued(s: Sync, p: Path) {
    exists i :: 0 <= i < |s.queue| && s.queue[i].path == p
  }

  ghost predicate QueueSound(job: Job, s: Sync) {
    forall i | 0 <= i < |s.queue| ::
      var p := s.queue[i].path;
      s.queue[i] == OpAt(job, p) && p in s.visited && HasOp(job, p) && p !in s.executed
  }

  ghost predicate ExecutedSound(job: Job, s: Sync) {
    forall p | p in s.executed :: p in s.visited && HasOp(job, p)
  }

  ghost predicate QueueComplete(job: Job, s: Sync) {
    forall p | p in s.visited && HasOp(job, p) :: p in s.executed || Queued(s, p)
  }

  /** No operation is carried out or queued before one at or above its path. */
  ghost predicate QueueOrdered(s: Sync) {
    && (forall i, j | 0 <= i < j < |s.queue| :: !(s.queue[j].path <= s.queue[i].path))
    && (forall i, p | 0 <= i < |s.queue| && p in s.executed :: !(s.queue[i].path <= p))
  }

  /** The queue and the operations carried out are what the entries visited need, ancestors first. */
  ghost predicate QueueOk(job: Job, s: Sync) {
    QueueSound(job, s) && ExecutedSound(job, s) && QueueComplete(job, s) && QueueOrdered(s)
  }

  ghost predicate VisitedOk(job: Job, s: Sync) {
    forall p | p in s.visited :: Relevant(job, p) && (p != [] ==> Parent(p) in s.visited)
  }

  ghost predicate ItemOk(job: Job, s: Sync, item: Item) {
    match item
    case Entry(p, src, dst) =>
      && Relevant(job, p) && p !in s.visited && (p != [] ==> Parent(p) in s.visited)
      && src == Get(job.source, p) && dst == Get(job.target, p)
    case Listing(p, targetIsDir) =>
      && p in s.visited && Get(job.source, p) == Some(Dir)
      && (targetIsDir <==> Get(job.target, p) == Some(Dir))
      && (forall q | q in s.visited && q != [] :: Parent(q) != p)
  }

  ghost predicate StackItems(job: Job, s: Sync) {
    forall i | 0 <= i < |s.stack| :: ItemOk(job, s, s.stack[i])
  }

  ghost predicate ItemsDiffer(a: Item, b: Item) {
    && (a.Entry? == b.Entry? ==> a.path != b.path)
    && (a.Listing? && b.Entry? && b.path != [] ==> Parent(b.path) != a.path)
    && (b.Listing? && a.Entry? && a.path != [] ==> Parent(a.path) != b.path)
  }

  ghost predicate StackDistinct(s: Sync) {
    forall i, j | 0 <= i < j < |s.stack| :: ItemsDiffer(s.stack[i], s.stack[j])
  }

  /** No entry or listing is there twice, and a directory still to be listed has no entries yet. */
  ghost predicate StackOk(job: Job, s: Sync) {
    StackItems(job, s) && StackDistinct(s)
  }

  ghost predicate EntryFor(s: Sync, p: Path) {
    exists i :: 0 <= i < |s.stack| && s.stack[i].Entry? && s.stack[i].path == p
  }

  ghost predicate ListingFor(s: Sync, p: Path) {
    exists i :: 0 <= i < |s.stack| && s.stack[i].Listing? && s.stack[i].path == p
  }

  /** Whatever is relevant has been visited, is on the stack, or will be found by a listing. */
  ghost predicate Covered(job: Job, s: Sync) {
    && ([] in s.visited || EntryFor(s, []))
    && forall p | Relevant(job, p) && p != [] && Parent(p) in s.visited ::
         p in s.visited || EntryFor(s, p) || ListingFor(s, Parent(p))
  }

  ghost predicate Invariant(job: Job, s: Sync) {
    ContentOk(job, s) && QueueOk(job, s) && VisitedOk(job, s) && StackOk(job, s) && Covered(job, s)
  }

  // ----- Paths -----

  lemma PrefixOfParent(a: Path, p: Path)
    requires a <= p && a != p
    ensures p != [] && a <= Parent(p)
  {
  }

  lemma {:induction false} AncestorsAreDirs(fs: FileSystem, a: Path, p: Path)
    requires IsTree(fs) && p in fs && a <= p && a != p
    ensures Get(fs, a) == Some(Dir)
    decreases |p|
  {
    PrefixOfParent(a, p);
    assert Get(fs, Parent(p)) == Some(Dir);
    if a != Parent(p) { AncestorsAreDirs(fs, a, Parent(p)); }
  }

  lemma {:induction false} VisitedAncestors(job: Job, s: Sync, a: Path, p: Path)
    requires VisitedOk(job, s) && p in s.visited && a <= p
    ensures a in s.visited && (a != p ==> Get(job.source, a) == Some(Dir))
    decreases |p|
  {
    if a != p {
      PrefixOfParent(a, p);
      VisitedAncestors(job, s, a, Parent(p));
    }
  }

  /** Below directories of both trees nothing has been done. */
  lemma NothingAbove(job: Job, s: Sync, a: Path, p: Path)
    requires JobOk(job) && QueueOk(job, s) && VisitedOk(job, s)
    requires p in job.target && a <= p && a in s.executed
    requires p in s.visited || (p != [] && Parent(p) in s.visited && Get(job.source, Parent(p)) == Some(Dir))
    ensures a == p
  {
    if a != p {
      PrefixOfParent(a, p);
      AncestorsAreDirs(job.target, a, p);
      VisitedAncestors(job, s, a, if p in s.visited then p else Parent(p));
      DirsNeedNothing(job, a);
    }
  }

  lemma DirsNeedNothing(job: Job, a: Path)
    requires Get(job.source, a) == Some(Dir) && Get(job.target, a) == Some(Dir)
    ensures !HasOp(job, a)
  {
  }

  // ----- Every step keeps the invariant -----

  lemma InitInvariant(job: Job)
    requires JobOk(job)
    ensures Invariant(job, Init(job))
  {
    var s := Init(job);
    assert s.stack[0].Entry? && s.stack[0].path == [];
  }

  lemma OpsForIs(job: Job, s: Sync, e: Item)
    requires e.Entry? && ItemOk(job, s, e)
    ensures OpsFor(job, e) == if HasOp(job, e.path) then [OpAt(job, e.path)] else []
  {
  }

  /** The entry yielded is new, and so is everything below it. */
  lemma YieldIsNew(job: Job, s: Sync)
    requires VisitedOk(job, s) && s.stack != [] && s.stack[0].Entry? && ItemOk(job, s, s.stack[0])
    ensures forall p | p in s.visited :: !(s.stack[0].path <= p)
  {
    var q := s.stack[0].path;
    forall p | p in s.visited ensures !(q <= p) {
      if q <= p { VisitedAncestors(job, s, q, p); }
    }
  }

  lemma YieldQueue(job: Job, s: Sync, t: Sync)
    requires QueueOk(job, s) && VisitedOk(job, s) && StackItems(job, s) && YieldStep(job, s, t)
    ensures QueueOk(job, t)
  {
    var e := s.stack[0];
    assert ItemOk(job, s, e);
    OpsForIs(job, s, e);
    YieldIsNew(job, s);
    hide OpsFor, ItemOk, VisitedOk, StackItems;
    YieldQueueSound(job, s, t, e);
    YieldQueueComplete(job, s, t, e);
    YieldQueueOrdered(job, s, t, e);
  }

  lemma YieldQueueSound(job: Job, s: Sync, t: Sync, e: Item)
    requires QueueSound(job, s) && ExecutedSound(job, s) && e.path !in s.visited
    requires t.queue == s.queue + if HasOp(job, e.path) then [OpAt(job, e.path)] else []
    requires t.visited == s.visited + {e.path} && t.executed == s.executed
    ensures QueueSound(job, t) && ExecutedSound(job, t)
  {
    hide HasOp;
    assert OpAt(job, e.path).path == e.path;
    forall i | 0 <= i < |t.queue|
      ensures var p := t.queue[i].path;
              t.queue[i] == OpAt(job, p) && p in t.visited && HasOp(job, p) && p !in t.executed
    {
      if i < |s.queue| { assert t.queue[i] == s.queue[i]; }
    }
  }

  lemma YieldQueueComplete(job: Job, s: Sync, t: Sync, e: Item)
    requires QueueComplete(job, s)
    requires t.queue == s.queue + if HasOp(job, e.path) then [OpAt(job, e.path)] else []
    requires t.visited == s.visited + {e.path} && t.executed == s.executed
    ensures QueueComplete(job, t)
  {
    hide HasOp;
    forall p | p in t.visited && HasOp(job, p) && p !in t.executed ensures Queued(t, p) {
      if p == e.path {
        assert t.queue[|s.queue|].path == p;
      } else {
        var i :| 0 <= i < |s.queue| && s.queue[i].path == p;
        assert t.queue[i].path == p;
      }
    }
  }

  lemma YieldQueueOrdered(job: Job, s: Sync, t: Sync, e: Item)
    requires QueueSound(job, s) && ExecutedSound(job, s) && QueueOrdered(s)
    requires forall p | p in s.visited :: !(e.path <= p)
    requires t.queue == s.queue + if HasOp(job, e.path) then [OpAt(job, e.path)] else []
    requires t.executed == s.executed
    ensures QueueOrdered(t)
  {
    hide HasOp;
    assert OpAt(job, e.path).path == e.path;
    forall i | 0 <= i < |t.queue| ensures t.queue[i].path == if i < |s.queue| then s.queue[i].path else e.path {
    }
    forall i, j | 0 <= i < j < |t.queue| ensures !(t.queue[j].path <= t.queue[i].path) {
    }
  }

  lemma YieldStack(job: Job, s: Sync, t: Sync)
    requires VisitedOk(job, s) && StackOk(job, s) && YieldStep(job, s, t)
    ensures StackOk(job, t)
  {
    var e := s.stack[0];
    var front := if e.src == Some(Dir) then [Listing(e.path, e.dst == Some(Dir))] else [];
    assert ItemOk(job, s, e);
    forall i | 0 < i < |s.stack| ensures ItemOk(job, t, s.stack[i]) {
      assert ItemOk(job, s, s.stack[i]) && ItemsDiffer(e, s.stack[i]);
    }
    forall i | 0 < i < |s.stack| && front != [] ensures ItemsDiffer(front[0], s.stack[i]) {
      assert ItemOk(job, s, s.stack[i]);
    }
    hide VisitedOk, ItemOk;
    if front != [] {
      YieldListing(job, s, t);
    }
    StackReplaced(job, s, t, front);
  }

  lemma YieldListing(job: Job, s: Sync, t: Sync)
    requires VisitedOk(job, s) && StackOk(job, s) && YieldStep(job, s, t) && s.stack[0].src == Some(Dir)
    ensures ItemOk(job, t, Listing(s.stack[0].path, s.stack[0].dst == Some(Dir)))
  {
    var e := s.stack[0];
    assert ItemOk(job, s, e);
    forall q | q in t.visited && q != [] ensures Parent(q) != e.path {
    }
  }

  /** Putting suitable items in the place of the first one keeps the stack in order. */
  lemma StackReplaced(job: Job, s: Sync, t: Sync, front: seq<Item>)
    requires s.stack != [] && t.stack == front + s.stack[1..] && StackDistinct(s)
    requires forall i | 0 <= i < |front| :: ItemOk(job, t, front[i])
    requires forall i | 0 < i < |s.stack| :: ItemOk(job, t, s.stack[i])
    requires forall i, j | 0 <= i < j < |front| :: ItemsDiffer(front[i], front[j])
    requires forall i, j | 0 <= i < |front| && 0 < j < |s.stack| :: ItemsDiffer(front[i], s.stack[j])
    ensures StackOk(job, t)
  {
    hide ItemOk, ItemsDiffer;
    var n := |front|;
    forall i | 0 <= i < |t.stack| ensures t.stack[i] == if i < n then front[i] else s.stack[i - n + 1] {
    }
  }

  lemma StackShift(s: Sync, t: Sync, front: seq<Item>, p: Path)
    requires s.stack != [] && t.stack == front + s.stack[1..]
    ensures EntryFor(s, p) && !(s.stack[0].Entry? && s.stack[0].path == p) ==> EntryFor(t, p)
    ensures ListingFor(s, p) && !(s.stack[0].Listing? && s.stack[0].path == p) ==> ListingFor(t, p)
    ensures (exists i :: 0 <= i < |front| && front[i].Entry? && front[i].path == p) ==> EntryFor(t, p)
    ensures (exists i :: 0 <= i < |front| && front[i].Listing? && front[i].path == p) ==> ListingFor(t, p)
  {
    if i :| 0 <= i < |s.stack| && s.stack[i].path == p && i > 0 {
      assert t.stack[|front| + i - 1] == s.stack[i];
    }
    forall i | 0 < i < |s.stack| ensures t.stack[|front| + i - 1] == s.stack[i] {
    }
    if EntryFor(s, p) && !(s.stack[0].Entry? && s.stack[0].path == p) {
      var i :| 0 <= i < |s.stack| && s.stack[i].Entry? && s.stack[i].path == p;
      assert t.stack[|front| + i - 1] == s.stack[i];
    }
    if ListingFor(s, p) && !(s.stack[0].Listing? && s.stack[0].path == p) {
      var i :| 0 <= i < |s.stack| && s.stack[i].Listing? && s.stack[i].path == p;
      assert t.stack[|front| + i - 1] == s.stack[i];
    }
    forall i | 0 <= i < |front| ensures t.stack[i] == front[i] {
    }
  }

  lemma YieldCovered(job: Job, s: Sync, t: Sync)
    requires StackOk(job, s) && Covered(job, s) && YieldStep(job, s, t)
    ensures Covered(job, t)
  {
    hide EntryFor, ListingFor;
    var e := s.stack[0];
    var front := if e.src == Some(Dir) then [Listing(e.path, e.dst == Some(Dir))] else [];
    assert ItemOk(job, s, e);
    StackShift(s, t, front, []);
    forall p | Relevant(job, p) && p != [] && Parent(p) in t.visited
      ensures p in t.visited || EntryFor(t, p) || ListingFor(t, Parent(p))
    {
      StackShift(s, t, front, p);
      StackShift(s, t, front, Parent(p));
      if Parent(p) == e.path {
        assert front[0].Listing? && front[0].path == Parent(p);
      }
    }
  }

  lemma YieldInvariant(job: Job, s: Sync, t: Sync)
    requires Invariant(job, s) && YieldStep(job, s, t)
    ensures Invariant(job, t)
  {
    YieldQueue(job, s, t);
    YieldStack(job, s, t);
    YieldCovered(job, s, t);
    hide StackOk, QueueOk, Covered;
    assert t.visited == s.visited + {s.stack[0].path} && t.fs == s.fs && t.executed == s.executed;
    YieldVisited(job, s, t);
    forall p ensures Get(t.fs, p) == ContentAt(job, t, p) {
      assert Touched(t, p) <==> Touched(s, p);
    }
  }

  lemma YieldVisited(job: Job, s: Sync, t: Sync)
    requires VisitedOk(job, s) && StackOk(job, s) && YieldStep(job, s, t)
    ensures VisitedOk(job, t)
  {
    assert ItemOk(job, s, s.stack[0]);
  }

  /** What a listing finds in the target is what was there at the start. */
  lemma ListingIsFresh(job: Job, s: Sync, q: Path)
    requires JobOk(job) && Invariant(job, s) && s.stack != [] && s.stack[0].Listing?
    requires q != [] && Parent(q) == s.stack[0].path
    ensures s.stack[0].targetIsDir ==> Get(s.fs, q) == Get(job.target, q)
    ensures !s.stack[0].targetIsDir ==> q !in job.target
    ensures q !in s.visited
  {
    hide Covered;
    assert ItemOk(job, s, s.stack[0]);
    if s.stack[0].targetIsDir {
      forall a | a <= q && a in s.executed ensures false {
        assert a != q;
        PrefixOfParent(a, q);
        NothingAbove(job, s, a, Parent(q));
      }
    }
  }

  lemma ListedEntry(job: Job, s: Sync, t: Sync, order: seq<Path>, i: nat)
    requires JobOk(job) && Invariant(job, s) && ListStep(job, s, t, order) && i < |order|
    ensures i < |t.stack| && t.stack[i] == Entry(order[i], Get(job.source, order[i]), Get(job.target, order[i]))
    ensures ItemOk(job, t, t.stack[i]) && order[i] != [] && Parent(order[i]) == s.stack[0].path
  {
    hide ContentOk, QueueOk, Covered;
    var p, q := s.stack[0].path, order[i];
    assert ItemOk(job, s, s.stack[0]);
    assert q in (set x | x in order);
    ListingIsFresh(job, s, q);
  }

  lemma ListStack(job: Job, s: Sync, t: Sync, order: seq<Path>)
    requires JobOk(job) && Invariant(job, s) && ListStep(job, s, t, order)
    ensures StackOk(job, t)
  {
    var front := t.stack[..|order|];
    forall i | 0 <= i < |order|
      ensures front[i].Entry? && front[i].path == order[i] && ItemOk(job, t, front[i])
      ensures order[i] != [] && Parent(order[i]) == s.stack[0].path
    {
      ListedEntry(job, s, t, order, i);
    }
    hide ContentOk, QueueOk, VisitedOk, Covered;
    forall i | 0 < i < |s.stack| ensures ItemOk(job, t, s.stack[i]) {
      assert ItemOk(job, s, s.stack[i]);
    }
    forall i, j | 0 <= i < |front| && 0 < j < |s.stack| ensures ItemsDiffer(front[i], s.stack[j]) {
      assert ItemsDiffer(s.stack[0], s.stack[j]);
    }
    hide ItemOk;
    assert t.stack == front + s.stack[1..];
    StackReplaced(job, s, t, front);
  }

  lemma ListCovered(job: Job, s: Sync, t: Sync, order: seq<Path>)
    requires JobOk(job) && Invariant(job, s) && ListStep(job, s, t, order)
    ensures Covered(job, t)
  {
    hide EntryFor, ListingFor, ContentOk, QueueOk;
    var dir := s.stack[0].path;
    var found := if s.stack[0].targetIsDir then Children(s.fs, dir) else {};
    var front := Entries(job, s.fs, found, order);
    assert ItemOk(job, s, s.stack[0]);
    StackShift(s, t, front, []);
    forall p | Relevant(job, p) && p != [] && Parent(p) in t.visited
      ensures p in t.visited || EntryFor(t, p) || ListingFor(t, Parent(p))
    {
      StackShift(s, t, front, p);
      StackShift(s, t, front, Parent(p));
      if Parent(p) == dir {
        ListingIsFresh(job, s, p);
        assert p in Children(job.source, dir) + found;
        assert p in (set q | q in order);
        var i :| 0 <= i < |order| && order[i] == p;
        assert front[i].Entry? && front[i].path == p;
      }
    }
  }

  lemma ListInvariant(job: Job, s: Sync, t: Sync, order: seq<Path>)
    requires JobOk(job) && Invariant(job, s) && ListStep(job, s, t, order)
    ensures Invariant(job, t)
  {
    ListStack(job, s, t, order);
    ListCovered(job, s, t, order);
    hide StackOk, Covered, Children, HasOp, OpAt;
    SameOperations(job, s, t);
  }

  /** Contents and queue do not depend on the stack. */
  lemma SameOperations(job: Job, s: Sync, t: Sync)
    requires t.fs == s.fs && t.queue == s.queue && t.visited == s.visited && t.executed == s.executed
    ensures ContentOk(job, s) ==> ContentOk(job, t)
    ensures QueueOk(job, s) ==> QueueOk(job, t)
    ensures VisitedOk(job, s) ==> VisitedOk(job, t)
  {
    hide HasOp, OpAt, Relevant;
    forall p ensures (Queued(t, p) <==> Queued(s, p)) && (Touched(t, p) <==> Touched(s, p)) {
    }
  }

  /** Carrying out the oldest operation changes what is at and below its path, and nothing else. */
  lemma IoContent(job: Job, s: Sync, t: Sync, p: Path)
    requires Invariant(job, s) && IoStep(s, t)
    ensures Get(t.fs, p) == ContentAt(job, t, p)
  {
    hide VisitedOk, StackOk, Covered;
    var op := s.queue[0];
    var q := op.path;
    assert op == OpAt(job, q) && HasOp(job, q);
    assert Get(s.fs, p) == ContentAt(job, s, p);
    if q <= p {
      assert q in t.executed && Touched(t, p);
      if p != q { assert p !in s.executed; }
    } else {
      assert Touched(t, p) <==> Touched(s, p);
    }
  }

  lemma IoQueue(job: Job, s: Sync, t: Sync)
    requires QueueOk(job, s) && IoStep(s, t)
    ensures QueueOk(job, t)
  {
    hide QueueSound, ExecutedSound, QueueComplete, QueueOrdered, IoStep;
    IoQueueSound(job, s, t);
    IoQueueComplete(job, s, t);
    IoQueueOrdered(s, t);
  }

  lemma IoQueueSound(job: Job, s: Sync, t: Sync)
    requires QueueSound(job, s) && ExecutedSound(job, s) && QueueOrdered(s) && IoStep(s, t)
    ensures QueueSound(job, t) && ExecutedSound(job, t)
  {
    hide HasOp, OpAt, Apply;
    var q := s.queue[0].path;
    assert q <= q;
    forall i | 0 <= i < |t.queue| ensures t.queue[i] == s.queue[i + 1] && t.queue[i].path != q {
    }
  }

  lemma IoQueueComplete(job: Job, s: Sync, t: Sync)
    requires QueueComplete(job, s) && IoStep(s, t)
    ensures QueueComplete(job, t)
  {
    hide HasOp, OpAt, Apply;
    forall p | p in t.visited && HasOp(job, p) && p !in t.executed ensures Queued(t, p) {
      var i :| 0 <= i < |s.queue| && s.queue[i].path == p;
      assert t.queue[i - 1].path == p;
    }
  }

  lemma IoQueueOrdered(s: Sync, t: Sync)
    requires QueueOrdered(s) && IoStep(s, t)
    ensures QueueOrdered(t)
  {
    hide Apply;
    forall i | 0 <= i < |t.queue| ensures t.queue[i] == s.queue[i + 1] {
    }
  }

  lemma IoInvariant(job: Job, s: Sync, t: Sync)
    requires Invariant(job, s) && IoStep(s, t)
    ensures Invariant(job, t)
  {
    IoQueue(job, s, t);
    forall p ensures Get(t.fs, p) == ContentAt(job, t, p) {
      IoContent(job, s, t, p);
    }
    hide ContentAt, QueueOk, Apply, StackOk, Covered;
    SameWalk(job, s, t);
  }

  /** What the walk has done and has to do does not depend on the operations. */
  lemma SameWalk(job: Job, s: Sync, t: Sync)
    requires t.stack == s.stack && t.visited == s.visited
    ensures VisitedOk(job, s) ==> VisitedOk(job, t)
    ensures StackOk(job, s) ==> StackOk(job, t)
    ensures Covered(job, s) ==> Covered(job, t)
  {
    hide Relevant;
    forall i | 0 <= i < |t.stack| ensures ItemOk(job, s, s.stack[i]) ==> ItemOk(job, t, t.stack[i]) {
    }
    forall p ensures (EntryFor(s, p) <==> EntryFor(t, p)) && (ListingFor(s, p) <==> ListingFor(t, p)) {
    }
  }

  lemma StepInvariant(job: Job, s: Sync, t: Sync)
    requires JobOk(job) && Invariant(job, s) && Step(job, s, t)
    ensures Invariant(job, t)
  {
    hide Invariant;
    if YieldStep(job, s, t) {
      YieldInvariant(job, s, t);
    } else if order :| ListStep(job, s, t, order) {
      ListInvariant(job, s, t, order);
    } else {
      IoInvariant(job, s, t);
    }
  }

  lemma {:induction false} RunInvariant(job: Job, run: seq<Sync>, i: nat)
    requires JobOk(job) && Run(job, run) && i < |run|
    ensures Invariant(job, run[i])
    decreases i
  {
    hide Invariant, Step;
    if i == 0 {
      InitInvariant(job);
    } else {
      RunInvariant(job, run, i - 1);
      assert Step(job, run[i - 1], run[i]);
      StepInvariant(job, run[i - 1], run[i]);
    }
  }

  // ----- Results -----

  /** The thread that works finds the target at each path as the walk saw it, in an existing directory. */
  ghost predicate MeetsExpectation(fs: FileSystem, op: Op) {
    && Get(fs, op.path) == op.dst
    && (op.path != [] ==> Get(fs, Parent(op.path)) == Some(Dir))
  }

  lemma NotQueuedAbove(s: Sync, r: Path)
    requires QueueOrdered(s) && s.queue != [] && r <= s.queue[0].path && r != s.queue[0].path
    ensures !Queued(s, r)
  {
    forall i | 0 <= i < |s.queue| ensures s.queue[i].path != r {
    }
  }

  lemma ParentIsThere(job: Job, s: Sync)
    requires JobOk(job) && Invariant(job, s) && s.queue != [] && s.queue[0].path != []
    ensures Get(s.fs, Parent(s.queue[0].path)) == Some(Dir)
  {
    hide StackOk, Covered;
    var q := s.queue[0].path;
    var r := Parent(q);
    assert q in s.visited && r <= q && r <= r;
    VisitedAncestors(job, s, r, q);
    assert Get(s.fs, r) == ContentAt(job, s, r);
    if HasOp(job, r) {
      NotQueuedAbove(s, r);
      assert Touched(s, r);
    } else {
      forall a | a <= r && a in s.executed ensures false {
        NothingAbove(job, s, a, r);
      }
    }
  }

  lemma OperationMeetsExpectation(job: Job, s: Sync)
    requires JobOk(job) && Invariant(job, s) && s.queue != []
    ensures MeetsExpectation(s.fs, s.queue[0])
  {
    hide StackOk, Covered;
    var op := s.queue[0];
    var q := op.path;
    assert op == OpAt(job, q) && q in s.visited && q !in s.executed;
    assert Get(s.fs, q) == ContentAt(job, s, q);
    if a :| a <= q && a in s.executed {
      if q in job.target { NothingAbove(job, s, a, q); }
    }
    if q != [] { ParentIsThere(job, s); }
  }

  /** When a directory of the target is listed, no operation at or below it has been queued or carried out. */
  ghost predicate NothingBelow(s: Sync, dir: Path) {
    && (forall i | 0 <= i < |s.queue| :: !(dir < s.queue[i].path))
    && (forall p | p in s.executed :: !(dir < p))
  }

  lemma ListedBeforeTouched(job: Job, s: Sync)
    requires JobOk(job) && Invariant(job, s) && s.stack != [] && s.stack[0].Listing?
    ensures NothingBelow(s, s.stack[0].path)
  {
    hide ContentOk, Covered;
    var dir := s.stack[0].path;
    assert ItemOk(job, s, s.stack[0]);
    forall p | p in s.visited ensures !(dir < p) {
      if dir < p {
        var child := p[..|dir| + 1];
        assert child <= p && Parent(child) == dir;
        VisitedAncestors(job, s, child, p);
      }
    }
  }

  /** The synchronised tree: the source's, but with the target's node where that needed no update. */
  ghost function Synced(job: Job): FileSystem {
    map p | p in job.source ::
      if p in job.target && !NeedUpdate(job, job.source[p], Some(job.target[p])) then job.target[p] else job.source[p]
  }

  lemma {:induction false} AllVisited(job: Job, s: Sync, p: Path)
    requires JobOk(job) && Invariant(job, s) && s.stack == []
    requires Relevant(job, p)
    ensures p in s.visited
    decreases |p|
  {
    if p != [] {
      assert Parent(p) in job.source;
      AllVisited(job, s, Parent(p));
    }
  }

  lemma {:induction false} OldEntriesGone(job: Job, s: Sync, p: Path)
    requires JobOk(job) && Invariant(job, s) && s.stack == [] && s.queue == []
    requires p in job.target && p !in job.source
    ensures Touched(s, p)
    decreases |p|
  {
    assert p != [] && p <= p && Parent(p) <= p;
    var r := Parent(p);
    if r !in job.source {
      OldEntriesGone(job, s, r);
      var a :| a <= r && a in s.executed;
      assert a <= p;
    } else if job.source[r].Dir? {
      AllVisited(job, s, p);
      assert p in s.executed;
    } else {
      assert Relevant(job, r);
      AllVisited(job, s, r);
      assert r in s.executed;
    }
  }

  lemma FinalContent(job: Job, s: Sync, p: Path)
    requires JobOk(job) && Invariant(job, s) && s.stack == [] && s.queue == []
    ensures Get(s.fs, p) == Get(Synced(job), p)
  {
    assert Get(s.fs, p) == ContentAt(job, s, p) && p <= p;
    if p in job.source {
      assert Relevant(job, p);
      AllVisited(job, s, p);
      if !HasOp(job, p) {
        forall a | a <= p && a in s.executed ensures false {
          NothingAbove(job, s, a, p);
        }
      } else {
        assert p in s.executed;
      }
    } else if p in job.target {
      OldEntriesGone(job, s, p);
    }
  }

  /**
   Every interleaving of the two threads that comes to its end leaves exactly the source's paths. What is
   missing in the target, or of another kind there, ends as in the source; files in both trees, and links
   in both, end as the source's if they count as different and as the target's if not; directories stay.
   */
  lemma SyncResult(job: Job, run: seq<Sync>)
    requires JobOk(job) && Run(job, run)
    requires run[|run| - 1].stack == [] && run[|run| - 1].queue == []
    ensures var fs := run[|run| - 1].fs;
            && fs.Keys == job.source.Keys
            && (forall p | p in fs && p !in job.target :: fs[p] == job.source[p])
            && (forall p | p in fs && p in job.target ::
                  var src, dst := job.source[p], job.target[p];
                  && (src.File? && dst.File? ==> fs[p] == if job.stale(src, dst) then src else dst)
                  && (src.Link? && dst.Link? ==> fs[p] == if job.stale(src, dst) then src else dst)
                  && (src.Dir? && dst.Dir? ==> fs[p] == Dir)
                  && (src.File? && !dst.File? ==> fs[p] == src)
                  && (src.Link? && !dst.Link? ==> fs[p] == src)
                  && (src.Dir? && !dst.Dir? ==> fs[p] == src))
  {
    hide *;
    ReachesSynced(job, run);
    SyncedMeans(job);
  }

  lemma ReachesSynced(job: Job, run: seq<Sync>)
    requires JobOk(job) && Run(job, run)
    requires run[|run| - 1].stack == [] && run[|run| - 1].queue == []
    ensures run[|run| - 1].fs == Synced(job)
  {
    var s := run[|run| - 1];
    RunInvariant(job, run, |run| - 1);
    forall p ensures Get(s.fs, p) == Get(Synced(job), p) {
      FinalContent(job, s, p);
    }
    SameEverywhere(s.fs, Synced(job));
  }

  /** What the synchronised tree has at each path, by the kinds of the two nodes. */
  lemma SyncedMeans(job: Job)
    ensures Synced(job).Keys == job.source.Keys
    ensures forall p | p in job.source && p !in job.target :: Synced(job)[p] == job.source[p]
    ensures forall p | p in job.source && p in job.target ::
              var src, dst := job.source[p], job.target[p];
              && (src.File? && dst.File? ==> Synced(job)[p] == if job.stale(src, dst) then src else dst)
              && (src.Link? && dst.Link? ==> Synced(job)[p] == if job.stale(src, dst) then src else dst)
              && (src.Dir? && dst.Dir? ==> Synced(job)[p] == Dir)
              && (src.File? && !dst.File? ==> Synced(job)[p] == src)
              && (src.Link? && !dst.Link? ==> Synced(job)[p] == src)
              && (src.Dir? && !dst.Dir? ==> Synced(job)[p] == src)
  {
  }

  lemma SameEverywhere(a: FileSystem, b: FileSystem)
    requires forall p :: Get(a, p) == Get(b, p)
    ensures a == b
  {
    forall p ensures p in a <==> p in b {
      assert Get(a, p) == Get(b, p);
    }
    forall p | p in a ensures a[p] == b[p] {
      assert Get(a, p) == Get(b, p);
    }
  }

  /**
   In every interleaving, no operation meets a target that differs from what the walk saw, and no
   operation below a directory is carried out or even queued before the directory is listed.
   */
  lemma SyncIsRaceFree(job: Job, run: seq<Sync>, i: nat)
    requires JobOk(job) && Run(job, run) && i < |run|
    ensures run[i].queue != [] ==> MeetsExpectation(run[i].fs, run[i].queue[0])
    ensures run[i].stack != [] && run[i].stack[0].Listing? ==> NothingBelow(run[i], run[i].stack[0].path)
  {
    RunInvariant(job, run, i);
    hide Invariant;
    if run[i].queue != [] { OperationMeetsExpectation(job, run[i]); }
    if run[i].stack != [] && run[i].stack[0].Listing? { ListedBeforeTouched(job, run[i]); }
  }

  /** What is left to do: entries to visit, directories to list and operations to carry out. */
  ghost function Work(job: Job, s: Sync): nat {
    3 * |job.source.Keys + job.target.Keys - s.visited| + Listings(s.stack) + |s.queue|
  }

  ghost function Listings(stack: seq<Item>): nat {
    if stack == [] then 0 else Listings(stack[1..]) + if stack[0].Listing? then 1 else 0
  }

  lemma {:induction false} EntriesAreNoListings(entries: seq<Item>, rest: seq<Item>)
    requires forall i | 0 <= i < |entries| :: entries[i].Entry?
    ensures Listings(entries + rest) == Listings(rest)
    decreases |entries|
  {
    if entries == [] {
      assert entries + rest == rest;
    } else {
      assert (entries + rest)[1..] == entries[1..] + rest;
      EntriesAreNoListings(entries[1..], rest);
    }
  }

  /** A visited entry leaves at most a listing and an operation behind. */
  lemma YieldWorks(job: Job, s: Sync, t: Sync)
    requires StackItems(job, s) && YieldStep(job, s, t)
    ensures Work(job, t) < Work(job, s)
  {
    var e, all := s.stack[0], job.source.Keys + job.target.Keys;
    assert ItemOk(job, s, e) && |t.queue| <= |s.queue| + 1;
    YieldListings(job, s, t);
    OneLess(all, s.visited, e.path);
    assert t.visited == s.visited + {e.path};
    hide *;
    WorkIs(job, s);
    WorkIs(job, t);
  }

  lemma WorkIs(job: Job, s: Sync)
    ensures Work(job, s) == 3 * |job.source.Keys + job.target.Keys - s.visited| + Listings(s.stack) + |s.queue|
  {
  }

  lemma YieldListings(job: Job, s: Sync, t: Sync)
    requires YieldStep(job, s, t)
    ensures Listings(t.stack) <= Listings(s.stack) + 1
  {
    hide OpsFor;
    var e, rest := s.stack[0], s.stack[1..];
    assert Listings(s.stack) == Listings(rest);
    if e.src == Some(Dir) {
      assert t.stack[1..] == rest;
    } else {
      assert t.stack == rest;
    }
  }

  lemma OneLess(all: set<Path>, visited: set<Path>, p: Path)
    requires p in all && p !in visited
    ensures |all - (visited + {p})| == |all - visited| - 1
  {
    assert all - (visited + {p}) == all - visited - {p};
  }

  lemma ListWorks(job: Job, s: Sync, t: Sync, order: seq<Path>)
    requires ListStep(job, s, t, order)
    ensures Work(job, t) < Work(job, s)
  {
    var p := s.stack[0].path;
    var found := if s.stack[0].targetIsDir then Children(s.fs, p) else {};
    hide Children;
    EntriesAreNoListings(Entries(job, s.fs, found, order), s.stack[1..]);
  }

  lemma IoWorks(job: Job, s: Sync, t: Sync)
    requires IoStep(s, t)
    ensures Work(job, t) < Work(job, s)
  {
    hide Apply, Listings;
  }

  /** Every step leaves less work. */
  lemma StepWorks(job: Job, s: Sync, t: Sync)
    requires JobOk(job) && Invariant(job, s) && Step(job, s, t)
    ensures Work(job, t) < Work(job, s)
  {
    hide ContentOk, QueueOk, Covered, Work, YieldStep, ListStep, IoStep, StackItems, StackDistinct, JobOk;
    if YieldStep(job, s, t) {
      YieldWorks(job, s, t);
    } else if order :| ListStep(job, s, t, order) {
      ListWorks(job, s, t, order);
    } else {
      IoWorks(job, s, t);
    }
  }

  lemma {:induction false} WorkLeft(job: Job, run: seq<Sync>, i: nat)
    requires JobOk(job) && Run(job, run) && i < |run|
    ensures Work(job, run[i]) + i <= 3 * |job.source.Keys + job.target.Keys|
    decreases i
  {
    hide Work, Invariant, Step, JobOk;
    if i == 0 {
      InitialWork(job);
    } else {
      WorkLeft(job, run, i - 1);
      assert Step(job, run[i - 1], run[i]);
      RunInvariant(job, run, i - 1);
      StepWorks(job, run[i - 1], run[i]);
    }
  }

  lemma InitialWork(job: Job)
    ensures Work(job, Init(job)) == 3 * |job.source.Keys + job.target.Keys|
  {
    assert job.source.Keys + job.target.Keys - Init(job).visited == job.source.Keys + job.target.Keys;
    var stack := Init(job).stack;
    assert stack[1..] == [] && Listings(stack[1..]) == 0;
    assert Listings(stack) == 0 && |Init(job).queue| == 0;
  }

  /** No interleaving goes on for ever: each path costs at most a visit, a listing and an operation. */
  lemma SyncEnds(job: Job, run: seq<Sync>)
    requires JobOk(job) && Run(job, run)
    ensures |run| <= 3 * |job.source.Keys + job.target.Keys| + 1
  {
    WorkLeft(job, run, |run| - 1);
  }

  /** Until both threads are done, one of them can take a step. */
  lemma SyncNeverStuck(job: Job, s: Sync)
    requires s.stack != [] || s.queue != []
    ensures exists t :: Step(job, s, t)
  {
    if s.queue != [] {
      var t := s.(fs := Apply(s.fs, s.queue[0]), queue := s.queue[1..], executed := s.executed + {s.queue[0].path});
      assert IoStep(s, t) && Step(job, s, t);
    } else if s.stack[0].Entry? {
      var e := s.stack[0];
      var t := s.(stack := (if e.src == Some(Dir) then [Listing(e.path, e.dst == Some(Dir))] else []) + s.stack[1..],
                  queue := s.queue + OpsFor(job, e),
                  visited := s.visited + {e.path});
      assert YieldStep(job, s, t) && Step(job, s, t);
    } else {
      var p := s.stack[0].path;
      var found := if s.stack[0].targetIsDir then Children(s.fs, p) else {};
      var order := AnyOrder(Children(job.source, p) + found);
      var t := s.(stack := Entries(job, s.fs, found, order) + s.stack[1..]);
      assert ListStep(job, s, t, order) && Step(job, s, t);
    }
  }

  lemma {:induction false} AnyOrder(paths: set<Path>) returns (order: seq<Path>)
    ensures (set q | q in order) == paths
    ensures forall i, j | 0 <= i < j < |order| :: order[i] != order[j]
    decreases |paths|
  {
    if paths == {} {
      order := [];
    } else {
      var p :| p in paths;
      var rest := AnyOrder(paths - {p});
      assert p !in (set q | q in rest);
      order := [p] + rest;
      assert (set q | q in order) == {p} + (set q | q in rest);
    }
  }
}
