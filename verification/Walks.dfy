/**
 The layer that decides for each vertex of a run whether to execute, skip or fail its job, that
 records where failures come from, and that keeps fingerprints from one run to the next.

 A walk's history is the scheduler's log together with what the world answered: the fingerprints
 computed and the statuses of the jobs. The statements are about every such history.
 */
module Walks {
  import opened Wrappers
  import opened Graphs
  import opened JobLogs

  type Fingerprint(==, !new)

  datatype ReturnValue = Success | Failure | NotReady | ForceFail | UnknownStatus | Skip | Unchanged

  /** The statuses that do not make a successor fail. */
  predicate Good(status: ReturnValue) {
    status == Success || status == Skip || status == Unchanged
  }

  /** Three statuses are good, the other four are not. */
  lemma StatusesMean()
    ensures forall s :: Good(s) <==> s in {Success, Skip, Unchanged}
    ensures forall s :: !Good(s) <==> s in {Failure, NotReady, ForceFail, UnknownStatus}
  {
  }

  datatype Decision = Execute | SkipJob | FailJob

  /** The dictionaries of a walk, and the place where fingerprints survive it. */
  datatype WalkState = WalkState(
    prevFingerprints: map<Vertex, Option<Fingerprint>>,
    newFingerprints: map<Vertex, Option<Fingerprint>>,
    jobStatus: map<Vertex, ReturnValue>,
    failureSource: map<Vertex, set<Vertex>>,
    saved: map<Vertex, Fingerprint>)

  function Load(saved: map<Vertex, Fingerprint>, uid: Vertex): Option<Fingerprint> {
    if uid in saved then Some(saved[uid]) else None
  }

  /** Saving None deletes what was saved. */
  function Save(saved: map<Vertex, Fingerprint>, uid: Vertex, f: Option<Fingerprint>): map<Vertex, Fingerprint> {
    if f.Some? then saved[uid := f.value] else saved - {uid}
  }

  /** What was saved for uid last, if it was saved at all. */
  function LastSaved(saves: seq<(Vertex, Option<Fingerprint>)>, uid: Vertex): Option<Option<Fingerprint>> {
    if saves == [] then None
    else if saves[|saves| - 1].0 == uid then Some(saves[|saves| - 1].1)
    else LastSaved(saves[..|saves| - 1], uid)
  }

  function SaveAll(saved: map<Vertex, Fingerprint>, saves: seq<(Vertex, Option<Fingerprint>)>)
    : map<Vertex, Fingerprint>
  {
    if saves == [] then saved
    else
      var (uid, f) := saves[|saves| - 1];
      Save(SaveAll(saved, saves[..|saves| - 1]), uid, f)
  }

  /** After any saves, loading gives what was saved last for this vertex, and what was there before if nothing was. */
  lemma {:induction false} StoreRemembers(saved: map<Vertex, Fingerprint>, saves: seq<(Vertex, Option<Fingerprint>)>,
                                          uid: Vertex)
    ensures Load(SaveAll(saved, saves), uid) ==
            match LastSaved(saves, uid) { case None => Load(saved, uid) case Some(f) => f }
    decreases |saves|
  {
    if saves != [] {
      StoreRemembers(saved, saves[..|saves| - 1], uid);
    }
  }

  /** The vertices among these whose job ended badly. */
  function FailedAmong(status: map<Vertex, ReturnValue>, vertices: set<Vertex>): set<Vertex> {
    set k | k in vertices && k in status && !Good(status[k])
  }

  /** The sources of the failure of one predecessor: its own when it was not forced to fail. */
  function SourcesOf(sources: map<Vertex, set<Vertex>>, k: Vertex): set<Vertex> {
    if k in sources then sources[k] else {k}
  }

  function AllSources(sources: map<Vertex, set<Vertex>>, failed: set<Vertex>): set<Vertex> {
    set k, s | k in failed && s in SourcesOf(sources, k) :: s
  }

  lemma SourcesMean(sources: map<Vertex, set<Vertex>>, failed: set<Vertex>, a: Vertex)
    ensures a in AllSources(sources, failed) <==>
            exists k :: k in failed && if k in sources then a in sources[k] else a == k
  {
    if k :| k in failed && a in SourcesOf(sources, k) {
      assert if k in sources then a in sources[k] else a == k;
    }
    if k :| k in failed && if k in sources then a in sources[k] else a == k {
      assert a in SourcesOf(sources, k);
    }
  }

  predicate ShouldExecute(w: WalkState, predecessors: set<Vertex>,
                          previous: Option<Fingerprint>, fresh_: Option<Fingerprint>) {
    || previous == None || fresh_ == None
    || (exists u :: u in predecessors && u in w.newFingerprints && w.newFingerprints[u] == None)
    || previous != fresh_
  }

  /** What get_job decides, given the fingerprint predicted for uid. */
  function Decide(w: WalkState, uid: Vertex, predecessors: set<Vertex>, prediction: Option<Fingerprint>): Decision {
    if FailedAmong(w.jobStatus, predecessors) != {} then FailJob
    else if ShouldExecute(w, predecessors, Load(w.saved, uid), prediction) then Execute
    else SkipJob
  }

  /** The dictionaries after get_job. */
  function AfterGetJob(w: WalkState, uid: Vertex, predecessors: set<Vertex>, prediction: Option<Fingerprint>)
    : WalkState
  {
    var failed := FailedAmong(w.jobStatus, predecessors);
    WalkState(
      w.prevFingerprints[uid := Load(w.saved, uid)],
      w.newFingerprints[uid := prediction],
      w.jobStatus,
      if failed != {} then w.failureSource[uid := AllSources(w.failureSource, failed)] else w.failureSource,
      w.saved - {uid})
  }

  /** The dictionaries after collect. */
  function AfterCollect(w: WalkState, uid: Vertex, status: ReturnValue, fingerprint: Option<Fingerprint>): WalkState {
    WalkState(
      w.prevFingerprints,
      if Good(status) then w.newFingerprints[uid := fingerprint] else w.newFingerprints,
      w.jobStatus[uid := status],
      w.failureSource,
      if Good(status) then Save(w.saved, uid, fingerprint) else w.saved)
  }

  class Walk {
    var prevFingerprints: map<Vertex, Option<Fingerprint>>
    var newFingerprints: map<Vertex, Option<Fingerprint>>
    var jobStatus: map<Vertex, ReturnValue>
    var failureSource: map<Vertex, set<Vertex>>
    var saved: map<Vertex, Fingerprint>

    function State(): WalkState
      reads this
    {
      WalkState(prevFingerprints, newFingerprints, jobStatus, failureSource, saved)
    }

    constructor (saved: map<Vertex, Fingerprint>)
      ensures State() == WalkState(map[], map[], map[], map[], saved)
    {
      prevFingerprints := map[];
      newFingerprints := map[];
      jobStatus := map[];
      failureSource := map[];
      this.saved := saved;
    }

    method LoadPreviousFingerprint(uid: Vertex) returns (f: Option<Fingerprint>)
      ensures f == Load(saved, uid)
      ensures f.Some? <==> uid in saved
    {
      f := if uid in saved then Some(saved[uid]) else None;
    }

    method SaveFingerprint(uid: Vertex, f: Option<Fingerprint>)
      modifies this`saved
      ensures saved == Save(old(saved), uid, f)
      ensures Load(saved, uid) == f && forall v | v != uid :: Load(saved, v) == Load(old(saved), v)
    {
      match f
      case None => saved := saved - {uid};
      case Some(value) => saved := saved[uid := value];
    }

    method ShouldExecuteAction(uid: Vertex, predecessors: set<Vertex>, previous: Option<Fingerprint>,
                               fresh_: Option<Fingerprint>)
      returns (execute: bool)
      requires predecessors <= newFingerprints.Keys
      ensures execute == ShouldExecute(State(), predecessors, previous, fresh_)
      ensures execute <==> previous == None || fresh_ == None || previous != fresh_
                           || exists u :: u in predecessors && newFingerprints[u] == None
    {
      if previous == None || fresh_ == None {
        return true;
      }
      var todo := predecessors;
      while todo != {}
        invariant todo <= predecessors
        invariant forall u | u in predecessors - todo :: newFingerprints[u] != None
      {
        var pred :| pred in todo;
        if newFingerprints[pred] == None {
          return true;
        }
        todo := todo - {pred};
      }
      return previous != fresh_;
    }

    /** Decides what to do about uid, all of whose predecessors are finished. */
    method GetJob(uid: Vertex, predecessors: set<Vertex>, prediction: Option<Fingerprint>) returns (decision: Decision)
      requires predecessors <= jobStatus.Keys && predecessors <= newFingerprints.Keys && uid !in predecessors
      modifies this
      ensures decision == Decide(old(State()), uid, predecessors, prediction)
      ensures State() == AfterGetJob(old(State()), uid, predecessors, prediction)
      ensures var bad := {Failure, NotReady, ForceFail, UnknownStatus};
              var failed := set k | k in predecessors && old(jobStatus)[k] in bad;
              && (decision == FailJob <==> failed != {})
              && (decision == SkipJob <==>
                  && failed == {} && uid in old(saved) && prediction == Some(old(saved)[uid])
                  && forall u | u in predecessors :: old(newFingerprints)[u].Some?)
              && (failed == {} ==> failureSource == old(failureSource))
              && (failed != {} ==>
                  && failureSource.Keys == old(failureSource).Keys + {uid}
                  && (forall v | v in old(failureSource) && v != uid :: failureSource[v] == old(failureSource)[v])
                  && forall a :: a in failureSource[uid] <==>
                       exists k :: k in failed &&
                                   if k in old(failureSource) then a in old(failureSource)[k] else a == k)
      ensures var previous := if uid in old(saved) then Some(old(saved)[uid]) else None;
              prevFingerprints == old(prevFingerprints)[uid := previous]
      ensures newFingerprints == old(newFingerprints)[uid := prediction]
      ensures jobStatus == old(jobStatus) && saved == old(saved) - {uid}
    {
      StatusesMean();
      var previous := LoadPreviousFingerprint(uid);
      prevFingerprints := prevFingerprints[uid := previous];
      SaveFingerprint(uid, None);
      newFingerprints := newFingerprints[uid := prediction];
      var failed: set<Vertex> := {};
      var todo := predecessors;
      while todo != {}
        modifies {}
        invariant todo <= predecessors && failed == FailedAmong(jobStatus, predecessors - todo)
      {
        var k :| k in todo;
        todo := todo - {k};
        if !Good(jobStatus[k]) {
          failed := failed + {k};
        }
      }
      assert predecessors - {} == predecessors;
      if failed != {} {
        forall a {
          SourcesMean(failureSource, failed, a);
        }
        hide AllSources;
        failureSource := failureSource[uid := AllSources(failureSource, failed)];
        return FailJob;
      }
      var execute := ShouldExecuteAction(uid, predecessors, prevFingerprints[uid], newFingerprints[uid]);
      return if execute then Execute else SkipJob;
    }

    /** Records the result of a job; asks for a requeue only when the job was not ready. */
    method Collect(uid: Vertex, status: ReturnValue, shouldSkip: bool, fingerprint: Option<Fingerprint>,
                   requestRequeue: bool)
      returns (requeued: bool)
      modifies this
      ensures State() == AfterCollect(old(State()), uid, status, fingerprint)
      ensures jobStatus == old(jobStatus)[uid := status]
      ensures prevFingerprints == old(prevFingerprints) && failureSource == old(failureSource)
      ensures status in {Success, Skip, Unchanged} ==>
                && newFingerprints == old(newFingerprints)[uid := fingerprint]
                && saved == if fingerprint.Some? then old(saved)[uid := fingerprint.value] else old(saved) - {uid}
      ensures status in {Failure, NotReady, ForceFail, UnknownStatus} ==>
                newFingerprints == old(newFingerprints) && saved == old(saved)
      ensures requeued == (!shouldSkip && status == NotReady && requestRequeue)
    {
      StatusesMean();
      if Good(status) {
        newFingerprints := newFingerprints[uid := fingerprint];
        SaveFingerprint(uid, newFingerprints[uid]);
      }
      jobStatus := jobStatus[uid := status];
      if shouldSkip {
        return false;
      }
      requeued := false;
      if jobStatus[uid] == NotReady {
        requeued := requestRequeue;
      }
    }
  }

  // ----- Histories -----

  /** One thing that happens during a walk, with what the world answers. */
  datatype Act =
    | Get(uid: Vertex, prediction: Option<Fingerprint>, jobSkips: bool)
    | Start(uid: Vertex, slot: nat)
    | End(uid: Vertex, status: ReturnValue, fingerprint: Option<Fingerprint>, requestRequeue: bool)

  datatype World = World(
    w: WalkState, log: seq<Event>,
    decisions: map<Vertex, Decision>,
    predictions: map<Vertex, Option<Fingerprint>>)

  function Begin(saved: map<Vertex, Fingerprint>): World {
    World(WalkState(map[], map[], map[], map[], saved), [], map[], map[])
  }

  /** The event that the scheduler logs; the walk's own skipped jobs are skipped. */
  function EventOf(g: Graph, world: World, act: Act): Event {
    match act
    case Get(uid, prediction, jobSkips) =>
      Provided(uid, Decide(world.w, uid, Preds(g, uid), prediction) != Execute || jobSkips)
    case Start(uid, slot) => Started(uid, slot)
    case End(uid, status, _, requestRequeue) =>
      Collected(uid, PhaseOf(world.log, uid) == Running && status == NotReady && requestRequeue)
  }

  /** The scheduler allows the event, and the walk's own skipped jobs have the status they were given. */
  ghost predicate Possible(g: Graph, world: World, act: Act) {
    && Allowed(g, world.log, EventOf(g, world, act))
    && (act.End? && act.uid in world.decisions ==>
          match world.decisions[act.uid]
          case FailJob => act.status == ForceFail
          case SkipJob => act.status == Skip
          case Execute => true)
  }

  function Do(g: Graph, world: World, act: Act): World {
    var log := world.log + [EventOf(g, world, act)];
    match act
    case Get(uid, prediction, _) =>
      World(AfterGetJob(world.w, uid, Preds(g, uid), prediction), log,
            world.decisions[uid := Decide(world.w, uid, Preds(g, uid), prediction)],
            world.predictions[uid := prediction])
    case Start(_, _) => world.(log := log)
    case End(uid, status, fingerprint, _) =>
      world.(w := AfterCollect(world.w, uid, status, fingerprint), log := log)
  }

  /** The world after a history. */
  function After(g: Graph, saved: map<Vertex, Fingerprint>, acts: seq<Act>): World {
    if acts == [] then Begin(saved)
    else Do(g, After(g, saved, acts[..|acts| - 1]), acts[|acts| - 1])
  }

  /** Everything in the history was possible when it happened. */
  ghost predicate History(g: Graph, saved: map<Vertex, Fingerprint>, acts: seq<Act>) {
    acts == [] || (
      && History(g, saved, acts[..|acts| - 1])
      && Possible(g, After(g, saved, acts[..|acts| - 1]), acts[|acts| - 1]))
  }

  // ----- Where failures come from -----

  ghost predicate Bad(world: World, v: Vertex) {
    v in world.w.jobStatus && !Good(world.w.jobStatus[v])
  }

  ghost predicate HasBadPredecessor(g: Graph, world: World, v: Vertex) {
    exists u :: u in Preds(g, v) && Bad(world, u)
  }

  /** The ancestors that ended badly although none of their predecessors did. */
  ghost function Origins(g: Graph, world: World, v: Vertex): set<Vertex> {
    set a | a in Ancestors(g, v) && Bad(world, a) && !HasBadPredecessor(g, world, a)
  }

  /** What is known of each vertex from its phase alone. */
  ghost predicate Recorded(g: Graph, world: World) {
    && Legal(g, world.log)
    && (forall v :: v in world.decisions <==> PhaseOf(world.log, v) != Unseen)
    && world.predictions.Keys == world.w.newFingerprints.Keys == world.decisions.Keys
    && (forall v | v in world.w.jobStatus :: v in world.decisions)
    && (forall v | PhaseOf(world.log, v) == Done :: v in world.w.jobStatus)
  }

  /** A failure is forced exactly by a bad predecessor, and the force-failed vertices are those with sources. */
  ghost predicate Forced(g: Graph, world: World) {
    && (forall v | v in world.decisions :: world.decisions[v] == FailJob <==> HasBadPredecessor(g, world, v))
    && (forall v :: v in world.w.failureSource <==> v in world.decisions && world.decisions[v] == FailJob)
    && (forall v | PhaseOf(world.log, v) == Done && v in world.w.jobStatus && v in world.decisions
                   && world.decisions[v] == FailJob ::
          world.w.jobStatus[v] == ForceFail)
  }

  ghost predicate Traced(g: Graph, world: World) {
    forall v | v in world.w.failureSource :: world.w.failureSource[v] == Origins(g, world, v)
  }

  lemma RecordedStep(g: Graph, world: World, act: Act)
    requires Recorded(g, world) && Possible(g, world, act)
    ensures Recorded(g, Do(g, world, act))
  {
    hide Legal, Decide, AllSources, Save;
    Extend(g, world.log, EventOf(g, world, act));
  }

  /** A predecessor of a vertex that was provided is finished, and nothing happens to it any more. */
  lemma FinishedPredecessor(g: Graph, world: World, act: Act, v: Vertex, u: Vertex)
    requires Recorded(g, world) && Possible(g, world, act)
    requires v in world.decisions && u in Preds(g, v)
    ensures u in world.w.jobStatus && u in world.w.newFingerprints && act.uid != u
    ensures PhaseOf(world.log, u) == Done
  {
    PredecessorsDone(g, world.log, v, u);
  }

  lemma HasBadStays(g: Graph, world: World, act: Act, v: Vertex)
    requires Recorded(g, world) && Possible(g, world, act) && v in world.decisions
    ensures HasBadPredecessor(g, Do(g, world, act), v) <==> HasBadPredecessor(g, world, v)
  {
    var next := Do(g, world, act);
    forall u | u in Preds(g, v) ensures Bad(next, u) <==> Bad(world, u) {
      FinishedPredecessor(g, world, act, v, u);
    }
  }

  lemma DecideFail(g: Graph, world: World, uid: Vertex, prediction: Option<Fingerprint>)
    ensures Decide(world.w, uid, Preds(g, uid), prediction) == FailJob <==> HasBadPredecessor(g, world, uid)
  {
    var failed := FailedAmong(world.w.jobStatus, Preds(g, uid));
    if u :| u in Preds(g, uid) && Bad(world, u) {
      assert u in failed;
    }
  }

  lemma ForcedDecision(g: Graph, world: World, act: Act, v: Vertex)
    requires Recorded(g, world) && Forced(g, world) && Possible(g, world, act)
    requires v in Do(g, world, act).decisions
    ensures Do(g, world, act).decisions[v] == FailJob <==> HasBadPredecessor(g, Do(g, world, act), v)
  {
    if v in world.decisions {
      HasBadStays(g, world, act, v);
    } else {
      DecideFail(g, world, act.uid, act.prediction);
      forall u ensures Bad(Do(g, world, act), u) <==> Bad(world, u) {
      }
    }
  }

  lemma ForcedSources(g: Graph, world: World, act: Act, v: Vertex)
    requires Recorded(g, world) && Forced(g, world) && Possible(g, world, act)
    ensures var next := Do(g, world, act);
            v in next.w.failureSource <==> v in next.decisions && next.decisions[v] == FailJob
  {
    hide ShouldExecute, HasBadPredecessor, Legal, FailedAmong, AllSources;
  }

  lemma ForcedStatus(g: Graph, world: World, act: Act, v: Vertex)
    requires Recorded(g, world) && Forced(g, world) && Possible(g, world, act)
    ensures var next := Do(g, world, act);
            PhaseOf(next.log, v) == Done && v in next.w.jobStatus && v in next.decisions
              && next.decisions[v] == FailJob ==>
              next.w.jobStatus[v] == ForceFail
  {
    hide ShouldExecute, HasBadPredecessor, Legal, FailedAmong, AllSources;
    Extend(g, world.log, EventOf(g, world, act));
  }

  lemma ForcedStep(g: Graph, world: World, act: Act)
    requires Recorded(g, world) && Forced(g, world) && Possible(g, world, act)
    ensures Forced(g, Do(g, world, act))
  {
    hide Do, Possible, HasBadPredecessor, Recorded, PhaseOf;
    var next := Do(g, world, act);
    forall v
      ensures v in next.decisions ==> (next.decisions[v] == FailJob <==> HasBadPredecessor(g, next, v))
      ensures v in next.w.failureSource <==> v in next.decisions && next.decisions[v] == FailJob
      ensures PhaseOf(next.log, v) == Done && v in next.w.jobStatus && v in next.decisions
              && next.decisions[v] == FailJob ==>
                next.w.jobStatus[v] == ForceFail
    {
      ForcedSources(g, world, act, v);
      ForcedStatus(g, world, act, v);
      if v in next.decisions { ForcedDecision(g, world, act, v); }
    }
  }

  /** An ancestor of a vertex that was provided keeps its result, and so do the origins. */
  lemma OriginsStay(g: Graph, world: World, act: Act, v: Vertex)
    requires Recorded(g, world) && Possible(g, world, act) && v in world.decisions
    ensures Origins(g, Do(g, world, act), v) == Origins(g, world, v)
  {
    var next := Do(g, world, act);
    forall a | a in Ancestors(g, v)
      ensures Bad(next, a) <==> Bad(world, a)
      ensures HasBadPredecessor(g, next, a) <==> HasBadPredecessor(g, world, a)
    {
      AncestorsDone(g, world.log, a, v);
      HasBadStays(g, world, act, a);
    }
  }

  /** A vertex that was provided and has a bad ancestor has a bad predecessor. */
  lemma BadAncestorShows(g: Graph, world: World, a: Vertex, v: Vertex)
    requires Recorded(g, world) && Forced(g, world)
    requires v in world.decisions || forall u | u in Preds(g, v) :: PhaseOf(world.log, u) == Done
    requires Reach(g, a, v) && Bad(world, a)
    ensures HasBadPredecessor(g, world, v)
  {
    var p :| Route(g, a, v, p);
    BadRouteShows(g, world, v, p);
  }

  lemma {:induction false} BadRouteShows(g: Graph, world: World, v: Vertex, p: seq<Vertex>)
    requires Recorded(g, world) && Forced(g, world)
    requires v in world.decisions || forall u | u in Preds(g, v) :: PhaseOf(world.log, u) == Done
    requires |p| >= 2 && Route(g, p[0], v, p) && Bad(world, p[0])
    ensures HasBadPredecessor(g, world, v)
    decreases |p|
  {
    var u := p[|p| - 2];
    assert u in Preds(g, v);
    BadBefore(g, world, v, u);
    if |p| > 2 {
      assert Route(g, p[0], u, p[..|p| - 1]);
      hide Recorded, Forced, Preds;
      BadRouteShows(g, world, u, p[..|p| - 1]);
    }
  }

  /** A predecessor that is finished is bad if it was started with a bad predecessor, and then v has one. */
  lemma BadBefore(g: Graph, world: World, v: Vertex, u: Vertex)
    requires Recorded(g, world) && Forced(g, world) && u in Preds(g, v)
    requires v in world.decisions || forall w | w in Preds(g, v) :: PhaseOf(world.log, w) == Done
    ensures u in world.decisions
    ensures Bad(world, u) || HasBadPredecessor(g, world, u) ==> HasBadPredecessor(g, world, v)
  {
    if v in world.decisions { PredecessorsDone(g, world.log, v, u); }
    assert u in world.decisions;
    if HasBadPredecessor(g, world, u) {
      assert world.decisions[u] == FailJob;
      assert Bad(world, u);
    }
  }

  /** The sources that get_job collects from the bad predecessors are the origins. */
  lemma SourcesAreOrigins(g: Graph, world: World, v: Vertex)
    requires Recorded(g, world) && Forced(g, world) && Traced(g, world)
    requires forall u | u in Preds(g, v) :: PhaseOf(world.log, u) == Done
    ensures AllSources(world.w.failureSource, FailedAmong(world.w.jobStatus, Preds(g, v))) == Origins(g, world, v)
  {
    var failed := FailedAmong(world.w.jobStatus, Preds(g, v));
    var all := AllSources(world.w.failureSource, failed);
    forall a | a in all ensures a in Origins(g, world, v) {
      var k :| k in failed && a in SourcesOf(world.w.failureSource, k);
      SourceIsOrigin(g, world, v, k, a);
    }
    forall a | a in Origins(g, world, v) ensures a in all {
      var k := ReachLast(g, a, v);
      OriginIsSource(g, world, v, k, a);
    }
  }

  lemma SourceIsOrigin(g: Graph, world: World, v: Vertex, k: Vertex, a: Vertex)
    requires Recorded(g, world) && Forced(g, world) && Traced(g, world)
    requires k in Preds(g, v) && PhaseOf(world.log, k) == Done && Bad(world, k)
    requires a in SourcesOf(world.w.failureSource, k)
    ensures a in Origins(g, world, v)
  {
    ReachEdge(g, k, v);
    if k in world.w.failureSource {
      assert a in Origins(g, world, k);
      ReachTransitive(g, a, k, v);
    }
    ReachInNodes(g, a, v);
  }

  lemma OriginIsSource(g: Graph, world: World, v: Vertex, k: Vertex, a: Vertex)
    requires Recorded(g, world) && Forced(g, world) && Traced(g, world)
    requires k in Preds(g, v) && PhaseOf(world.log, k) == Done && (a == k || Reach(g, a, k))
    requires a in Origins(g, world, v)
    ensures k in FailedAmong(world.w.jobStatus, Preds(g, v)) && a in SourcesOf(world.w.failureSource, k)
  {
    hide Reach, Legal, HasBadPredecessor, Good;
    assert k in world.decisions && k in world.w.jobStatus;
    if a != k {
      BadAncestorShows(g, world, a, k);
      assert world.decisions[k] == FailJob && k in world.w.failureSource;
      ForceFailIsBad();
      ReachInNodes(g, a, k);
      assert a in Origins(g, world, k);
    }
  }

  lemma ForceFailIsBad()
    ensures !Good(ForceFail)
  {
  }

  lemma TracedStep(g: Graph, world: World, act: Act)
    requires Recorded(g, world) && Forced(g, world) && Traced(g, world) && Possible(g, world, act)
    ensures Traced(g, Do(g, world, act))
  {
    hide Recorded, Forced, Possible, Origins, SourcesOf;
    var next := Do(g, world, act);
    forall v | v in next.w.failureSource ensures next.w.failureSource[v] == Origins(g, next, v) {
      if v in world.w.failureSource {
        SourcesKnown(g, world, v);
        SourcesStay(g, world, act, v);
        OriginsStay(g, world, act, v);
      } else {
        NewSources(g, world, act, v);
      }
    }
  }

  lemma SourcesKnown(g: Graph, world: World, v: Vertex)
    requires Forced(g, world) && v in world.w.failureSource
    ensures v in world.decisions
  {
  }

  /** What was recorded about a failure stays: a vertex is provided only once. */
  lemma SourcesStay(g: Graph, world: World, act: Act, v: Vertex)
    requires Recorded(g, world) && Possible(g, world, act) && v in world.decisions && v in world.w.failureSource
    ensures var next := Do(g, world, act);
            v in next.w.failureSource && next.w.failureSource[v] == world.w.failureSource[v]
  {
    hide Legal, Decide, AllSources, FailedAmong, Save;
  }

  /** The sources that get_job records are the origins. */
  lemma NewSources(g: Graph, world: World, act: Act, v: Vertex)
    requires Recorded(g, world) && Forced(g, world) && Traced(g, world) && Possible(g, world, act)
    requires v !in world.w.failureSource && v in Do(g, world, act).w.failureSource
    ensures Do(g, world, act).w.failureSource[v] == Origins(g, Do(g, world, act), v)
  {
    hide Recorded, Forced, Traced, Origins, AllSources, FailedAmong;
    SourceRecorded(g, world, act, v);
    SourcesAreOrigins(g, world, v);
    SameStatus(g, world, Do(g, world, act), v);
  }

  lemma SourceRecorded(g: Graph, world: World, act: Act, v: Vertex)
    requires Possible(g, world, act) && v !in world.w.failureSource && v in Do(g, world, act).w.failureSource
    ensures var next := Do(g, world, act);
            && next.w.jobStatus == world.w.jobStatus
            && next.w.failureSource[v] == AllSources(world.w.failureSource, FailedAmong(world.w.jobStatus, Preds(g, v)))
    ensures forall u | u in Preds(g, v) :: PhaseOf(world.log, u) == Done
  {
    hide AllSources, PhaseOf, Save, ShouldExecute;
    assert act.Get? && act.uid == v;
  }

  lemma SameStatus(g: Graph, a: World, b: World, v: Vertex)
    requires a.w.jobStatus == b.w.jobStatus
    ensures Origins(g, a, v) == Origins(g, b, v)
  {
    hide Ancestors;
    assert forall u :: Bad(a, u) <==> Bad(b, u);
    hide Bad;
    assert forall u :: HasBadPredecessor(g, a, u) <==> HasBadPredecessor(g, b, u);
  }

  lemma {:induction false} HistoryKeeps(g: Graph, saved: map<Vertex, Fingerprint>, acts: seq<Act>)
    requires History(g, saved, acts)
    ensures var world := After(g, saved, acts); Recorded(g, world) && Forced(g, world) && Traced(g, world)
    decreases |acts|
  {
    if acts != [] {
      var before, act := acts[..|acts| - 1], acts[|acts| - 1];
      HistoryKeeps(g, saved, before);
      var world := After(g, saved, before);
      RecordedStep(g, world, act);
      ForcedStep(g, world, act);
      TracedStep(g, world, act);
    }
  }

  /**
   In every history, for every order of completion and any requeues: a job is forced to fail exactly
   when the latest result of some ancestor is one of the four bad statuses, and its failure sources are
   exactly the ancestors with such a result none of whose predecessors has one.
   */
  lemma FailureOrigins(g: Graph, saved: map<Vertex, Fingerprint>, acts: seq<Act>, v: Vertex)
    requires History(g, saved, acts) && v in After(g, saved, acts).decisions
    ensures var world := After(g, saved, acts);
            var status := world.w.jobStatus;
            var bad := set u | u in status && status[u] in {Failure, NotReady, ForceFail, UnknownStatus};
            && (world.decisions[v] == FailJob <==> exists a :: Reach(g, a, v) && a in bad)
            && (v in world.w.failureSource <==> world.decisions[v] == FailJob)
            && (v in world.w.failureSource ==> forall a ::
                  a in world.w.failureSource[v] <==>
                  Reach(g, a, v) && a in bad && forall u | u in Preds(g, a) :: u !in bad)
            && (world.decisions[v] == FailJob && v in status ==>
                  PhaseOf(world.log, v) == Done && status[v] == ForceFail)
  {
    hide *;
    HistoryKeeps(g, saved, acts);
    var world := After(g, saved, acts);
    BadMeans(world);
    FailureIff(g, world, v);
    OriginsMean(g, world, v);
    TracedMeans(g, world, v);
    if world.decisions[v] == FailJob && v in world.w.jobStatus {
      FailedIsDone(g, saved, acts, v);
      ForcedStatusMeans(g, world, v);
    }
  }

  lemma TracedMeans(g: Graph, world: World, v: Vertex)
    requires Forced(g, world) && Traced(g, world) && v in world.decisions
    ensures v in world.w.failureSource <==> world.decisions[v] == FailJob
    ensures v in world.w.failureSource ==> world.w.failureSource[v] == Origins(g, world, v)
  {
    hide Origins;
  }

  lemma ForcedStatusMeans(g: Graph, world: World, v: Vertex)
    requires Forced(g, world) && v in world.decisions && world.decisions[v] == FailJob
    requires v in world.w.jobStatus && PhaseOf(world.log, v) == Done
    ensures world.w.jobStatus[v] == ForceFail
  {
  }

  lemma BadMeans(world: World)
    ensures forall u :: Bad(world, u) <==>
              u in world.w.jobStatus && world.w.jobStatus[u] in {Failure, NotReady, ForceFail, UnknownStatus}
  {
    StatusesMean();
    hide Good;
  }

  lemma FailureIff(g: Graph, world: World, v: Vertex)
    requires Recorded(g, world) && Forced(g, world) && v in world.decisions
    ensures world.decisions[v] == FailJob <==> exists a :: Reach(g, a, v) && Bad(world, a)
  {
    if world.decisions[v] == FailJob {
      var u :| u in Preds(g, v) && Bad(world, u);
      ReachEdge(g, u, v);
    }
    if a :| Reach(g, a, v) && Bad(world, a) {
      BadAncestorShows(g, world, a, v);
    }
  }

  lemma OriginsMean(g: Graph, world: World, v: Vertex)
    ensures forall a :: a in Origins(g, world, v) <==>
              Reach(g, a, v) && Bad(world, a) && forall u | u in Preds(g, a) :: !Bad(world, u)
  {
    hide Bad;
    forall a | Reach(g, a, v) ensures a in Nodes(g) {
      ReachInNodes(g, a, v);
    }
  }

  /** The result of a job that was forced to fail is collected at once, and is final. */
  lemma {:induction false} FailedIsDone(g: Graph, saved: map<Vertex, Fingerprint>, acts: seq<Act>, v: Vertex)
    requires History(g, saved, acts) && v in After(g, saved, acts).decisions
    requires After(g, saved, acts).decisions[v] == FailJob && v in After(g, saved, acts).w.jobStatus
    ensures PhaseOf(After(g, saved, acts).log, v) == Done
    decreases |acts|
  {
    if acts != [] {
      var before, act := acts[..|acts| - 1], acts[|acts| - 1];
      HistoryKeeps(g, saved, before);
      var world := After(g, saved, before);
      Extend(g, world.log, EventOf(g, world, act));
      if v in world.w.jobStatus && act.uid != v {
        FailedIsDone(g, saved, before, v);
      } else if v in world.w.jobStatus {
        KnownFailed(g, world, act);
        FailedIsDone(g, saved, before, v);
      }
    }
  }

  lemma KnownFailed(g: Graph, world: World, act: Act)
    requires Recorded(g, world) && Possible(g, world, act) && act.uid in world.w.jobStatus
    requires act.uid in Do(g, world, act).decisions
    ensures act.uid in world.decisions && Do(g, world, act).decisions[act.uid] == world.decisions[act.uid]
  {
  }

  /** get_job finds the results and fingerprints of all predecessors in its dictionaries. */
  lemma LookupsSucceed(g: Graph, saved: map<Vertex, Fingerprint>, acts: seq<Act>, act: Act)
    requires History(g, saved, acts) && act.Get? && Possible(g, After(g, saved, acts), act)
    ensures var w := After(g, saved, acts).w;
            Preds(g, act.uid) <= w.jobStatus.Keys && Preds(g, act.uid) <= w.newFingerprints.Keys
            && act.uid !in Preds(g, act.uid)
  {
    HistoryKeeps(g, saved, acts);
  }

  // ----- Fingerprints from one run to the next -----

  /** The latest result collected for v. */
  function LastEnd(acts: seq<Act>, v: Vertex): Option<Act> {
    if acts == [] then None
    else if acts[|acts| - 1].End? && acts[|acts| - 1].uid == v then Some(acts[|acts| - 1])
    else LastEnd(acts[..|acts| - 1], v)
  }

  /** The fingerprint that came with the latest result of v, if that result was success, skip or unchanged. */
  ghost function CollectedFingerprint(acts: seq<Act>, v: Vertex): Option<Option<Fingerprint>> {
    var last := LastEnd(acts, v);
    if last.Some? && last.value.End? && last.value.status in {Success, Skip, Unchanged}
    then Some(last.value.fingerprint) else None
  }

  /** What the dictionaries and the store hold for v, in terms of what happened. */
  ghost predicate VertexAgrees(saved: map<Vertex, Fingerprint>, world: World, acts: seq<Act>, v: Vertex) {
    var last, collected := LastEnd(acts, v), CollectedFingerprint(acts, v);
    && (last.Some? ==> v in world.decisions && last.value.End?)
    && (v in world.w.jobStatus <==> last.Some?)
    && (last.Some? ==> v in world.w.jobStatus && world.w.jobStatus[v] == last.value.status)
    && (v in world.decisions ==>
          && v in world.predictions && v in world.w.newFingerprints && v in world.w.prevFingerprints
          && world.w.newFingerprints[v] == (if collected.Some? then collected.value else world.predictions[v])
          && world.w.prevFingerprints[v] == Load(saved, v)
          && Load(world.w.saved, v) == if collected.Some? then collected.value else None)
    && (v !in world.decisions ==> Load(world.w.saved, v) == Load(saved, v))
    && (collected.Some? ==> PhaseOf(world.log, v) == Done)
  }

  ghost predicate ResultsAgree(saved: map<Vertex, Fingerprint>, world: World, acts: seq<Act>) {
    forall v :: VertexAgrees(saved, world, acts, v)
  }

  /** All that justifies skipping v. */
  ghost predicate Justified(g: Graph, saved: map<Vertex, Fingerprint>, world: World, v: Vertex) {
    && !HasBadPredecessor(g, world, v)
    && v in saved && v in world.predictions && world.predictions[v] == Some(saved[v])
    && forall u | u in Preds(g, v) :: u in world.w.newFingerprints && world.w.newFingerprints[u].Some?
  }

  /** A job is skipped exactly if that is justified. */
  ghost predicate SkipsExactly(g: Graph, saved: map<Vertex, Fingerprint>, world: World) {
    forall v | v in world.decisions :: world.decisions[v] == SkipJob <==> Justified(g, saved, world, v)
  }

  lemma LastEndStep(acts: seq<Act>, act: Act, v: Vertex)
    ensures LastEnd(acts + [act], v) == if act.End? && act.uid == v then Some(act) else LastEnd(acts, v)
  {
    assert (acts + [act])[..|acts|] == acts;
  }

  lemma ResultsStep(g: Graph, saved: map<Vertex, Fingerprint>, world: World, acts: seq<Act>, act: Act)
    requires Recorded(g, world) && ResultsAgree(saved, world, acts) && Possible(g, world, act)
    ensures ResultsAgree(saved, Do(g, world, act), acts + [act])
  {
    hide Recorded, Possible, VertexAgrees, Do;
    forall v ensures VertexAgrees(saved, Do(g, world, act), acts + [act], v) {
      assert VertexAgrees(saved, world, acts, v);
      if act.uid != v {
        OtherAgrees(g, saved, world, acts, act, v);
      } else if act.End? {
        EndAgrees(g, saved, world, acts, act);
      } else {
        BeginAgrees(g, saved, world, acts, act);
      }
    }
  }

  /** Nothing changes about a vertex that the act is not about. */
  lemma OtherAgrees(g: Graph, saved: map<Vertex, Fingerprint>, world: World, acts: seq<Act>, act: Act, v: Vertex)
    requires Recorded(g, world) && VertexAgrees(saved, world, acts, v) && Possible(g, world, act) && act.uid != v
    ensures VertexAgrees(saved, Do(g, world, act), acts + [act], v)
  {
    hide Legal, Decide, AllSources, FailedAmong, LastEnd, PhaseOf;
    Extend(g, world.log, EventOf(g, world, act));
    LastEndStep(acts, act, v);
  }

  /** A job that ended well never ends again. */
  lemma EndAgrees(g: Graph, saved: map<Vertex, Fingerprint>, world: World, acts: seq<Act>, act: Act)
    requires Recorded(g, world) && VertexAgrees(saved, world, acts, act.uid) && Possible(g, world, act) && act.End?
    ensures VertexAgrees(saved, Do(g, world, act), acts + [act], act.uid)
  {
    StatusesMean();
    hide Legal, Decide, LastEnd, PhaseOf, Good;
    Extend(g, world.log, EventOf(g, world, act));
    LastEndStep(acts, act, act.uid);
    assert CollectedFingerprint(acts, act.uid) == None;
  }

  lemma BeginAgrees(g: Graph, saved: map<Vertex, Fingerprint>, world: World, acts: seq<Act>, act: Act)
    requires Recorded(g, world) && VertexAgrees(saved, world, acts, act.uid) && Possible(g, world, act) && !act.End?
    ensures VertexAgrees(saved, Do(g, world, act), acts + [act], act.uid)
  {
    hide Legal, Decide, AllSources, FailedAmong, LastEnd, PhaseOf;
    Extend(g, world.log, EventOf(g, world, act));
    LastEndStep(acts, act, act.uid);
  }

  lemma SkipsStep(g: Graph, saved: map<Vertex, Fingerprint>, world: World, acts: seq<Act>, act: Act)
    requires Recorded(g, world) && ResultsAgree(saved, world, acts) && SkipsExactly(g, saved, world)
    requires Possible(g, world, act)
    ensures SkipsExactly(g, saved, Do(g, world, act))
  {
    hide Recorded, ResultsAgree, Possible, Do, Justified;
    var next := Do(g, world, act);
    forall v | v in next.decisions ensures next.decisions[v] == SkipJob <==> Justified(g, saved, next, v) {
      if v in world.decisions {
        SkipStays(g, saved, world, act, v);
      } else {
        NewDecision(g, saved, world, acts, act, v);
      }
    }
  }

  lemma SkipStays(g: Graph, saved: map<Vertex, Fingerprint>, world: World, act: Act, v: Vertex)
    requires Recorded(g, world) && Possible(g, world, act) && v in world.decisions
    ensures var next := Do(g, world, act);
            && v in next.decisions && next.decisions[v] == world.decisions[v]
            && (Justified(g, saved, next, v) <==> Justified(g, saved, world, v))
  {
    var next := Do(g, world, act);
    HasBadStays(g, world, act, v);
    hide HasBadPredecessor, Legal, Decide, Save, AllSources, FailedAmong;
    forall u | u in Preds(g, v)
      ensures u in world.w.newFingerprints && u in next.w.newFingerprints
      ensures next.w.newFingerprints[u] == world.w.newFingerprints[u]
    {
      FinishedPredecessor(g, world, act, v, u);
    }
  }

  /** The decision of get_job, from the results and fingerprints that are there. */
  lemma NewDecision(g: Graph, saved: map<Vertex, Fingerprint>, world: World, acts: seq<Act>, act: Act, v: Vertex)
    requires Recorded(g, world) && ResultsAgree(saved, world, acts) && Possible(g, world, act)
    requires v !in world.decisions && v in Do(g, world, act).decisions
    ensures Do(g, world, act).decisions[v] == SkipJob <==> Justified(g, saved, Do(g, world, act), v)
  {
    assert act.Get? && act.uid == v && PhaseOf(world.log, v) == Unseen && VertexAgrees(saved, world, acts, v);
    var next := Do(g, world, act);
    forall u | u in Preds(g, v) ensures u in world.w.newFingerprints && u != v {
      assert PhaseOf(world.log, u) == Done;
    }
    DecideFail(g, world, v, act.prediction);
    hide Legal, AllSources, FailedAmong, ResultsAgree, VertexAgrees, PhaseOf, Good;
    assert forall u :: Bad(next, u) <==> Bad(world, u);
    assert HasBadPredecessor(g, next, v) <==> HasBadPredecessor(g, world, v);
  }

  lemma {:induction false} HistoryKeepsResults(g: Graph, saved: map<Vertex, Fingerprint>, acts: seq<Act>)
    requires History(g, saved, acts)
    ensures var world := After(g, saved, acts);
            Recorded(g, world) && ResultsAgree(saved, world, acts) && SkipsExactly(g, saved, world)
    decreases |acts|
  {
    hide ResultsAgree, SkipsExactly, Recorded, Forced, Traced, Possible, Do;
    HistoryKeeps(g, saved, acts);
    if acts == [] {
      ResultsBegin(g, saved);
    } else {
      var before, act := acts[..|acts| - 1], acts[|acts| - 1];
      HistoryKeepsResults(g, saved, before);
      var world := After(g, saved, before);
      assert before + [act] == acts;
      ResultsStep(g, saved, world, before, act);
      SkipsStep(g, saved, world, before, act);
    }
  }

  lemma ResultsBegin(g: Graph, saved: map<Vertex, Fingerprint>)
    ensures ResultsAgree(saved, Begin(saved), []) && SkipsExactly(g, saved, Begin(saved))
  {
  }

  /**
   In every history, what is known of a vertex that was provided: its status is that of its latest result;
   its fingerprint is the one collected with a good latest result, and otherwise the predicted one; and
   one is saved exactly if there is a good latest result with a fingerprint, which is then that one.
   */
  lemma ResultsRecorded(g: Graph, saved: map<Vertex, Fingerprint>, acts: seq<Act>, v: Vertex)
    requires History(g, saved, acts) && v in After(g, saved, acts).decisions
    ensures var world, last := After(g, saved, acts), LastEnd(acts, v);
            var well := last.Some? && last.value.End? && last.value.status in {Success, Skip, Unchanged};
            && (v in world.w.jobStatus <==> last.Some?)
            && (last.Some? ==> last.value.End? && world.w.jobStatus[v] == last.value.status)
            && v in world.w.newFingerprints && v in world.predictions
            && world.w.newFingerprints[v] == (if well then last.value.fingerprint else world.predictions[v])
            && (v in world.w.saved <==> well && last.value.fingerprint.Some?)
            && (v in world.w.saved ==> Some(world.w.saved[v]) == last.value.fingerprint)
  {
    HistoryKeepsResults(g, saved, acts);
    assert VertexAgrees(saved, After(g, saved, acts), acts, v);
  }

  /** What was saved for a vertex that was not provided is left alone. */
  lemma UnseenStaysSaved(g: Graph, saved: map<Vertex, Fingerprint>, acts: seq<Act>, v: Vertex)
    requires History(g, saved, acts) && v !in After(g, saved, acts).decisions
    ensures var after := After(g, saved, acts).w.saved;
            (v in after <==> v in saved) && (v in saved ==> after[v] == saved[v])
  {
    HistoryKeepsResults(g, saved, acts);
    assert VertexAgrees(saved, After(g, saved, acts), acts, v);
  }

  /**
   In every history a job is skipped exactly if no ancestor ended badly, a fingerprint was saved before
   that equals the predicted one, and every predecessor has a fingerprint. It is executed if it is neither
   skipped nor forced to fail.
   */
  lemma SkippedIff(g: Graph, saved: map<Vertex, Fingerprint>, acts: seq<Act>, v: Vertex)
    requires History(g, saved, acts) && v in After(g, saved, acts).decisions
    ensures var world := After(g, saved, acts);
            var status := world.w.jobStatus;
            var bad := set u | u in status && status[u] in {Failure, NotReady, ForceFail, UnknownStatus};
            && v in world.predictions
            && (world.decisions[v] == SkipJob <==>
                && (forall a | Reach(g, a, v) :: a !in bad)
                && v in saved && world.predictions[v] == Some(saved[v])
                && forall u | u in Preds(g, v) :: u in world.w.newFingerprints && world.w.newFingerprints[u].Some?)
  {
    HistoryKeepsResults(g, saved, acts);
    FailureOrigins(g, saved, acts, v);
    HistoryKeeps(g, saved, acts);
    var world := After(g, saved, acts);
    assert Justified(g, saved, world, v) <==> world.decisions[v] == SkipJob;
    assert world.decisions[v] == FailJob <==> HasBadPredecessor(g, world, v);
    assert v in world.predictions;
  }

  /** v is not executed, and its job was never started. */
  ghost predicate NotStarted(world: World, v: Vertex) {
    && (PhaseOf(world.log, v) == Skipping || PhaseOf(world.log, v) == Done)
    && forall i | 0 <= i < |world.log| && world.log[i].uid == v :: !world.log[i].Started?
  }

  /** A job that is skipped or forced to fail is never started. */
  lemma {:induction false} NeverStarted(g: Graph, saved: map<Vertex, Fingerprint>, acts: seq<Act>, v: Vertex)
    requires History(g, saved, acts) && v in After(g, saved, acts).decisions
    ensures var world := After(g, saved, acts);
            world.decisions[v] != Execute ==>
              forall i | 0 <= i < |world.log| && world.log[i].uid == v :: !world.log[i].Started?
    ensures After(g, saved, acts).decisions[v] != Execute ==> NotStarted(After(g, saved, acts), v)
    decreases |acts|
  {
    var before, act := acts[..|acts| - 1], acts[|acts| - 1];
    HistoryKeeps(g, saved, before);
    var world := After(g, saved, before);
    if v in world.decisions {
      NeverStarted(g, saved, before, v);
      DecisionStays(g, world, act, v);
      if world.decisions[v] != Execute { NotStartedStays(g, world, act, v); }
    } else {
      ProvidedPhase(g, world, act, v);
    }
    hide Recorded, Possible, Do, History;
  }

  lemma NotStartedStays(g: Graph, world: World, act: Act, v: Vertex)
    requires Recorded(g, world) && Possible(g, world, act) && v in world.decisions && NotStarted(world, v)
    ensures NotStarted(Do(g, world, act), v)
  {
    hide Legal, Decide, AllSources, FailedAmong, Save, PhaseOf;
    Extend(g, world.log, EventOf(g, world, act));
  }

  /** A job that is neither skipped nor forced to fail waits to be started, unless it skips itself. */
  lemma ProvidedPhase(g: Graph, world: World, act: Act, v: Vertex)
    requires Recorded(g, world) && Possible(g, world, act) && v !in world.decisions && v in Do(g, world, act).decisions
    ensures var next := Do(g, world, act);
            && act.Get? && act.uid == v
            && PhaseOf(next.log, v) == (if next.decisions[v] == Execute && !act.jobSkips then Waiting else Skipping)
            && (next.decisions[v] != Execute ==> NotStarted(next, v))
  {
    hide Legal, Decide, AllSources, FailedAmong, Save, PhaseOf;
    assert act.Get? && act.uid == v;
    Extend(g, world.log, EventOf(g, world, act));
    forall i | 0 <= i < |world.log| ensures world.log[i].uid != v {
      UnseenSaysNothing(world.log, v, i);
    }
  }

  lemma DecisionStays(g: Graph, world: World, act: Act, v: Vertex)
    requires Recorded(g, world) && Possible(g, world, act) && v in world.decisions
    ensures v in Do(g, world, act).decisions && Do(g, world, act).decisions[v] == world.decisions[v]
    ensures act.uid == v ==> !act.Get?
  {
  }

  lemma {:induction false} UnseenSaysNothing(log: seq<Event>, v: Vertex, i: nat)
    requires i < |log| && PhaseOf(log, v) == Unseen
    ensures log[i].uid != v
    decreases |log|
  {
    if i < |log| - 1 {
      assert log[|log| - 1].uid != v;
      UnseenSaysNothing(log[..|log| - 1], v, i);
    }
  }

  /** A job that ended is requeued exactly if it had been started, was not ready and asked for it. */
  lemma RequeuedIff(g: Graph, saved: map<Vertex, Fingerprint>, acts: seq<Act>, act: Act)
    requires History(g, saved, acts + [act]) && act.End?
    ensures var before, after := After(g, saved, acts).log, After(g, saved, acts + [act]).log;
            PhaseOf(after, act.uid) ==
            if PhaseOf(before, act.uid) == Running && act.status == NotReady && act.requestRequeue then Waiting
            else Done
  {
    assert (acts + [act])[..|acts|] == acts;
    HistoryKeeps(g, saved, acts);
    var world := After(g, saved, acts);
    Extend(g, world.log, EventOf(g, world, act));
  }

  /**
   Two runs in sequence, the first cut off anywhere: the second skips a vertex only if the first
   run's latest result for it was success, skip or unchanged, with a fingerprint equal to the new
   prediction (or the first run never came to it and such a fingerprint was there before), and only
   if every predecessor has a fingerprint in the second run.
   */
  lemma FingerprintSafety(g1: Graph, saved: map<Vertex, Fingerprint>, first: seq<Act>, g2: Graph, second: seq<Act>,
                          v: Vertex)
    requires History(g1, saved, first)
    requires History(g2, After(g1, saved, first).w.saved, second)
    requires v in After(g2, After(g1, saved, first).w.saved, second).decisions
    requires After(g2, After(g1, saved, first).w.saved, second).decisions[v] == SkipJob
    ensures var world1 := After(g1, saved, first);
            var world2 := After(g2, world1.w.saved, second);
            && v in world2.predictions && world2.predictions[v].Some?
            && (forall u | u in Preds(g2, v) :: u in world2.w.newFingerprints && world2.w.newFingerprints[u].Some?)
            && if v !in world1.decisions then v in saved && Some(saved[v]) == world2.predictions[v]
               else
                 var last := LastEnd(first, v);
                 last.Some? && last.value.End? && last.value.status in {Success, Skip, Unchanged}
                 && last.value.fingerprint == world2.predictions[v]
  {
    var world1 := After(g1, saved, first);
    SkippedIff(g2, world1.w.saved, second, v);
    if v in world1.decisions {
      ResultsRecorded(g1, saved, first, v);
    } else {
      UnseenStaysSaved(g1, saved, first, v);
    }
  }
}
