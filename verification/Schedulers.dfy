/**
 The parallel job scheduler: an iterator over the DAG, priority queues, tokens and slots.

 The threads are modelled by their one message: a started job ends at a moment of its own
 choosing, so Wait picks any active job. The collect callback may answer anything, but asks for
 only finitely many requeues; requeuesLeft bounds them.
 */
module Schedulers {
  import opened Wrappers
  import opened Graphs
  import opened Dags
  import opened JobLogs
  import opened Resources

  type Queues = map<QueueName, set<Entry>>

  ghost predicate QueuesOk(provider: Vertex -> Job, capacity: map<QueueName, int>, queues: Queues, nextIndex: int) {
    && queues.Keys == capacity.Keys
    && (forall name, e | name in queues && e in queues[name] ::
          && e.index < nextIndex && e.negPriority == -e.job.priority
          && e.job.queueName == name && e.job == provider(e.job.uid))
    && (forall name, e, f | name in queues && e in queues[name] && f in queues[name]
                             && (e.job.uid == f.job.uid || e.index == f.index) :: e == f)
  }

  /** Every queued job can be started once enough others have ended. */
  ghost predicate QueuedFit(capacity: map<QueueName, int>, queues: Queues) {
    forall name, e | name in queues && e in queues[name] :: Fits(capacity, e.job)
  }

  ghost function QueuedUids(queues: Queues): set<Vertex> {
    set name, e | name in queues && e in queues[name] :: e.job.uid
  }

  /** The total length of the queues. */
  ghost function Length(queues: Queues): int {
    Sum(map name | name in queues :: |queues[name]|)
  }

  ghost function UidsOf(active: seq<ActiveJob>): seq<Vertex> {
    seq(|active|, i requires 0 <= i < |active| => active[i].job.uid)
  }

  /** The entry to be started next: no other one is as urgent. */
  ghost predicate IsHead(e: Entry, q: set<Entry>) {
    e in q && forall f | f in q && f != e :: MoreUrgent(e, f)
  }

  /** What leaves the queue before what stays is more urgent. */
  ghost predicate UrgentFirst(before: set<Entry>, after: set<Entry>) {
    after <= before && forall e, f | e in before - after && f in after :: MoreUrgent(e, f)
  }

  /** These entries left the queue one after the other, each more urgent than all that were left. */
  ghost predicate StartedInOrder(before: set<Entry>, after: set<Entry>, started: seq<Entry>) {
    && (forall e :: e in before <==> e in after || e in started)
    && (forall i | 0 <= i < |started| :: started[i] !in after)
    && (forall i, j | 0 <= i < j < |started| :: MoreUrgent(started[i], started[j]))
    && (forall i, f | 0 <= i < |started| && f in after :: MoreUrgent(started[i], f))
  }

  lemma HeadBlocks(queues: Queues, tokens: map<QueueName, int>, name: QueueName, head: Entry)
    requires name in queues && name in tokens && IsHead(head, queues[name]) && head.job.tokens > tokens[name]
    ensures Blocked(queues, tokens, name)
  {
  }

  lemma EmptyBlocks(queues: Queues, tokens: map<QueueName, int>, name: QueueName)
    requires name in queues && name in tokens && queues[name] == {}
    ensures Blocked(queues, tokens, name)
  {
  }

  /** The jobs of these entries became active in this order. */
  ghost predicate JobsStarted(before: seq<ActiveJob>, after: seq<ActiveJob>, started: seq<Entry>) {
    && |after| == |before| + |started| && before <= after
    && forall i | 0 <= i < |started| :: after[|before| + i].job == started[i].job
  }

  lemma OneMoreJob(before: seq<ActiveJob>, active: seq<ActiveJob>, started: seq<Entry>, after: seq<ActiveJob>,
                   head: Entry)
    requires JobsStarted(before, active, started)
    requires |after| == |active| + 1 && active <= after && after[|active|].job == head.job
    ensures JobsStarted(before, after, started + [head])
  {
  }

  lemma NothingStarted(q: set<Entry>, active: seq<ActiveJob>)
    ensures StartedInOrder(q, q, []) && JobsStarted(active, active, [])
  {
  }

  lemma OneMoreStarted(before: set<Entry>, q: set<Entry>, started: seq<Entry>, head: Entry)
    requires StartedInOrder(before, q, started) && IsHead(head, q)
    ensures StartedInOrder(before, q - {head}, started + [head])
  {
    hide MoreUrgent;
  }

  lemma OrderMeans(before: set<Entry>, after: set<Entry>, started: seq<Entry>)
    requires StartedInOrder(before, after, started)
    ensures UrgentFirst(before, after)
  {
    hide MoreUrgent;
  }

  lemma SameIsUrgentFirst(queues: Queues)
    ensures forall name | name in queues :: UrgentFirst(queues[name], queues[name])
  {
  }

  /** Calling the provider ends no job, and neither does collecting the result of one that is skipped. */
  lemma ProvidingEndsNothing(log0: seq<Event>, v: Vertex, skip: bool, rest: seq<Event>)
    requires rest == [] || (skip && |rest| == 1 && rest[0].Collected? && rest[0].uid == v)
    ensures NothingEnds(log0, log0 + [Provided(v, skip)] + rest)
  {
    var log := log0 + [Provided(v, skip)] + rest;
    if rest != [] {
      var provided := log[..|log0| + 1];
      assert provided == log0 + [Provided(v, skip)] && provided[..|provided| - 1] == log0;
    }
  }

  lemma NothingYet(log: seq<Event>)
    ensures NothingEnds(log, log)
  {
  }

  /** The head of the queue, if there is one, needs more tokens than are free. */
  ghost predicate Blocked(queues: Queues, tokens: map<QueueName, int>, name: QueueName)
    requires name in queues && name in tokens
  {
    queues[name] == {} || exists e :: IsHead(e, queues[name]) && e.job.tokens > tokens[name]
  }

  /**
   The joint invariant of iterator and scheduler: what the log says about a vertex is its state in
   the iterator, and the busy vertices are those whose job is queued or active.
   */
  ghost predicate PhasesAgree(g: Graph, states: map<Vertex, State>, log: seq<Event>, queued: set<Vertex>,
                              active: set<Vertex>)
  {
    && states.Keys == g.Keys
    && Legal(g, log)
    && (forall v | v in g ::
          && (states[v].NotVisited? <==> PhaseOf(log, v) == Unseen)
          && (states[v].Visited? <==> PhaseOf(log, v) == Done))
    && (forall v :: v in queued <==> PhaseOf(log, v) == Waiting)
    && (forall v :: v in active <==> PhaseOf(log, v) == Running)
    && (forall v :: PhaseOf(log, v) != Skipping && (PhaseOf(log, v) != Unseen ==> v in g))
  }

  // ----- What each step does to the phases -----

  lemma PhasesInitial(g: Graph, states: map<Vertex, State>)
    requires states.Keys == g.Keys && forall v | v in states :: states[v].NotVisited?
    ensures PhasesAgree(g, states, [], {}, {})
  {
  }

  lemma ReadyIsDone(g: Graph, states: map<Vertex, State>, log: seq<Event>, queued: set<Vertex>, active: set<Vertex>,
                    v: Vertex)
    requires Closed(g) && PhasesAgree(g, states, log, queued, active)
    requires v in g && Pending(g, states, v) == {}
    ensures forall u | u in g[v] :: PhaseOf(log, u) == Done
  {
    forall u | u in g[v] ensures PhaseOf(log, u) == Done {
      assert u !in Pending(g, states, v);
    }
  }

  lemma PhasesProvide(g: Graph, states: map<Vertex, State>, log: seq<Event>, queued: set<Vertex>, active: set<Vertex>,
                      v: Vertex)
    requires Closed(g) && PhasesAgree(g, states, log, queued, active)
    requires v in g && states[v].NotVisited? && Pending(g, states, v) == {}
    ensures PhasesAgree(g, states[v := Busy], log + [Provided(v, false)], queued + {v}, active)
  {
    ReadyIsDone(g, states, log, queued, active, v);
    Extend(g, log, Provided(v, false));
  }

  lemma PhasesSkip(g: Graph, states: map<Vertex, State>, log: seq<Event>, queued: set<Vertex>, active: set<Vertex>,
                   v: Vertex, requeue: bool)
    requires Closed(g) && PhasesAgree(g, states, log, queued, active)
    requires v in g && states[v].NotVisited? && Pending(g, states, v) == {}
    ensures PhasesAgree(g, states[v := Visited], log + [Provided(v, true)] + [Collected(v, requeue)], queued, active)
  {
    ReadyIsDone(g, states, log, queued, active, v);
    Extend(g, log, Provided(v, true));
    Extend(g, log + [Provided(v, true)], Collected(v, requeue));
  }

  lemma PhasesStart(g: Graph, states: map<Vertex, State>, log: seq<Event>, queued: set<Vertex>, active: set<Vertex>,
                    v: Vertex, slot: nat)
    requires PhasesAgree(g, states, log, queued, active) && v in queued
    ensures PhasesAgree(g, states, log + [Started(v, slot)], queued - {v}, active + {v})
  {
    Extend(g, log, Started(v, slot));
  }

  lemma PhasesRequeue(g: Graph, states: map<Vertex, State>, log: seq<Event>, queued: set<Vertex>, active: set<Vertex>,
                      v: Vertex)
    requires PhasesAgree(g, states, log, queued, active) && v in active
    ensures v !in queued
    ensures PhasesAgree(g, states, log + [Collected(v, true)], queued + {v}, active - {v})
  {
    Extend(g, log, Collected(v, true));
  }

  lemma PhasesFinish(g: Graph, states: map<Vertex, State>, log: seq<Event>, queued: set<Vertex>, active: set<Vertex>,
                     v: Vertex)
    requires PhasesAgree(g, states, log, queued, active) && v in active
    ensures v in states && states[v].Busy?
    ensures PhasesAgree(g, states[v := Visited], log + [Collected(v, false)], queued, active - {v})
  {
    Extend(g, log, Collected(v, false));
  }

  // ----- What each step does to the queues -----

  lemma PushKeeps(provider: Vertex -> Job, capacity: map<QueueName, int>, queues: Queues, nextIndex: int, job: Job)
    requires QueuesOk(provider, capacity, queues, nextIndex)
    requires job.queueName in capacity && job == provider(job.uid) && job.uid !in QueuedUids(queues)
    ensures var next := queues[job.queueName := queues[job.queueName] + {Entry(-job.priority, nextIndex, job)}];
            && QueuesOk(provider, capacity, next, nextIndex + 1)
            && QueuedUids(next) == QueuedUids(queues) + {job.uid}
            && Length(next) == Length(queues) + 1
            && (QueuedFit(capacity, queues) && Fits(capacity, job) ==> QueuedFit(capacity, next))
  {
    var name, e := job.queueName, Entry(-job.priority, nextIndex, job);
    assert queues.Keys == capacity.Keys;
    hide QueuesOk, QueuedUids, Length, QueuedFit, Fits;
    QueuesOkPush(provider, capacity, queues, nextIndex, name, e);
    UidsAfterPush(queues, name, e);
    LengthAfterPush(provider, capacity, queues, nextIndex, name, e);
    if QueuedFit(capacity, queues) && Fits(capacity, job) {
      FitAfterPush(capacity, queues, name, e);
    }
  }

  lemma QueuesOkPush(provider: Vertex -> Job, capacity: map<QueueName, int>, queues: Queues, nextIndex: int,
                     name: QueueName, e: Entry)
    requires QueuesOk(provider, capacity, queues, nextIndex)
    requires name in capacity && e == Entry(-e.job.priority, nextIndex, e.job) && e.job.queueName == name
    requires e.job == provider(e.job.uid) && e.job.uid !in QueuedUids(queues)
    ensures QueuesOk(provider, capacity, queues[name := queues[name] + {e}], nextIndex + 1)
  {
    forall f | f in queues[name] ensures f.job.uid != e.job.uid {
      QueuedIn(queues, name, f);
    }
    hide QueuedUids;
  }

  lemma LengthAfterPush(provider: Vertex -> Job, capacity: map<QueueName, int>, queues: Queues, nextIndex: int,
                        name: QueueName, e: Entry)
    requires QueuesOk(provider, capacity, queues, nextIndex) && name in capacity && e.index == nextIndex
    ensures Length(queues[name := queues[name] + {e}]) == Length(queues) + 1
  {
    assert e !in queues[name];
    hide Length;
    LengthUpdate(queues, name, queues[name] + {e});
  }

  lemma FitAfterPush(capacity: map<QueueName, int>, queues: Queues, name: QueueName, e: Entry)
    requires name in queues && QueuedFit(capacity, queues) && Fits(capacity, e.job)
    ensures QueuedFit(capacity, queues[name := queues[name] + {e}])
  {
    hide Fits;
  }

  lemma QueuedIn(queues: Queues, name: QueueName, e: Entry)
    requires name in queues && e in queues[name]
    ensures e.job.uid in QueuedUids(queues)
  {
  }

  lemma UidsAfterPush(queues: Queues, name: QueueName, e: Entry)
    requires name in queues
    ensures QueuedUids(queues[name := queues[name] + {e}]) == QueuedUids(queues) + {e.job.uid}
  {
    var next := queues[name := queues[name] + {e}];
    forall uid ensures uid in QueuedUids(next) <==> uid in QueuedUids(queues) + {e.job.uid} {
      if n: QueueName, f: Entry :| n in queues && f in queues[n] && f.job.uid == uid { assert f in next[n]; }
      assert e in next[name];
    }
  }

  lemma PopKeeps(provider: Vertex -> Job, capacity: map<QueueName, int>, queues: Queues, nextIndex: int,
                 name: QueueName, e: Entry)
    requires QueuesOk(provider, capacity, queues, nextIndex)
    requires name in queues && e in queues[name]
    ensures var next := queues[name := queues[name] - {e}];
            && QueuesOk(provider, capacity, next, nextIndex)
            && QueuedUids(next) == QueuedUids(queues) - {e.job.uid} && e.job.uid in QueuedUids(queues)
            && Length(next) == Length(queues) - 1
            && e.job == provider(e.job.uid) && e.job.queueName == name
            && (QueuedFit(capacity, queues) ==> Fits(capacity, e.job) && QueuedFit(capacity, next))
  {
    var next := queues[name := queues[name] - {e}];
    forall uid ensures uid in QueuedUids(next) <==> uid in QueuedUids(queues) - {e.job.uid} {
      if n: QueueName, f: Entry :| n in queues && f in queues[n] && f.job.uid == uid && uid != e.job.uid {
        assert f in next[n];
      }
      if n: QueueName, f: Entry :| n in next && f in next[n] && f.job.uid == uid { assert f in queues[n]; }
    }
    LengthUpdate(queues, name, queues[name] - {e});
  }

  lemma LengthUpdate(queues: Queues, name: QueueName, q: set<Entry>)
    requires name in queues
    ensures Length(queues[name := q]) == Length(queues) - |queues[name]| + |q|
  {
    var sizes, next := map n | n in queues :: |queues[n]|, queues[name := q];
    assert (map n | n in next :: |next[n]|) == sizes[name := |q|];
    SumUpdate(sizes, name, |q|);
  }

  /** The counter of queued jobs is 0 exactly when all queues are empty. */
  lemma LengthZero(queues: Queues)
    ensures Length(queues) >= 0
    ensures Length(queues) == 0 <==> forall name | name in queues :: queues[name] == {}
  {
    var sizes := map n | n in queues :: |queues[n]|;
    SumBounds(sizes);
    if Length(queues) == 0 {
      forall name | name in queues ensures queues[name] == {} {
        assert sizes[name] <= 0;
      }
    }
    if forall name | name in queues :: queues[name] == {} {
      SumZero(sizes);
    }
  }

  lemma {:induction false} SumZero(m: map<QueueName, int>)
    requires forall k | k in m :: m[k] == 0
    ensures Sum(m) == 0
    decreases |m|
  {
    if m != map[] {
      var k :| k in m;
      SumTake(m, k);
      SumZero(m - {k});
    }
  }

  lemma NothingQueued(queues: Queues)
    requires forall name | name in queues :: queues[name] == {}
    ensures QueuedUids(queues) == {} && Length(queues) == 0
  {
    LengthZero(queues);
  }

  // ----- What each step does to the active jobs -----

  lemma NothingActive(provider: Vertex -> Job)
    ensures Elements(UidsOf([])) == {} && ActiveOk(provider, [])
  {
  }

  ghost predicate ActiveOk(provider: Vertex -> Job, active: seq<ActiveJob>) {
    && Distinct(UidsOf(active))
    && forall a | a in active :: a.job == provider(a.job.uid)
  }

  lemma ActiveAppend(provider: Vertex -> Job, active: seq<ActiveJob>, a: ActiveJob)
    requires ActiveOk(provider, active) && a.job == provider(a.job.uid) && a.job.uid !in Elements(UidsOf(active))
    ensures ActiveOk(provider, active + [a])
    ensures Elements(UidsOf(active + [a])) == Elements(UidsOf(active)) + {a.job.uid}
  {
    assert UidsOf(active + [a]) == UidsOf(active) + [a.job.uid];
  }

  lemma ActiveRemove(provider: Vertex -> Job, active: seq<ActiveJob>, i: nat)
    requires ActiveOk(provider, active) && i < |active|
    ensures ActiveOk(provider, Remove(active, i))
    ensures active[i].job == provider(active[i].job.uid) && active[i].job.uid in Elements(UidsOf(active))
    ensures Elements(UidsOf(Remove(active, i))) == Elements(UidsOf(active)) - {active[i].job.uid}
  {
    var uids, rest := UidsOf(active), UidsOf(Remove(active, i));
    assert active[i] in active && uids[i] in uids;
    assert rest == uids[..i] + uids[i + 1..];
    forall uid ensures uid in rest <==> uid in uids && uid != uids[i] {
      if uid in uids && uid != uids[i] {
        var j :| 0 <= j < |uids| && uids[j] == uid;
        assert if j < i then rest[j] == uid else rest[j - 1] == uid;
      }
    }
  }

  class Scheduler {
    const jobProvider: Vertex -> Job
    ghost const capacity: map<QueueName, int>
    var queues: Queues
    var tokens: map<QueueName, int>
    var nTokens: nat
    var globalQueueIndex: int
    var slots: seq<nat>
    var activeJobs: seq<ActiveJob>
    var queuedJobs: int
    var allJobsQueued: bool
    var maxActiveJobs: nat
    var dag: DAG?
    var dagIterator: DAGIterator?
    var requeuesLeft: nat
    ghost var log: seq<Event>

    /** Nothing is queued or active, and every token and slot is in reserve. */
    ghost predicate Idle()
      reads this
    {
      && activeJobs == []
      && tokens == capacity
      && (forall name | name in capacity :: capacity[name] >= 0)
      && TokensConserved(capacity, nTokens, tokens, activeJobs)
      && SlotsConserved(nTokens, slots, activeJobs)
      && QueuesOk(jobProvider, capacity, queues, globalQueueIndex)
      && forall name | name in queues :: queues[name] == {}
    }

    /** Every job the provider gives for this graph fits a queue, unless it is skipped at once. */
    ghost predicate ProviderOk(g: Graph) {
      forall v | v in g :: jobProvider(v).uid == v && (jobProvider(v).shouldSkip || Fits(capacity, jobProvider(v)))
    }

    /** The active jobs hold what the free tokens and slots lack. */
    ghost predicate ResourcesOk()
      reads this`nTokens, this`tokens, this`slots, this`activeJobs
    {
      && TokensConserved(capacity, nTokens, tokens, activeJobs)
      && SlotsConserved(nTokens, slots, activeJobs)
      && ActiveOk(jobProvider, activeJobs)
    }

    ghost predicate QueuesCounted()
      reads this`queues, this`globalQueueIndex, this`queuedJobs
    {
      QueuesOk(jobProvider, capacity, queues, globalQueueIndex) && queuedJobs == Length(queues)
    }

    /** The scheduler has an iterator for its graph, and a provider that suits it. */
    ghost predicate Connected()
      reads this`dag, this`dagIterator, dagIterator, dag
    {
      && dagIterator != null && dag != null && dagIterator.dag == dag
      && dagIterator.Valid() && dagIterator.enableBusyState
      && ProviderOk(dag.vertexPredecessors)
    }

    ghost predicate Valid()
      reads this`queues, this`tokens, this`nTokens, this`globalQueueIndex, this`slots, this`activeJobs, this`queuedJobs,
            this`allJobsQueued, this`dag, this`dagIterator, this`log, dagIterator, dag
    {
      && dagIterator != null && dag != null
      && Connected()
      && ResourcesOk()
      && QueuesCounted()
      && QueuedFit(capacity, queues)
      && PhasesAgree(dag.vertexPredecessors, dagIterator.states, log, QueuedUids(queues), Elements(UidsOf(activeJobs)))
      && (allJobsQueued ==> dagIterator.nonVisited == {})
    }

    constructor (jobProvider: Vertex -> Job, queues: map<QueueName, nat>, tokens: nat, requeuesLeft: nat)
      ensures Idle() && this.jobProvider == jobProvider && this.requeuesLeft == requeuesLeft
      ensures capacity == if queues == map[] then map["default" := tokens] else queues
      ensures nTokens == Sum(capacity)
    {
      var sizes: map<QueueName, int> := if queues == map[] then map["default" := tokens] else queues;
      this.jobProvider := jobProvider;
      this.capacity := sizes;
      this.requeuesLeft := requeuesLeft;
      var table, free, total := Tables(sizes);
      this.queues := table;
      this.tokens := free;
      this.nTokens := total;
      this.globalQueueIndex := 1;
      this.slots := seq(total, i requires 0 <= i < total => i);
      SlotsInitial(total, seq(total, i requires 0 <= i < total => i));
      this.activeJobs := [];
      this.queuedJobs := 0;
      this.allJobsQueued := false;
      this.maxActiveJobs := 0;
      this.dag := null;
      this.dagIterator := null;
      this.log := [];
    }

    /** An empty queue and all its tokens for each name. */
    static method Tables(sizes: map<QueueName, int>) returns (table: Queues, free: map<QueueName, int>, total: nat)
      requires forall name | name in sizes :: sizes[name] >= 0
      ensures table == map name | name in sizes :: {}
      ensures free == sizes && total == Sum(sizes)
    {
      table, free, total := map[], map[], 0;
      var todo := sizes.Keys;
      while todo != {}
        invariant todo <= sizes.Keys
        invariant table == map name | name in sizes && name !in todo :: {}
        invariant free == map name | name in sizes && name !in todo :: sizes[name]
        invariant total == Sum(free)
      {
        var name :| name in todo;
        todo := todo - {name};
        table := table[name := {}];
        SumAdd(free, name, sizes[name]);
        free := free[name := sizes[name]];
        total := total + sizes[name];
      }
      assert free == sizes;
    }

    method InitState(dag: DAG)
      requires Idle() && dag.Valid() && Closed(dag.vertexPredecessors) && ProviderOk(dag.vertexPredecessors)
      modifies this`activeJobs, this`queuedJobs, this`allJobsQueued, this`dag, this`dagIterator, this`maxActiveJobs,
               this`log
      ensures this.dag == dag && dagIterator != null && fresh(dagIterator) && Valid()
      ensures log == [] && activeJobs == [] && maxActiveJobs == 0
    {
      hide Valid, Connected, ProviderOk, TokensConserved, SlotsConserved, QueuesOk, DAG.Valid, Iterating, Closed;
      activeJobs := [];
      queuedJobs := 0;
      allJobsQueued := false;
      this.dag := dag;
      dagIterator := new DAGIterator(dag, true);
      maxActiveJobs := 0;
      log := [];
      Fresh();
    }

    /** With nothing queued, active or logged, a new iterator makes the scheduler valid. */
    lemma Fresh()
      requires dag != null && dagIterator != null && dagIterator.dag == dag
      requires dagIterator.Valid() && dagIterator.enableBusyState && ProviderOk(dag.vertexPredecessors)
      requires dagIterator.nonVisited == dag.vertexPredecessors.Keys
      requires TokensConserved(capacity, nTokens, tokens, activeJobs) && SlotsConserved(nTokens, slots, activeJobs)
      requires QueuesOk(jobProvider, capacity, queues, globalQueueIndex)
      requires forall name | name in queues :: queues[name] == {}
      requires activeJobs == [] && queuedJobs == 0 && !allJobsQueued && log == []
      ensures Valid()
    {
      hide TokensConserved, SlotsConserved, QueuesOk, ProviderOk, DAG.CachesAgree, QueuedUids, Length, ActiveOk,
           Iterating, PhasesAgree;
      NothingQueued(queues);
      NothingActive(jobProvider);
      ReadyIff(dag.vertexPredecessors, true, dagIterator.nonVisited, dagIterator.states, dagIterator.predNumber);
      PhasesInitial(dag.vertexPredecessors, dagIterator.states);
    }

    predicate IsFinished()
      reads this
    {
      allJobsQueued && queuedJobs == 0 && activeJobs == []
    }

    /** The collect callback: any answer, but only finitely many requests to requeue. */
    method SafeCollect(job: Job) returns (requeue: bool)
      modifies this`log, this`requeuesLeft
      ensures log == old(log) + [Collected(job.uid, requeue)]
      ensures if requeue then requeuesLeft == old(requeuesLeft) - 1 else requeuesLeft == old(requeuesLeft)
    {
      requeue := *;
      if requeuesLeft == 0 {
        requeue := false;
      }
      if requeue {
        requeuesLeft := requeuesLeft - 1;
      }
      log := log + [Collected(job.uid, requeue)];
    }

    method SafeJobProvider(uid: Vertex) returns (job: Job)
      modifies this`log
      ensures job == jobProvider(uid) && log == old(log) + [Provided(uid, job.shouldSkip)]
    {
      job := jobProvider(uid);
      log := log + [Provided(uid, job.shouldSkip)];
    }

    method Push(job: Job)
      requires QueuesCounted()
      requires job.queueName in capacity && job == jobProvider(job.uid) && job.uid !in QueuedUids(queues)
      modifies this`queues, this`globalQueueIndex, this`queuedJobs
      ensures QueuesCounted()
      ensures QueuedFit(capacity, old(queues)) && Fits(capacity, job) ==> QueuedFit(capacity, queues)
      ensures QueuedUids(queues) == QueuedUids(old(queues)) + {job.uid}
      ensures var e := Entry(-job.priority, old(globalQueueIndex), job);
              queues == old(queues)[job.queueName := old(queues)[job.queueName] + {e}]
    {
      hide QueuedUids, Length, Fits, QueuedFit;
      PushKeeps(jobProvider, capacity, queues, globalQueueIndex, job);
      queues := queues[job.queueName := queues[job.queueName] + {Entry(-job.priority, globalQueueIndex, job)}];
      globalQueueIndex := globalQueueIndex + 1;
      queuedJobs := queuedJobs + 1;
    }

    /** Everything is queued, or what is left waits for something. */
    ghost predicate NoneLeftReady()
      reads this`allJobsQueued, this`dag, this`dagIterator, dag, dagIterator
      requires dag != null && dagIterator != null
    {
      && (allJobsQueued <==> dagIterator.nonVisited == {})
      && (!allJobsQueued ==> forall v | v in dagIterator.nonVisited ::
            Pending(dag.vertexPredecessors, dagIterator.states, v) != {})
    }

    /** No job at the head of a queue has tokens enough. */
    ghost predicate NoHeadFits()
      reads this`queues, this`tokens
    {
      forall name | name in queues :: name in tokens && Blocked(queues, tokens, name)
    }

    /** Asks the provider for a job for every ready vertex; a job that should be skipped ends at once. */
    method Enqueue()
      requires Valid()
      modifies this`queues, this`globalQueueIndex, this`queuedJobs, this`allJobsQueued, this`log, this`requeuesLeft,
               dagIterator, dag`vertexSuccessors
      ensures Valid() && NoneLeftReady()
      ensures NothingEnds(old(log), log)
      ensures requeuesLeft + |Unfinished(dagIterator.states)| <= old(requeuesLeft + |Unfinished(dagIterator.states)|)
    {
      hide Unfinished, Connected, ResourcesOk, QueuesCounted, QueuedFit, PhasesAgree, Pending, NothingEnds;
      NothingYet(log);
      if allJobsQueued {
        return;
      }
      var more := true;
      while more
        invariant Valid()
        invariant if more then !allJobsQueued else NoneLeftReady()
        invariant NothingEnds(old(log), log)
        invariant requeuesLeft + |Unfinished(dagIterator.states)|
                  <= old(requeuesLeft + |Unfinished(dagIterator.states)|)
        decreases |dagIterator.nonVisited|, more
      {
        hide Valid;
        ghost var log0 := log;
        more := EnqueueNext();
        NothingEndsThen(old(log), log0, log);
      }
    }

    /** One round of the loop in Enqueue. */
    method EnqueueNext() returns (more: bool)
      requires Valid() && !allJobsQueued
      modifies this`queues, this`globalQueueIndex, this`queuedJobs, this`allJobsQueued, this`log, this`requeuesLeft,
               dagIterator, dag`vertexSuccessors
      ensures Valid() && if more then !allJobsQueued else NoneLeftReady()
      ensures |dagIterator.nonVisited| <= |old(dagIterator.nonVisited)|
      ensures more ==> |dagIterator.nonVisited| < |old(dagIterator.nonVisited)|
      ensures NothingEnds(old(log), log)
      ensures requeuesLeft + |Unfinished(dagIterator.states)| <= old(requeuesLeft + |Unfinished(dagIterator.states)|)
    {
      hide DAG.CachesAgree, Iterating, Pending, PhasesAgree, QueuesCounted, QueuedUids, QueuedFit, ResourcesOk,
           ProviderOk;
      hide Unfinished, UidsOf, Closed, NamesCycle, NothingEnds;
      NothingYet(log);
      ghost var states := dagIterator.states;
      ReadyIff(dag.vertexPredecessors, true, dagIterator.nonVisited, states, dagIterator.predNumber);
      var next := dagIterator.NextElement();
      match next
      case StopIteration =>
        allJobsQueued := true;
        more := false;
      case NoneReady =>
        more := false;
      case Element(uid, data, predecessors) =>
        Admit(uid, states);
        more := true;
    }

    /**
     The iterator has found uid ready and made it busy; the log, log0 before that, ends with the call of
     the provider.
     */
    ghost predicate Admitting(uid: Vertex, before: map<Vertex, State>, log0: seq<Event>)
      reads this`queues, this`tokens, this`nTokens, this`globalQueueIndex, this`slots, this`activeJobs, this`queuedJobs,
            this`dag, this`dagIterator, dagIterator, dag
    {
      && Connected() && ResourcesOk() && QueuesCounted() && QueuedFit(capacity, queues)
      && before.Keys == dag.vertexPredecessors.Keys && dagIterator.states == before[uid := Busy]
      && uid in before && before[uid].NotVisited? && Pending(dag.vertexPredecessors, before, uid) == {}
      && PhasesAgree(dag.vertexPredecessors, before, log0, QueuedUids(queues), Elements(UidsOf(activeJobs)))
    }

    /** What Enqueue does with one ready vertex; before is the iterator's state when it was found ready. */
    method Admit(uid: Vertex, ghost before: map<Vertex, State>)
      requires Admitting(uid, before, log) && !allJobsQueued
      modifies this`queues, this`globalQueueIndex, this`queuedJobs, this`log, this`requeuesLeft, dagIterator,
               dag`vertexSuccessors
      ensures Valid() && dagIterator.nonVisited == old(dagIterator.nonVisited)
      ensures NothingEnds(old(log), log)
      ensures requeuesLeft + |Unfinished(dagIterator.states)| <= old(requeuesLeft) + |Unfinished(before)|
    {
      hide Admitting, Valid, Connected, Unfinished;
      AdmittingMeans(uid, before, log);
      ghost var log0 := log;
      var job := SafeJobProvider(uid);
      if job.shouldSkip {
        AdmitSkipped(job, before, log0);
      } else {
        AdmitQueued(job, before, log0);
        ProvidingEndsNothing(log0, uid, false, []);
        assert log == log0 + [Provided(uid, false)] + [];
      }
    }

    lemma AdmittingMeans(uid: Vertex, before: map<Vertex, State>, log0: seq<Event>)
      requires Admitting(uid, before, log0)
      ensures dag != null && dagIterator != null && jobProvider(uid).uid == uid
      ensures jobProvider(uid).shouldSkip || Fits(capacity, jobProvider(uid))
      ensures uid !in QueuedUids(queues)
      ensures before[uid := Busy][uid := Visited] == before[uid := Visited]
      ensures uid in before && |Unfinished(before[uid := Visited])| <= |Unfinished(before)|
      ensures |Unfinished(before[uid := Busy])| == |Unfinished(before)|
    {
      hide DAG.CachesAgree, Iterating, QueuesCounted, ResourcesOk, QueuedUids, QueuedFit, UidsOf, Legal;
      BusyMeans(before, uid);
      NotQueued(dag.vertexPredecessors, before, log0, QueuedUids(queues), Elements(UidsOf(activeJobs)), uid);
    }

    /** A job that should be skipped is collected at once, and its vertex is left. */
    method AdmitSkipped(job: Job, ghost before: map<Vertex, State>, ghost log0: seq<Event>)
      requires Admitting(job.uid, before, log0) && log == log0 + [Provided(job.uid, true)] && !allJobsQueued
      modifies this`log, this`requeuesLeft, dagIterator, dag`vertexSuccessors
      ensures Valid() && dagIterator.nonVisited == old(dagIterator.nonVisited)
      ensures NothingEnds(log0, log)
      ensures requeuesLeft + |Unfinished(dagIterator.states)| <= old(requeuesLeft) + |Unfinished(before)|
    {
      hide DAG.CachesAgree, Iterating, Pending, PhasesAgree, QueuesCounted, QueuedUids, QueuedFit, ResourcesOk, Fits,
           Unfinished, UidsOf;
      hide Valid, ProviderOk;
      AdmittingMeans(job.uid, before, log0);
      ghost var g, queued, active := dag.vertexPredecessors, QueuedUids(queues), Elements(UidsOf(activeJobs));
      var ignored := SafeCollect(job);
      PhasesSkip(g, before, log0, queued, active, job.uid, ignored);
      ProvidingEndsNothing(log0, job.uid, true, [Collected(job.uid, ignored)]);
      dagIterator.Leave(job.uid);
      Assemble();
    }

    /** Another job joins its queue. */
    method AdmitQueued(job: Job, ghost before: map<Vertex, State>, ghost log0: seq<Event>)
      requires Admitting(job.uid, before, log0) && log == log0 + [Provided(job.uid, false)] && !allJobsQueued
      requires job == jobProvider(job.uid) && Fits(capacity, job)
      modifies this`queues, this`globalQueueIndex, this`queuedJobs
      ensures Valid()
      ensures |Unfinished(dagIterator.states)| == |Unfinished(before)|
    {
      hide DAG.CachesAgree, Iterating, Pending, PhasesAgree, QueuesCounted, QueuedUids, QueuedFit, ResourcesOk,
           Unfinished, UidsOf;
      hide Valid, ProviderOk;
      AdmittingMeans(job.uid, before, log0);
      PhasesProvide(dag.vertexPredecessors, before, log0, QueuedUids(queues), Elements(UidsOf(activeJobs)), job.uid);
      Push(job);
      Assemble();
    }

    lemma Assemble()
      requires dag != null && dagIterator != null && Connected() && ResourcesOk() && QueuesCounted() && !allJobsQueued
      requires QueuedFit(capacity, queues)
      requires PhasesAgree(dag.vertexPredecessors, dagIterator.states, log, QueuedUids(queues),
                           Elements(UidsOf(activeJobs)))
      ensures Valid()
    {
      hide PhasesAgree, QueuesCounted, QueuedFit, ResourcesOk, Connected;
    }

    /** Starts jobs, the most urgent of each queue first, as long as the tokens last. */
    method Launch()
      requires Valid()
      modifies this`queues, this`queuedJobs, this`slots, this`tokens, this`activeJobs, this`log
      ensures Valid() && NoHeadFits() && queues.Keys == old(queues).Keys
      ensures forall name | name in queues :: UrgentFirst(old(queues)[name], queues[name])
      ensures NothingEnds(old(log), log) && old(activeJobs) <= activeJobs
    {
      hide Valid, NothingEnds, UrgentFirst, Blocked;
      NothingYet(log);
      SameIsUrgentFirst(queues);
      QueueNames();
      if queuedJobs == 0 {
        NothingToLaunch();
        return;
      }
      ghost var names := queues.Keys;
      var todo := queues.Keys;
      while todo != {}
        invariant todo <= names == queues.Keys == tokens.Keys == old(queues).Keys && Valid()
        invariant forall name | name in names - todo :: Blocked(queues, tokens, name)
        invariant forall name | name in names - todo :: UrgentFirst(old(queues)[name], queues[name])
        invariant forall name | name in todo :: queues[name] == old(queues)[name]
        invariant NothingEnds(old(log), log) && old(activeJobs) <= activeJobs
      {
        var name :| name in todo;
        todo := todo - {name};
        ghost var queues0, tokens0, log0 := queues, tokens, log;
        ghost var active0 := activeJobs;
        ghost var started := LaunchQueue(name);
        assert active0 <= activeJobs;
        NothingEndsThen(old(log), log0, log);
        forall other | other in names - todo && other != name ensures Blocked(queues, tokens, other) {
          StaysBlocked(queues0, tokens0, queues, tokens, other);
        }
      }
    }

    lemma NothingToLaunch()
      requires Valid() && queuedJobs == 0
      ensures NoHeadFits()
    {
      LengthZero(queues);
    }

    lemma QueueNames()
      requires Valid()
      ensures queues.Keys == tokens.Keys == capacity.Keys
    {
    }

    /** The inner loop of Launch, for one queue; started are the entries whose jobs it starts, in that order. */
    method LaunchQueue(name: QueueName) returns (ghost started: seq<Entry>)
      requires Valid() && name in queues && queues.Keys == tokens.Keys
      modifies this`queues, this`queuedJobs, this`slots, this`tokens, this`activeJobs, this`log
      ensures Valid() && queues.Keys == tokens.Keys == old(queues.Keys)
      ensures Blocked(queues, tokens, name)
      ensures forall other | other in queues && other != name ::
                queues[other] == old(queues)[other] && tokens[other] == old(tokens)[other]
      ensures StartedInOrder(old(queues)[name], queues[name], started)
      ensures JobsStarted(old(activeJobs), activeJobs, started)
      ensures UrgentFirst(old(queues)[name], queues[name]) && NothingEnds(old(log), log)
    {
      hide *;
      started := [];
      NothingYet(log);
      NothingStarted(queues[name], activeJobs);
      while queues[name] != {}
        invariant Valid() && queues.Keys == tokens.Keys == old(queues.Keys)
        invariant forall other | other in queues && other != name ::
                    queues[other] == old(queues)[other] && tokens[other] == old(tokens)[other]
        invariant StartedInOrder(old(queues)[name], queues[name], started)
        invariant JobsStarted(old(activeJobs), activeJobs, started)
        invariant NothingEnds(old(log), log)
        decreases |queues[name]|
      {
        var head := Least(queues[name]);
        HeadOf(name, head);
        if head.job.tokens > tokens[name] {
          HeadBlocks(queues, tokens, name, head);
          OrderMeans(old(queues)[name], queues[name], started);
          return;
        }
        ghost var q, log0, active0 := queues[name], log, activeJobs;
        StartHead(name, head);
        OneMoreJob(old(activeJobs), active0, started, activeJobs, head);
        NothingEndsThen(old(log), log0, log);
        OneMoreStarted(old(queues)[name], q, started, head);
        started := started + [head];
      }
      OrderMeans(old(queues)[name], queues[name], started);
      EmptyBlocks(queues, tokens, name);
    }

    /** The least entry by negated priority and index is the most urgent one. */
    lemma HeadOf(name: QueueName, head: Entry)
      requires Valid() && name in queues && head in queues[name] && forall f | f in queues[name] :: Before(head, f)
      ensures IsHead(head, queues[name])
    {
    }

    /** Starts the job at the head of a queue that has tokens enough. */
    method StartHead(name: QueueName, head: Entry)
      requires Valid() && name in queues && name in tokens && IsHead(head, queues[name])
      requires head.job.tokens <= tokens[name]
      modifies this`queues, this`queuedJobs, this`slots, this`tokens, this`activeJobs, this`log
      ensures Valid()
      ensures queues == old(queues)[name := old(queues)[name] - {head}]
      ensures forall f | f in queues[name] ::
                f.job.priority < head.job.priority || (f.job.priority == head.job.priority && f.index > head.index)
      ensures tokens == old(tokens)[name := old(tokens)[name] - head.job.tokens]
      ensures |old(slots)| >= 1 && slots == old(slots)[..|old(slots)| - 1]
      ensures var slot := old(slots)[|old(slots)| - 1];
              activeJobs == old(activeJobs) + [ActiveJob(head.job, slot)]
              && log == old(log) + [Started(head.job.uid, slot)]
      ensures NothingEnds(old(log), log)
    {
      hide PhasesAgree, QueuesOk, TokensConserved, SlotsConserved, ActiveOk, Length, QueuedUids, UidsOf, Connected,
           Fits;
      ghost var g, states := dag.vertexPredecessors, dagIterator.states;
      ghost var queued, active := QueuedUids(queues), Elements(UidsOf(activeJobs));
      var job := head.job;
      PopKeeps(jobProvider, capacity, queues, globalQueueIndex, name, head);
      SlotAvailable(capacity, nTokens, tokens, slots, activeJobs, job);
      var slot := slots[|slots| - 1];
      NotActive(g, states, log, queued, active, job.uid);
      PhasesStart(g, states, log, queued, active, job.uid, slot);
      SlotsStart(nTokens, slots, activeJobs, job);
      TokensStart(capacity, nTokens, tokens, activeJobs, ActiveJob(job, slot));
      ActiveAppend(jobProvider, activeJobs, ActiveJob(job, slot));
      queues := queues[name := queues[name] - {head}];
      queuedJobs := queuedJobs - 1;
      slots := slots[..|slots| - 1];
      tokens := tokens[name := tokens[name] - job.tokens];
      activeJobs := activeJobs + [ActiveJob(job, slot)];
      log := log + [Started(job.uid, slot)];
    }

    /** Takes the end of one active job: gives back what it held, and requeues it or finishes its vertex. */
    method Wait() returns (ghost index: nat)
      requires Valid()
      modifies this`queues, this`globalQueueIndex, this`queuedJobs, this`slots, this`tokens, this`activeJobs, this`log,
               this`requeuesLeft, dagIterator, dag`vertexSuccessors
      ensures Valid() && dagIterator.nonVisited == old(dagIterator.nonVisited)
      ensures old(activeJobs) == [] ==> activeJobs == [] && log == old(log) && requeuesLeft == old(requeuesLeft)
                                        && dagIterator.states == old(dagIterator.states)
                                        && queuedJobs == old(queuedJobs)
      ensures old(activeJobs) != [] ==>
                requeuesLeft + |Unfinished(dagIterator.states)|
                == old(requeuesLeft + |Unfinished(dagIterator.states)|) - 1
      ensures old(activeJobs) == [] ==> slots == old(slots) && tokens == old(tokens)
      ensures old(activeJobs) != [] ==>
                && index < |old(activeJobs)|
                && var ended := old(activeJobs)[index];
                   && activeJobs == Remove(old(activeJobs), index) && slots == old(slots) + [ended.slot]
                   && ended.job.queueName in old(tokens)
                   && tokens == old(tokens)[ended.job.queueName := old(tokens)[ended.job.queueName] + ended.job.tokens]
                   && exists requeue :: log == old(log) + [Collected(ended.job.uid, requeue)]
    {
      hide Valid, Unfinished, Ending, TokensConserved, SlotsConserved, ActiveOk, UidsOf, Fits;
      if activeJobs == [] {
        return 0;
      }
      var arrived: nat :| arrived < |activeJobs|;  // the job whose message arrives
      index := arrived;
      var job := activeJobs[arrived].job;
      EndMeans(index);
      slots := slots + [activeJobs[arrived].slot];
      tokens := tokens[job.queueName := tokens[job.queueName] + job.tokens];
      CollectEnd(job, Elements(UidsOf(activeJobs)));
      activeJobs := activeJobs[..arrived] + activeJobs[arrived + 1..];
      AssembleEnd();
    }

    /** What is known of an active job and of everything else without it. */
    lemma EndMeans(index: nat)
      requires Valid() && index < |activeJobs|
      ensures var job, rest := activeJobs[index].job, Remove(activeJobs, index);
              && job.queueName in tokens && Fits(capacity, job) && job == jobProvider(job.uid)
              && job.uid in Elements(UidsOf(activeJobs))
              && Elements(UidsOf(rest)) == Elements(UidsOf(activeJobs)) - {job.uid}
              && TokensConserved(capacity, nTokens, tokens[job.queueName := tokens[job.queueName] + job.tokens], rest)
              && SlotsConserved(nTokens, slots + [activeJobs[index].slot], rest) && ActiveOk(jobProvider, rest)
      ensures dag != null && dagIterator != null
      ensures Ending(Elements(UidsOf(activeJobs)), log) && (allJobsQueued ==> dagIterator.nonVisited == {})
    {
      hide PhasesAgree, QueuesCounted, QueuedFit, TokensConserved, SlotsConserved, ActiveOk, QueuedUids, UidsOf, Fits,
           Connected;
      SlotsEnd(nTokens, slots, activeJobs, index);
      TokensEnd(capacity, nTokens, tokens, activeJobs, index);
      ActiveRemove(jobProvider, activeJobs, index);
      ActiveFits(capacity, nTokens, tokens, activeJobs, index);
    }

    lemma AssembleEnd()
      requires dag != null && dagIterator != null && ResourcesOk() && Ending(Elements(UidsOf(activeJobs)), log)
      requires allJobsQueued ==> dagIterator.nonVisited == {}
      ensures Valid()
    {
      hide PhasesAgree, QueuesCounted, QueuedFit, ResourcesOk, Connected, UidsOf;
    }

    /** Everything agrees when the log is log0; active are the vertices whose job is active. */
    ghost predicate Ending(active: set<Vertex>, log0: seq<Event>)
      reads this`queues, this`globalQueueIndex, this`queuedJobs, this`dag, this`dagIterator, dagIterator, dag
    {
      && Connected() && QueuesCounted() && QueuedFit(capacity, queues)
      && PhasesAgree(dag.vertexPredecessors, dagIterator.states, log0, QueuedUids(queues), active)
    }

    /** The part of Wait that asks collect whether the job runs again. */
    method CollectEnd(job: Job, ghost active: set<Vertex>)
      requires dagIterator != null && dag != null && Ending(active, log)
      requires job.uid in active && job == jobProvider(job.uid) && Fits(capacity, job)
      modifies this`queues, this`globalQueueIndex, this`queuedJobs, this`log, this`requeuesLeft, dagIterator,
               dag`vertexSuccessors
      ensures Ending(active - {job.uid}, log) && dagIterator.nonVisited == old(dagIterator.nonVisited)
      ensures requeuesLeft + |Unfinished(dagIterator.states)|
              == old(requeuesLeft + |Unfinished(dagIterator.states)|) - 1
      ensures exists requeue :: log == old(log) + [Collected(job.uid, requeue)]
    {
      hide Ending, Unfinished, Fits;
      ghost var log0 := log;
      var requeue := SafeCollect(job);
      if requeue {
        Requeue(job, active, log0);
      } else {
        Finished(job, active, log0);
      }
    }

    /** The job joins its queue again. */
    method Requeue(job: Job, ghost active: set<Vertex>, ghost log0: seq<Event>)
      requires dagIterator != null && dag != null && Ending(active, log0) && log == log0 + [Collected(job.uid, true)]
      requires job.uid in active && job == jobProvider(job.uid) && Fits(capacity, job)
      modifies this`queues, this`globalQueueIndex, this`queuedJobs
      ensures Ending(active - {job.uid}, log)
    {
      hide PhasesAgree, QueuesCounted, QueuedUids, QueuedFit, DAG.CachesAgree, Iterating, Pending, ProviderOk,
           DAGIterator.Valid;
      PhasesRequeue(dag.vertexPredecessors, dagIterator.states, log0, QueuedUids(queues), active, job.uid);
      Push(job);
    }

    /** The vertex of the job is left. */
    method Finished(job: Job, ghost active: set<Vertex>, ghost log0: seq<Event>)
      requires dagIterator != null && dag != null && Ending(active, log0) && log == log0 + [Collected(job.uid, false)]
      requires job.uid in active
      modifies dagIterator, dag`vertexSuccessors
      ensures Ending(active - {job.uid}, log) && dagIterator.nonVisited == old(dagIterator.nonVisited)
      ensures |Unfinished(dagIterator.states)| == |old(Unfinished(dagIterator.states))| - 1
    {
      hide PhasesAgree, QueuesCounted, QueuedUids, QueuedFit, Unfinished, DAG.CachesAgree, Iterating, Pending,
           ProviderOk;
      PhasesFinish(dag.vertexPredecessors, dagIterator.states, log0, QueuedUids(queues), active, job.uid);
      BusyFinishes(dagIterator.states, job.uid);
      if job.uid in dag.vertexData {
        dagIterator.Leave(job.uid);
      }
    }

    /** Runs the jobs of a DAG to the end. */
    method Run(dag: DAG)
      requires Idle() && dag.Valid() && ValidDag(dag.vertexPredecessors) && ProviderOk(dag.vertexPredecessors)
      modifies this`queues, this`globalQueueIndex, this`queuedJobs, this`slots, this`tokens, this`activeJobs, this`log,
               this`requeuesLeft, this`allJobsQueued, this`dag, this`dagIterator, this`maxActiveJobs,
               dag`vertexSuccessors
      ensures Idle() && IsFinished()
      ensures dag.Valid() && Legal(dag.vertexPredecessors, log)
      ensures forall v | v in dag.vertexPredecessors :: PhaseOf(log, v) == Done
      ensures PeakIs(dag.vertexPredecessors, log, maxActiveJobs) && maxActiveJobs <= nTokens == old(nTokens)
    {
      hide Valid, Idle, Unfinished, Acyclic, NoneLeftReady, NoHeadFits, ProviderOk, DAG.Valid, PeakIs, Active,
           NothingEnds;
      InitState(dag);
      PeakAtStart(dag.vertexPredecessors);
      while !IsFinished()
        invariant this.dag == dag && dagIterator != null && fresh(dagIterator) && Valid()
                  && maxActiveJobs <= nTokens == old(nTokens)
        invariant PeakIs(dag.vertexPredecessors, log, maxActiveJobs)
        decreases requeuesLeft + |Unfinished(dagIterator.states)|, if IsFinished() then 0 else 1
      {
        ghost var work, log0 := requeuesLeft + |Unfinished(dagIterator.states)|, log;
        Enqueue();
        ghost var log1 := log;
        Launch();
        Progress();
        NothingEndsThen(log0, log1, log);
        ActiveAreCounted();
        PeakGrows(dag.vertexPredecessors, log0, log, maxActiveJobs);
        maxActiveJobs := if maxActiveJobs < |activeJobs| then |activeJobs| else maxActiveJobs;
        ghost var log2 := log;
        ghost var active := activeJobs;
        ghost var ended := Wait();
        if active != [] {
          ghost var requeue :| log == log2 + [Collected(active[ended].job.uid, requeue)];
          PeakStays(dag.vertexPredecessors, log2, Collected(active[ended].job.uid, requeue), maxActiveJobs);
        }
      }
      Finish();
    }

    /** There is one active job for each vertex that the log says is running. */
    lemma ActiveAreCounted()
      requires Valid()
      ensures Legal(dag.vertexPredecessors, log) && |activeJobs| == |Active(dag.vertexPredecessors, log)|
    {
      var uids := UidsOf(activeJobs);
      assert Elements(uids) == Active(dag.vertexPredecessors, log);
      DistinctSize(uids);
    }

    /** After a launch there is an active job, or the run is over: the scheduler cannot deadlock. */
    lemma Progress()
      requires Valid() && Acyclic(dag.vertexPredecessors) && NoneLeftReady() && NoHeadFits()
      ensures activeJobs != [] || IsFinished()
      ensures |activeJobs| <= nTokens
    {
      SlotsSize(nTokens, slots, activeJobs);
      if activeJobs == [] {
        BlockedMeansEmpty();
        NothingQueued(queues);
        assert Elements(UidsOf([])) == {};
        var g, states := dag.vertexPredecessors, dagIterator.states;
        if !allJobsQueued {
          NobodyBusy(g, states, log, dagIterator.nonVisited);
        }
      }
    }

    /** With all tokens free, a head that needs more than there are free does not fit its queue. */
    lemma BlockedMeansEmpty()
      requires ResourcesOk() && QueuesCounted() && QueuedFit(capacity, queues) && activeJobs == []
      requires NoHeadFits()
      ensures forall name | name in queues :: queues[name] == {}
    {
      forall name | name in queues ensures queues[name] == {} {
        assert Held(activeJobs, name) == 0;
        assert tokens[name] == capacity[name];
        forall e | e in queues[name] ensures e.job.tokens <= tokens[name] {
          assert Fits(capacity, e.job);
        }
      }
    }

    /** On a graph with a cycle no state of a run is finished: the loop of Run cannot end. */
    lemma FinishedMeansAcyclic()
      requires Valid() && IsFinished()
      ensures ValidDag(dag.vertexPredecessors)
    {
      Finish();
      CompleteRunIsTopological(dag.vertexPredecessors, log);
    }

    /** At any time no queue is overdrawn and no two active jobs share a slot. */
    lemma ResourcesShared()
      requires Valid()
      ensures forall name | name in capacity :: 0 <= Held(activeJobs, name) <= capacity[name]
      ensures forall i, j | 0 <= i < j < |activeJobs| :: activeJobs[i].slot != activeJobs[j].slot
      ensures forall i | 0 <= i < |activeJobs| :: activeJobs[i].slot < nTokens
    {
      SlotsUnique(nTokens, slots, activeJobs);
      HeldBounds(activeJobs);
    }

    /**
     Between the steps of a run the busy vertices are exactly those with a job in a queue or an active
     job, each has one such job, and the jobs of its predecessors have ended for good.
     */
    lemma BusyExactly()
      requires Valid()
      ensures forall v | v in dagIterator.states ::
                dagIterator.states[v].Busy? <==> v in QueuedUids(queues) || v in UidsOf(activeJobs)
      ensures forall v | v in QueuedUids(queues) :: v !in UidsOf(activeJobs)
      ensures Distinct(UidsOf(activeJobs))
      ensures forall name, e, f | name in queues && e in queues[name] && f in queues[name] && e.job.uid == f.job.uid ::
                e == f
      ensures forall v, u | v in dagIterator.states && dagIterator.states[v].Busy? && u in dag.vertexPredecessors[v] ::
                u in dagIterator.states && dagIterator.states[u].Visited?
    {
      hide TokensConserved, SlotsConserved, DAG.CachesAgree, UidsOf, QueuedUids, Legal, Length, Fits;
      var states := dagIterator.states;
      forall v | v in states
        ensures states[v].Busy? <==> v in QueuedUids(queues) || v in UidsOf(activeJobs)
      {
        assert v in UidsOf(activeJobs) <==> v in Elements(UidsOf(activeJobs));
        assert states[v].Busy? <==> PhaseOf(log, v) == Waiting || PhaseOf(log, v) == Running;
      }
      forall v, u | v in states && states[v].Busy? && u in dag.vertexPredecessors[v]
        ensures u in states && states[u].Visited?
      {
        assert u !in Pending(dag.vertexPredecessors, states, v);
      }
    }

    /** A finished run has visited every vertex and holds nothing. */
    lemma Finish()
      requires Valid() && IsFinished()
      ensures Idle() && dag.Valid() && Legal(dag.vertexPredecessors, log)
      ensures forall v | v in dag.vertexPredecessors :: PhaseOf(log, v) == Done
    {
      LengthZero(queues);
      NothingQueued(queues);
      assert Elements(UidsOf([])) == {};
    }
  }

  lemma BusyMeans(states: map<Vertex, State>, v: Vertex)
    requires v in states && states[v].NotVisited?
    ensures states[v := Busy][v := Visited] == states[v := Visited]
    ensures |Unfinished(states[v := Visited])| == |Unfinished(states)| - 1
    ensures Unfinished(states[v := Busy]) == Unfinished(states)
  {
    UnfinishedShrinks(states, v);
  }

  /** The vertices an iteration has not finished. */
  ghost function Unfinished(states: map<Vertex, State>): set<Vertex> {
    set v | v in states && !states[v].Visited?
  }

  lemma UnfinishedShrinks(states: map<Vertex, State>, v: Vertex)
    requires v in states && !states[v].Visited?
    ensures |Unfinished(states[v := Visited])| == |Unfinished(states)| - 1
  {
    assert Unfinished(states[v := Visited]) == Unfinished(states) - {v};
  }

  lemma NotQueued(g: Graph, states: map<Vertex, State>, log: seq<Event>, queued: set<Vertex>, active: set<Vertex>,
                  v: Vertex)
    requires PhasesAgree(g, states, log, queued, active) && v in g && states[v].NotVisited?
    ensures v !in queued && v !in active
  {
  }

  lemma StaysBlocked(queues0: Queues, tokens0: map<QueueName, int>, queues: Queues, tokens: map<QueueName, int>,
                     name: QueueName)
    requires name in queues0 && name in tokens0 && Blocked(queues0, tokens0, name)
    requires name in queues && name in tokens && queues[name] == queues0[name] && tokens[name] == tokens0[name]
    ensures Blocked(queues, tokens, name)
  {
  }

  lemma NotActive(g: Graph, states: map<Vertex, State>, log: seq<Event>, queued: set<Vertex>, active: set<Vertex>,
                  v: Vertex)
    requires PhasesAgree(g, states, log, queued, active) && v in queued
    ensures v !in active
  {
  }

  lemma BusyFinishes(states: map<Vertex, State>, v: Vertex)
    requires v in states && states[v].Busy?
    ensures |Unfinished(states[v := Visited])| == |Unfinished(states)| - 1
  {
    UnfinishedShrinks(states, v);
  }

  lemma ActiveFits(capacity: map<QueueName, int>, nTokens: int, tokens: map<QueueName, int>, active: seq<ActiveJob>,
                   i: nat)
    requires TokensConserved(capacity, nTokens, tokens, active) && i < |active|
    ensures Fits(capacity, active[i].job)
  {
    assert active[i] in active;
  }

  /** When no vertex is busy, those not visited block each other, which takes a cycle. */
  lemma NobodyBusy(g: Graph, states: map<Vertex, State>, log: seq<Event>, nonVisited: set<Vertex>)
    requires PhasesAgree(g, states, log, {}, {}) && Closed(g)
    requires nonVisited == (set v | v in states && states[v].NotVisited?) && nonVisited != {}
    requires forall v | v in nonVisited :: Pending(g, states, v) != {}
    ensures !Acyclic(g)
  {
    forall v | v in nonVisited ensures Preds(g, v) * nonVisited != {} {
      var u :| u in Pending(g, states, v);
      assert u in Preds(g, v) * nonVisited;
    }
    var v := StuckSetHasCycle(g, nonVisited);
  }

  /** The head of a queue: heapq keeps the least element in front. */
  method Least(q: set<Entry>) returns (e: Entry)
    requires q != {}
    ensures e in q && forall f | f in q :: Before(e, f)
  {
    e :| e in q;
    ghost var seen := {e};
    var rest := q - {e};
    while rest != {}
      invariant e in seen && seen == q - rest && rest <= q
      invariant forall f | f in seen :: Before(e, f)
    {
      var f :| f in rest;
      rest := rest - {f};
      if !Before(e, f) { e := f; }
      seen := seen + {f};
    }
    assert seen == q;
  }
}
