/**
 The history of a scheduler run as a log of events, which logs a run may produce, and
 what every such log guarantees.
 */
module JobLogs {
  import opened Graphs

  datatype Event =
    | Provided(uid: Vertex, skip: bool)   // the job provider was called
    | Started(uid: Vertex, slot: nat)     // the job was started
    | Collected(uid: Vertex, requeue: bool) // the collect callback was called

  datatype Phase = Unseen | Skipping | Waiting | Running | Done

  /** What one event does to the phase of its vertex. */
  function Next(phase: Phase, e: Event): Phase {
    match e
    case Provided(_, skip) => if skip then Skipping else Waiting
    case Started(_, _) => Running
    case Collected(_, requeue) => if phase == Running && requeue then Waiting else Done
  }

  function PhaseOf(log: seq<Event>, v: Vertex): Phase {
    if log == [] then Unseen
    else
      var e := log[|log| - 1];
      var before := PhaseOf(log[..|log| - 1], v);
      if e.uid == v then Next(before, e) else before
  }

  /** The event may follow this log. */
  ghost predicate Allowed(g: Graph, log: seq<Event>, e: Event) {
    match e
    case Provided(v, _) =>
      v in g && PhaseOf(log, v) == Unseen && forall u | u in g[v] :: PhaseOf(log, u) == Done
    case Started(v, _) => PhaseOf(log, v) == Waiting
    case Collected(v, _) => PhaseOf(log, v) == Running || PhaseOf(log, v) == Skipping
  }

  /** Every event was allowed when it happened. */
  ghost predicate Legal(g: Graph, log: seq<Event>) {
    log == [] || (Legal(g, log[..|log| - 1]) && Allowed(g, log[..|log| - 1], log[|log| - 1]))
  }

  lemma Extend(g: Graph, log: seq<Event>, e: Event)
    requires Legal(g, log) && Allowed(g, log, e)
    ensures Legal(g, log + [e])
    ensures forall v :: PhaseOf(log + [e], v) == if v == e.uid then Next(PhaseOf(log, v), e) else PhaseOf(log, v)
  {
    var next := log + [e];
    assert next[..|next| - 1] == log;
  }

  lemma {:induction false} LegalPrefix(g: Graph, log: seq<Event>, i: nat)
    requires Legal(g, log) && i <= |log|
    ensures Legal(g, log[..i])
    decreases |log|
  {
    if i < |log| {
      LegalPrefix(g, log[..|log| - 1], i);
      assert log[..|log| - 1][..i] == log[..i];
    } else {
      assert log[..i] == log;
    }
  }

  /** A finished vertex stays finished. */
  lemma {:induction false} DoneIsFinal(g: Graph, log: seq<Event>, v: Vertex, i: nat)
    requires Legal(g, log) && i <= |log| && PhaseOf(log[..i], v) == Done
    ensures PhaseOf(log, v) == Done
    decreases |log|
  {
    if i < |log| {
      var before := log[..|log| - 1];
      assert before[..i] == log[..i];
      DoneIsFinal(g, before, v, i);
    } else {
      assert log[..i] == log;
    }
  }

  /** When the provider is called for v, every predecessor is finished, and stays so. */
  lemma PredecessorsFirst(g: Graph, log: seq<Event>, i: nat, u: Vertex)
    requires Legal(g, log) && i < |log| && log[i].Provided?
    requires log[i].uid in g && u in g[log[i].uid]
    ensures PhaseOf(log[..i], u) == Done && PhaseOf(log, u) == Done
  {
    LegalPrefix(g, log, i + 1);
    assert log[..i + 1][..i] == log[..i];
    DoneIsFinal(g, log, u, i);
  }

  function Provides(log: seq<Event>, v: Vertex): nat {
    if log == [] then 0
    else Provides(log[..|log| - 1], v) + if log[|log| - 1].Provided? && log[|log| - 1].uid == v then 1 else 0
  }

  function Starts(log: seq<Event>, v: Vertex): nat {
    if log == [] then 0
    else Starts(log[..|log| - 1], v) + if log[|log| - 1].Started? && log[|log| - 1].uid == v then 1 else 0
  }

  /** How often collect asked for a started job of v to be requeued. */
  function Requeues(log: seq<Event>, v: Vertex): nat {
    if log == [] then 0
    else
      var e, before := log[|log| - 1], log[..|log| - 1];
      Requeues(before, v) + if e.Collected? && e.uid == v && e.requeue && PhaseOf(before, v) == Running then 1 else 0
  }

  ghost predicate Skipped(log: seq<Event>, v: Vertex) {
    Provided(v, true) in log
  }

  /**
   The provider is called once per vertex seen; a job that is not skipped has been started once
   more than it was requeued, and a skipped one never.
   */
  lemma {:induction false} CallCounts(g: Graph, log: seq<Event>, v: Vertex)
    requires Legal(g, log)
    ensures Provides(log, v) == if PhaseOf(log, v) == Unseen then 0 else 1
    ensures PhaseOf(log, v) == Running ==> Starts(log, v) == Requeues(log, v) + 1 && !Skipped(log, v)
    ensures PhaseOf(log, v) == Done ==> Starts(log, v) == if Skipped(log, v) then 0 else Requeues(log, v) + 1
    ensures PhaseOf(log, v) == Waiting ==> Starts(log, v) == Requeues(log, v) && !Skipped(log, v)
    ensures PhaseOf(log, v) == Skipping ==> Starts(log, v) == 0 && Skipped(log, v)
    ensures PhaseOf(log, v) == Unseen ==> Starts(log, v) == Requeues(log, v) == 0 && !Skipped(log, v)
    decreases |log|
  {
    if log != [] {
      var before := log[..|log| - 1];
      CallCounts(g, before, v);
      assert log == before + [log[|log| - 1]];
    }
  }

  /** The vertices in the order in which they were provided. */
  function ProvideOrder(log: seq<Event>): seq<Vertex> {
    if log == [] then []
    else
      var e := log[|log| - 1];
      ProvideOrder(log[..|log| - 1]) + if e.Provided? then [e.uid] else []
  }

  lemma {:induction false} ProvideOrderIsSound(g: Graph, log: seq<Event>)
    requires Legal(g, log)
    ensures var order := ProvideOrder(log);
            && Distinct(order) && Elements(order) <= g.Keys
            && (forall i | 0 <= i < |order| :: Preds(g, order[i]) <= Elements(order[..i]))
            && (forall v :: v in order <==> PhaseOf(log, v) != Unseen)
    decreases |log|
  {
    if log != [] {
      var before, e := log[..|log| - 1], log[|log| - 1];
      ProvideOrderIsSound(g, before);
      if e.Provided? {
        ProvidedNext(g, before, e.uid);
        assert ProvideOrder(log) == ProvideOrder(before) + [e.uid];
        forall v ensures v in ProvideOrder(log) <==> PhaseOf(log, v) != Unseen {
          assert v in ProvideOrder(log) <==> v in ProvideOrder(before) || v == e.uid;
        }
      } else {
        assert ProvideOrder(log) == ProvideOrder(before);
      }
    }
  }

  /** The order stays sound when v is provided: all its predecessors are finished, so they are in it. */
  lemma ProvidedNext(g: Graph, before: seq<Event>, v: Vertex)
    requires v in g && PhaseOf(before, v) == Unseen && forall u | u in g[v] :: PhaseOf(before, u) == Done
    requires forall u :: u in ProvideOrder(before) <==> PhaseOf(before, u) != Unseen
    requires var order := ProvideOrder(before);
             && Distinct(order) && Elements(order) <= g.Keys
             && forall i | 0 <= i < |order| :: Preds(g, order[i]) <= Elements(order[..i])
    ensures var order := ProvideOrder(before) + [v];
            && Distinct(order) && Elements(order) <= g.Keys
            && forall i | 0 <= i < |order| :: Preds(g, order[i]) <= Elements(order[..i])
  {
    var seen, order := ProvideOrder(before), ProvideOrder(before) + [v];
    assert v !in seen && forall u | u in g[v] :: u in seen;
    hide ProvideOrder, PhaseOf;
    forall i | 0 <= i < |order| ensures Preds(g, order[i]) <= Elements(order[..i]) {
      assert order[..i] == seen[..i];
      if i == |seen| { assert seen[..i] == seen; }
    }
    assert Elements(order) == Elements(seen) + {v};
  }

  /** A run that saw every vertex saw them in topological order; on a graph with a cycle there is no such run. */
  lemma CompleteRunIsTopological(g: Graph, log: seq<Event>)
    requires Legal(g, log) && forall v | v in g :: PhaseOf(log, v) != Unseen
    ensures Topological(g, ProvideOrder(log)) && ValidDag(g)
  {
    ProvideOrderIsSound(g, log);
    TopologicalIsValid(g, ProvideOrder(log));
  }

  /**
   A complete run calls the provider once per vertex, in topological order, and starts each job
   that is not skipped once and then once more per requeue.
   */
  lemma CompleteRun(g: Graph, log: seq<Event>)
    requires Legal(g, log) && forall v | v in g :: PhaseOf(log, v) == Done
    ensures Topological(g, ProvideOrder(log))
    ensures forall v | v in g :: Provides(log, v) == 1
    ensures forall v | v in g :: Starts(log, v) == if Skipped(log, v) then 0 else Requeues(log, v) + 1
  {
    CompleteRunIsTopological(g, log);
    forall v | v in g
      ensures Provides(log, v) == 1 && Starts(log, v) == if Skipped(log, v) then 0 else Requeues(log, v) + 1
    {
      CallCounts(g, log, v);
    }
  }

  /** Every ancestor of a vertex that was provided is finished. */
  lemma AncestorsDone(g: Graph, log: seq<Event>, a: Vertex, v: Vertex)
    requires Legal(g, log) && PhaseOf(log, v) != Unseen && Reach(g, a, v)
    ensures PhaseOf(log, a) == Done
  {
    var p :| Route(g, a, v, p);
    RouteDone(g, log, v, p);
  }

  lemma {:induction false} RouteDone(g: Graph, log: seq<Event>, v: Vertex, p: seq<Vertex>)
    requires Legal(g, log) && PhaseOf(log, v) != Unseen && |p| >= 2 && Route(g, p[0], v, p)
    ensures PhaseOf(log, p[0]) == Done
    decreases |p|
  {
    var u := p[|p| - 2];
    PredecessorsDone(g, log, v, u);
    if |p| > 2 {
      RouteDone(g, log, u, p[..|p| - 1]);
    }
  }

  lemma {:induction false} PredecessorsDone(g: Graph, log: seq<Event>, v: Vertex, u: Vertex)
    requires Legal(g, log) && PhaseOf(log, v) != Unseen && u in Preds(g, v)
    ensures PhaseOf(log, u) == Done
    decreases |log|
  {
    if log != [] {
      var before := log[..|log| - 1];
      if PhaseOf(before, v) != Unseen {
        PredecessorsDone(g, before, v, u);
      }
    }
  }

  // ----- What the phases mean -----

  function LastEvent(log: seq<Event>, v: Vertex): (i: int)
    ensures -1 <= i < |log|
    ensures i >= 0 ==> log[i].uid == v
    ensures forall j | i < j < |log| :: log[j].uid != v
  {
    if log == [] then -1
    else if log[|log| - 1].uid == v then |log| - 1
    else LastEvent(log[..|log| - 1], v)
  }

  /** The phase of a vertex can be read off its last event, and from whether its job was skipped. */
  lemma {:induction false} PhaseByLastEvent(g: Graph, log: seq<Event>, v: Vertex)
    requires Legal(g, log)
    ensures var i, phase := LastEvent(log, v), PhaseOf(log, v);
            && (phase == Unseen <==> i == -1)
            && (phase == Skipping <==> i >= 0 && log[i] == Provided(v, true))
            && (phase == Waiting <==>
                i >= 0 && (log[i] == Provided(v, false) || (log[i] == Collected(v, true) && Provided(v, true) !in log)))
            && (phase == Running <==> i >= 0 && log[i].Started?)
            && (phase == Done <==>
                i >= 0 && (log[i] == Collected(v, false) || (log[i] == Collected(v, true) && Provided(v, true) in log)))
    decreases |log|
  {
    if log != [] {
      var before, e := log[..|log| - 1], log[|log| - 1];
      PhaseByLastEvent(g, before, v);
      CallCounts(g, before, v);
      assert log == before + [e];
      assert Provided(v, true) in log <==> Provided(v, true) in before || e == Provided(v, true);
      hide Legal, Provides, Starts, Requeues;
    }
  }

  /**
   When the provider is called for v, the last event about a predecessor is that its result was collected,
   and that stays so.
   */
  lemma PredecessorsCollected(g: Graph, log: seq<Event>, i: nat, u: Vertex)
    requires Legal(g, log) && i < |log| && log[i].Provided?
    requires log[i].uid in g && u in g[log[i].uid]
    ensures exists j :: 0 <= j < i && log[j].Collected? && log[j].uid == u
                        && forall k | j < k < |log| :: log[k].uid != u
  {
    PredecessorsFirst(g, log, i, u);
    LegalPrefix(g, log, i);
    PhaseByLastEvent(g, log[..i], u);
    var j := LastEvent(log[..i], u);
    assert log[j].Collected? && log[j].uid == u;
    forall k | j < k < |log| ensures log[k].uid != u {
      if k >= i { DoneSaysNothing(g, log, i, u, k); } else { assert log[..i][k].uid != u; }
    }
  }

  lemma DoneSaysNothing(g: Graph, log: seq<Event>, i: nat, u: Vertex, k: nat)
    requires Legal(g, log) && i <= k < |log| && PhaseOf(log[..i], u) == Done
    ensures log[k].uid != u
  {
    LegalPrefix(g, log, k);
    assert log[..k][..i] == log[..i];
    DoneIsFinal(g, log[..k], u, i);
    LegalPrefix(g, log, k + 1);
    assert log[..k + 1][..k] == log[..k];
  }

  // ----- How many jobs are active -----

  /** The vertices whose job has been started and has not ended. */
  ghost function Active(g: Graph, log: seq<Event>): set<Vertex> {
    set v | v in g && PhaseOf(log, v) == Running
  }

  /** No started job ends between log0 and log. */
  ghost predicate NothingEnds(log0: seq<Event>, log: seq<Event>) {
    log0 <= log && forall i | |log0| <= i < |log| && log[i].Collected? :: PhaseOf(log[..i], log[i].uid) != Running
  }

  lemma NothingEndsThen(a: seq<Event>, b: seq<Event>, c: seq<Event>)
    requires NothingEnds(a, b) && NothingEnds(b, c)
    ensures NothingEnds(a, c)
  {
    forall i | |a| <= i < |c| && c[i].Collected? ensures PhaseOf(c[..i], c[i].uid) != Running {
      if i < |b| { assert b[..i] == c[..i] && b[i] == c[i]; }
    }
  }

  lemma {:induction false} ActiveGrows(g: Graph, log0: seq<Event>, log: seq<Event>, i: nat)
    requires Legal(g, log) && NothingEnds(log0, log) && |log0| <= i <= |log|
    ensures Active(g, log[..i]) <= Active(g, log)
    decreases |log| - i
  {
    if i == |log| {
      assert log[..i] == log;
    } else {
      ActiveGrows(g, log0, log, i + 1);
      LegalPrefix(g, log, i + 1);
      assert log[..i + 1][..i] == log[..i];
      hide Legal;
    }
  }

  /** The most jobs that were active at any one time. */
  ghost predicate PeakIs(g: Graph, log: seq<Event>, peak: int) {
    && (forall i: nat | i <= |log| :: |Active(g, log[..i])| <= peak)
    && exists i: nat :: i <= |log| && |Active(g, log[..i])| == peak
  }

  lemma PeakAtStart(g: Graph)
    ensures PeakIs(g, [], 0)
  {
    var log: seq<Event> := [];
    assert Active(g, log) == {} && log[..0] == log;
    assert |Active(g, log[..0])| == 0;
  }

  /** While nothing ends, the peak is the old one or what is active last. */
  lemma PeakGrows(g: Graph, log0: seq<Event>, log: seq<Event>, peak: int)
    requires PeakIs(g, log0, peak) && Legal(g, log) && NothingEnds(log0, log)
    ensures PeakIs(g, log, if peak < |Active(g, log)| then |Active(g, log)| else peak)
  {
    var next := if peak < |Active(g, log)| then |Active(g, log)| else peak;
    forall i: nat | i <= |log| ensures |Active(g, log[..i])| <= next {
      if i <= |log0| {
        assert log[..i] == log0[..i];
      } else {
        ActiveGrows(g, log0, log, i);
        SubsetNotLarger(Active(g, log[..i]), Active(g, log));
      }
    }
    if peak < |Active(g, log)| {
      assert log[..|log|] == log;
    } else {
      var i: nat :| i <= |log0| && |Active(g, log0[..i])| == peak;
      assert log[..i] == log0[..i];
    }
  }

  lemma PeakStays(g: Graph, log: seq<Event>, e: Event, peak: int)
    requires PeakIs(g, log, peak) && e.Collected?
    ensures PeakIs(g, log + [e], peak)
  {
    var next := log + [e];
    assert next[..|next| - 1] == log && log[..|log|] == log && next[..|next|] == next;
    assert Active(g, next) <= Active(g, log);
    SubsetNotLarger(Active(g, next), Active(g, log));
    forall i: nat | i <= |next| ensures |Active(g, next[..i])| <= peak {
      if i <= |log| { assert next[..i] == log[..i]; }
    }
    var i: nat :| i <= |log| && |Active(g, log[..i])| == peak;
    assert next[..i] == log[..i];
  }

  lemma SubsetNotLarger(a: set<Vertex>, b: set<Vertex>)
    requires a <= b
    ensures |a| <= |b|
  {
    if a != b { SubsetSmaller(a, b); }
  }
}
