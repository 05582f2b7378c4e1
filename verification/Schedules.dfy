/**
 From the tree of all actions, decisions and uploads that a plan may need to the DAG of the
 actions that are scheduled.
 */
module Schedules {
  import opened Wrappers
  import opened Graphs
  import opened Dags

  datatype Kind = Plain | DecisionNode | UploadNode | CheckVirusNode

  datatype Choice = Left | Right | Both

  /** A choice between two actions, on behalf of the action that initiated it. */
  datatype Decision = Decision(
    initiator: Vertex, left: Vertex, right: Vertex,
    choice: Option<Choice>, expected: Option<Choice>,
    triggers: seq<(Vertex, Choice)>)
  {
    /** The explicit choice, unless it is ambiguous or contradicts the expected one. */
    function GetDecision(): Option<Vertex> {
      if choice == None || choice == Some(Both) then None
      else if expected != None && expected != choice then None
      else if choice == Some(Left) then Some(left)
      else Some(right)
    }

    /** The choice that the actions scheduled so far imply. */
    function ApplyTriggers(scheduled: set<Vertex>): Decision {
      this.(expected := Triggered(expected, triggers, scheduled))
    }
  }

  function Triggered(expected: Option<Choice>, triggers: seq<(Vertex, Choice)>, scheduled: set<Vertex>): Option<Choice>
    decreases |triggers|
  {
    if triggers == [] then expected
    else
      var (uid, c) := triggers[0];
      var next := if uid !in scheduled then expected
                  else if expected == None then Some(c)
                  else if expected != Some(c) then Some(Both)
                  else expected;
      Triggered(next, triggers[1..], scheduled)
  }

  /** What was expected before, and what the triggers whose action is scheduled expect. */
  ghost function Expectations(expected: Option<Choice>, triggers: seq<(Vertex, Choice)>, scheduled: set<Vertex>)
    : set<Choice>
  {
    (if expected.Some? then {expected.value} else {}) + set t | t in triggers && t.0 in scheduled :: t.1
  }

  /** What these expectations come to. */
  ghost predicate IsImplied(all: set<Choice>, result: Option<Choice>) {
    && (all == {} <==> result == None)
    && (forall c :: all == {c} ==> result == Some(c))
    && ((exists c, d :: c in all && d in all && c != d) ==> result == Some(Both))
  }

  /** The order of the triggers does not matter: one expectation is taken over, several are contradictory. */
  lemma {:induction false} TriggeredMeans(expected: Option<Choice>, triggers: seq<(Vertex, Choice)>,
                                          scheduled: set<Vertex>)
    ensures IsImplied(Expectations(expected, triggers, scheduled), Triggered(expected, triggers, scheduled))
    decreases |triggers|
  {
    var all := Expectations(expected, triggers, scheduled);
    if triggers != [] {
      var (uid, c) := triggers[0];
      var next := if uid !in scheduled then expected
                  else if expected == None then Some(c)
                  else if expected != Some(c) then Some(Both)
                  else expected;
      TriggeredMeans(next, triggers[1..], scheduled);
      var rest := Expectations(next, triggers[1..], scheduled);
      assert triggers == [triggers[0]] + triggers[1..];
      assert triggers[0] in triggers && forall t | t in triggers[1..] :: t in triggers;
      if uid in scheduled && expected != None && expected != Some(c) {
        assert c in all && expected.value in all;
        StaysContradictory(triggers[1..], scheduled);
      } else {
        assert forall x | x in all :: x in rest;
        assert all == rest;
      }
    } else {
      assert all == if expected.Some? then {expected.value} else {};
    }
  }

  lemma {:induction false} StaysContradictory(triggers: seq<(Vertex, Choice)>, scheduled: set<Vertex>)
    ensures Triggered(Some(Both), triggers, scheduled) == Some(Both)
    decreases |triggers|
  {
    if triggers != [] {
      StaysContradictory(triggers[1..], scheduled);
    }
  }

  /** Triggers change nothing about a decision but what is expected of it. */
  lemma ApplyTriggersMeans(d: Decision, scheduled: set<Vertex>)
    ensures var after := d.ApplyTriggers(scheduled);
            && after == d.(expected := after.expected)
            && IsImplied(Expectations(d.expected, d.triggers, scheduled), after.expected)
  {
    TriggeredMeans(d.expected, d.triggers, scheduled);
  }

  /** A plan that chose one side, and from which nothing else is expected, has decided on it. */
  ghost predicate FallsOn(d: Decision, v: Vertex) {
    || (d.choice == Some(Left) && (d.expected == None || d.expected == Some(Left)) && v == d.left)
    || (d.choice == Some(Right) && (d.expected == None || d.expected == Some(Right)) && v == d.right)
  }

  /** The plan chose nothing, or both, or not what is expected. */
  ghost predicate IsOpen(d: Decision) {
    || d.choice == None || d.choice == Some(Both)
    || (d.expected != None && d.expected != d.choice)
  }

  lemma GetDecisionMeans(d: Decision, v: Vertex)
    ensures d.GetDecision() == None <==> IsOpen(d)
    ensures d.GetDecision() == Some(v) <==> FallsOn(d, v)
  {
    match d.choice
    case None =>
    case Some(Left) =>
    case Some(Right) =>
    case Some(Both) =>
  }

  datatype Answer = Yes | No | Refuse

  datatype SchedulingError = GraphError(error: DagError) | Undecided(uid: Vertex)

  /** The tree and what its vertices are. */
  datatype Plan = Plan(tree: Graph, root: Vertex, kind: Vertex -> Kind, resolver: (Vertex, Vertex) -> Answer)
  {
    predicate IsUpload(v: Vertex) {
      kind(v) == UploadNode || kind(v) == CheckVirusNode
    }

    /** The successors that can make an action scheduled. */
    ghost function Users(v: Vertex): set<Vertex> {
      set k | k in tree && v in tree[k] && kind(k) != UploadNode
    }

    /** The action is one branch of a decision and has no other use. */
    ghost predicate Branch(v: Vertex, d: Vertex) {
      Users(v) == {d} && kind(d) == DecisionNode
    }
  }

  ghost predicate PlanOk(plan: Plan, decisions: map<Vertex, Decision>) {
    && Closed(plan.tree)
    && plan.root in plan.tree && plan.kind(plan.root) == Plain
    && forall d | d in plan.tree && plan.kind(d) == DecisionNode ::
         d in decisions && decisions[d].initiator in plan.tree && d in plan.tree[decisions[d].initiator]
         && plan.kind(decisions[d].initiator) == Plain
  }

  /** An edge of the result is one of the tree, or leads around a decision to its initiator. */
  ghost predicate EdgeOk(plan: Plan, decisions: map<Vertex, Decision>, p: Vertex, v: Vertex) {
    || p in Preds(plan.tree, v)
    || exists d :: d in Preds(plan.tree, v) && plan.kind(d) == DecisionNode && d in decisions
                   && decisions[d].initiator == v && p in Preds(plan.tree, d)
  }

  /** Whether an action, whose users have all been visited, is to be scheduled. */
  ghost predicate Wanted(plan: Plan, decisions: map<Vertex, Decision>, scheduled: set<Vertex>, v: Vertex) {
    || v == plan.root
    || (exists d :: plan.Branch(v, d) && Taken(plan, decisions, scheduled, v, d))
    || ((forall d :: !plan.Branch(v, d)) && plan.Users(v) * scheduled != {})
  }

  /** The decision falls on v, on behalf of an action that is scheduled. */
  ghost predicate Taken(plan: Plan, decisions: map<Vertex, Decision>, scheduled: set<Vertex>, v: Vertex, d: Vertex) {
    && d in decisions && decisions[d].initiator in scheduled
    && (FallsOn(decisions[d], v) || (IsOpen(decisions[d]) && plan.resolver(v, d) == Yes))
  }

  ghost predicate ScheduledExactly(plan: Plan, decisions: map<Vertex, Decision>, done: set<Vertex>,
                                   scheduled: set<Vertex>)
  {
    forall v :: v in scheduled <==> v in done && plan.kind(v) == Plain && Wanted(plan, decisions, scheduled, v)
  }

  ghost predicate EdgesOk(plan: Plan, decisions: map<Vertex, Decision>, g: Graph) {
    Closed(g) && forall v, p | v in g && p in g[v] :: EdgeOk(plan, decisions, p, v)
  }

  /** Every scheduled action has all its visited ordinary predecessors. */
  ghost predicate PredecessorsKept(plan: Plan, done: set<Vertex>, g: Graph) {
    forall v, p | v in g && plan.kind(v) == Plain && p in Preds(plan.tree, v) && p in done && plan.kind(p) == Plain
      && p != plan.root ::
      p in g[v]
  }

  ghost predicate LeadsToRoot(plan: Plan, g: Graph) {
    forall v | v in g && plan.kind(v) == Plain && v != plan.root :: Reach(g, v, plan.root)
  }

  /** The action that a decision falls on is a predecessor of the decision's initiator. */
  ghost predicate ChoicesLinked(plan: Plan, decisions: map<Vertex, Decision>, g: Graph) {
    forall v, d | v in g && plan.kind(v) == Plain && v != plan.root && plan.Branch(v, d) && d in decisions ::
      v in Preds(g, decisions[d].initiator)
  }

  /** What holds of the actions scheduled when the vertices in done have been visited. */
  ghost predicate Partial(plan: Plan, decisions: map<Vertex, Decision>, done: set<Vertex>, g: Graph) {
    && ScheduledExactly(plan, decisions, done, g.Keys)
    && EdgesOk(plan, decisions, g)
    && PredecessorsKept(plan, done, g)
    && ChoicesLinked(plan, decisions, g)
    && LeadsToRoot(plan, g)
  }

  /** Whoever uses a visited vertex has been visited before. */
  ghost predicate UsersFirst(plan: Plan, done: set<Vertex>) {
    forall v, k | v in done && k in plan.tree && v in plan.tree[k] :: k in done
  }

  /** g with v as a predecessor of each user. */
  function AddUsed(g: Graph, v: Vertex, users: set<Vertex>): Graph {
    map k | k in g.Keys + {v} :: Preds(g, k) + if k in users then {v} else {}
  }

  // ----- What a visit changes -----

  lemma UsersIff(plan: Plan, w: Vertex)
    ensures forall v :: v in plan.Users(w) <==> w in Preds(plan.tree, v) && plan.kind(v) != UploadNode
  {
  }

  lemma NotYetDone(plan: Plan, done: set<Vertex>, w: Vertex, p: Vertex)
    requires UsersFirst(plan, done) && w !in done && p in Preds(plan.tree, w)
    ensures p !in done
  {
  }

  /** What is wanted among the visited vertices does not change when another vertex is scheduled or decided. */
  lemma WantedStays(plan: Plan, decisions: map<Vertex, Decision>, done: set<Vertex>, scheduled: set<Vertex>,
                    decisions': map<Vertex, Decision>, v: Vertex, w: Vertex)
    requires PlanOk(plan, decisions) && UsersFirst(plan, done) && v in done && w !in done && v in plan.tree
    requires forall d | d != w ::
               (d in decisions' <==> d in decisions) && (d in decisions ==> decisions'[d] == decisions[d])
    ensures Wanted(plan, decisions', scheduled + {w}, v) <==> Wanted(plan, decisions, scheduled, v)
  {
    forall d | plan.Branch(v, d)
      ensures Taken(plan, decisions', scheduled + {w}, v, d) <==> Taken(plan, decisions, scheduled, v, d)
    {
      assert d in plan.Users(v) && d in done;
    }
    assert plan.Users(v) * (scheduled + {w}) == plan.Users(v) * scheduled;
  }

  lemma ExactlyStep(plan: Plan, decisions: map<Vertex, Decision>, done: set<Vertex>, scheduled: set<Vertex>,
                    decisions': map<Vertex, Decision>, w: Vertex, scheduled': set<Vertex>)
    requires PlanOk(plan, decisions) && UsersFirst(plan, done) && w !in done && done <= plan.tree.Keys
    requires ScheduledExactly(plan, decisions, done, scheduled)
    requires forall d | d != w ::
               (d in decisions' <==> d in decisions) && (d in decisions ==> decisions'[d] == decisions[d])
    requires scheduled' == scheduled || scheduled' == scheduled + {w}
    requires w in scheduled' <==> plan.kind(w) == Plain && Wanted(plan, decisions', scheduled', w)
    ensures ScheduledExactly(plan, decisions', done + {w}, scheduled')
  {
    forall v
      ensures v in scheduled' <==> v in done + {w} && plan.kind(v) == Plain && Wanted(plan, decisions', scheduled', v)
    {
      if v in done {
        WantedStays(plan, decisions, done, scheduled, decisions', v, w);
        assert Wanted(plan, decisions', scheduled', v) <==> Wanted(plan, decisions, scheduled, v) by {
          if scheduled' == scheduled {
            WantedSame(plan, decisions, done, scheduled, decisions', v, w);
          }
        }
      }
    }
  }

  lemma WantedSame(plan: Plan, decisions: map<Vertex, Decision>, done: set<Vertex>, scheduled: set<Vertex>,
                   decisions': map<Vertex, Decision>, v: Vertex, w: Vertex)
    requires UsersFirst(plan, done) && v in done && w !in done
    requires forall d | d != w ::
               (d in decisions' <==> d in decisions) && (d in decisions ==> decisions'[d] == decisions[d])
    ensures Wanted(plan, decisions', scheduled, v) <==> Wanted(plan, decisions, scheduled, v)
  {
    forall d | plan.Branch(v, d)
      ensures Taken(plan, decisions', scheduled, v, d) <==> Taken(plan, decisions, scheduled, v, d)
    {
      assert d in plan.Users(v) && d in done;
    }
  }

  /** A vertex that is visited but not scheduled. */
  lemma VisitOnly(plan: Plan, decisions: map<Vertex, Decision>, done: set<Vertex>, g: Graph,
                  decisions': map<Vertex, Decision>, w: Vertex)
    requires PlanOk(plan, decisions) && UsersFirst(plan, done) && w !in done && done <= plan.tree.Keys
    requires Partial(plan, decisions, done, g)
    requires forall d | d != w ::
               (d in decisions' <==> d in decisions) && (d in decisions ==> decisions'[d] == decisions[d])
    requires w in decisions && w in decisions' ==> decisions'[w].initiator == decisions[w].initiator
    requires w in decisions ==> w in decisions'
    requires plan.kind(w) == Plain ==> !Wanted(plan, decisions', g.Keys, w)
    requires plan.kind(w) == Plain && w != plan.root ==> plan.Users(w) * g.Keys == {}
    ensures Partial(plan, decisions', done + {w}, g)
  {
    assert w !in g && g.Keys <= done;
    hide PlanOk, UsersFirst, ScheduledExactly, Wanted, EdgesOk, PredecessorsKept, ChoicesLinked, LeadsToRoot,
         Plan.Users;
    ExactlyStep(plan, decisions, done, g.Keys, decisions', w, g.Keys);
    EdgesStay(plan, decisions, g, decisions', w);
    KeptStay(plan, done, g, w);
    ChoicesStay(plan, decisions, done, g, decisions', w);
  }

  lemma EdgesStay(plan: Plan, decisions: map<Vertex, Decision>, g: Graph, decisions': map<Vertex, Decision>, w: Vertex)
    requires EdgesOk(plan, decisions, g)
    requires forall d | d != w ::
               (d in decisions' <==> d in decisions) && (d in decisions ==> decisions'[d] == decisions[d])
    requires w in decisions ==> w in decisions' && decisions'[w].initiator == decisions[w].initiator
    ensures EdgesOk(plan, decisions', g)
  {
    forall v, p | v in g && p in g[v] ensures EdgeOk(plan, decisions', p, v) {
      assert EdgeOk(plan, decisions, p, v);
    }
  }

  lemma KeptStay(plan: Plan, done: set<Vertex>, g: Graph, w: Vertex)
    requires PredecessorsKept(plan, done, g)
    requires plan.kind(w) == Plain && w != plan.root ==> plan.Users(w) * g.Keys == {}
    ensures PredecessorsKept(plan, done + {w}, g)
  {
    UsersIff(plan, w);
    var used := plan.Users(w) * g.Keys;
    forall v | v in g ensures v in used <==> w in Preds(plan.tree, v) && plan.kind(v) != UploadNode {
      assert v in plan.Users(w) <==> w in Preds(plan.tree, v) && plan.kind(v) != UploadNode;
    }
    hide Plan.Users;
  }

  lemma ChoicesStay(plan: Plan, decisions: map<Vertex, Decision>, done: set<Vertex>, g: Graph,
                    decisions': map<Vertex, Decision>, w: Vertex)
    requires UsersFirst(plan, done) && w !in done && g.Keys <= done && ChoicesLinked(plan, decisions, g)
    requires forall d | d != w ::
               (d in decisions' <==> d in decisions) && (d in decisions ==> decisions'[d] == decisions[d])
    ensures ChoicesLinked(plan, decisions', g)
  {
    forall v, d | v in g && plan.Branch(v, d) ensures d != w {
      assert d in plan.Users(v) && d in done;
    }
  }

  /** A vertex that is scheduled and linked to users that are. */
  lemma VisitScheduled(plan: Plan, decisions: map<Vertex, Decision>, done: set<Vertex>, g: Graph, w: Vertex,
                       users: set<Vertex>)
    requires PlanOk(plan, decisions) && UsersFirst(plan, done) && w !in done && done <= plan.tree.Keys
    requires Partial(plan, decisions, done, g)
    requires plan.kind(w) == Plain && Wanted(plan, decisions, g.Keys + {w}, w)
    requires users <= g.Keys && (users == {} ==> w == plan.root)
    requires forall a | a in users :: EdgeOk(plan, decisions, w, a)
    requires w != plan.root ==> plan.Users(w) * g.Keys <= users
    requires w !in Preds(plan.tree, w)
    requires forall d | w != plan.root && plan.Branch(w, d) && d in decisions :: decisions[d].initiator in users
    ensures Partial(plan, decisions, done + {w}, AddUsed(g, w, users))
  {
    var h := AddUsed(g, w, users);
    assert w !in g && h.Keys == g.Keys + {w} && Closed(plan.tree);
    hide PlanOk, UsersFirst, ScheduledExactly, Wanted, EdgesOk, PredecessorsKept, ChoicesLinked, LeadsToRoot, AddUsed,
         Plan.Users;
    ExactlyStep(plan, decisions, done, g.Keys, decisions, w, h.Keys);
    VisitEdges(plan, decisions, g, w, users);
    VisitKept(plan, decisions, done, g, w, users);
    VisitChoices(plan, decisions, g, w, users);
    VisitLeads(plan, decisions, done, g, w, users);
  }

  lemma VisitChoices(plan: Plan, decisions: map<Vertex, Decision>, g: Graph, w: Vertex, users: set<Vertex>)
    requires ChoicesLinked(plan, decisions, g) && users <= g.Keys
    requires forall d | w != plan.root && plan.Branch(w, d) && d in decisions :: decisions[d].initiator in users
    ensures ChoicesLinked(plan, decisions, AddUsed(g, w, users))
  {
    hide Plan.Branch;
  }

  lemma VisitEdges(plan: Plan, decisions: map<Vertex, Decision>, g: Graph, w: Vertex, users: set<Vertex>)
    requires EdgesOk(plan, decisions, g) && w !in g && users <= g.Keys
    requires forall a | a in users :: EdgeOk(plan, decisions, w, a)
    ensures EdgesOk(plan, decisions, AddUsed(g, w, users))
  {
  }

  lemma VisitKept(plan: Plan, decisions: map<Vertex, Decision>, done: set<Vertex>, g: Graph, w: Vertex,
                  users: set<Vertex>)
    requires PredecessorsKept(plan, done, g) && UsersFirst(plan, done) && w !in g && w !in done && Closed(plan.tree)
    requires g.Keys <= done && done <= plan.tree.Keys
    requires w != plan.root && plan.kind(w) == Plain ==> plan.Users(w) * g.Keys <= users
    requires w !in Preds(plan.tree, w)
    ensures PredecessorsKept(plan, done + {w}, AddUsed(g, w, users))
  {
    var h := AddUsed(g, w, users);
    forall v, p | v in h && plan.kind(v) == Plain && p in Preds(plan.tree, v) && p in done + {w}
      && plan.kind(p) == Plain && p != plan.root
      ensures p in h[v]
    {
      UsersIff(plan, w);
      if v == w { NotYetDone(plan, done, w, p); }
    }
  }

  lemma VisitLeads(plan: Plan, decisions: map<Vertex, Decision>, done: set<Vertex>, g: Graph, w: Vertex,
                   users: set<Vertex>)
    requires LeadsToRoot(plan, g) && ScheduledExactly(plan, decisions, done, g.Keys) && w !in g
    requires users <= g.Keys && (users == {} ==> w == plan.root)
    ensures LeadsToRoot(plan, AddUsed(g, w, users))
  {
    var h := AddUsed(g, w, users);
    assert Subgraph(g, h);
    forall v | v in h && plan.kind(v) == Plain && v != plan.root ensures Reach(h, v, plan.root) {
      if v in g {
        ReachMonotone(g, h, v, plan.root);
      } else {
        var a :| a in users;
        ReachEdge(h, w, a);
        if a != plan.root {
          ReachMonotone(g, h, a, plan.root);
          ReachTransitive(h, w, a, plan.root);
        }
      }
    }
  }

  // ----- How decisions come about -----

  /** Every vertex has the data it has in the tree. */
  ghost predicate DataFrom(all: map<Vertex, Option<Data>>, data: map<Vertex, Option<Data>>) {
    forall v | v in data :: v in all && data[v] == all[v]
  }

  /** What is expected of a decision after its triggers saw these actions; nothing else about it changes. */
  ghost predicate Triggers(before: Decision, after: Decision, scheduled: set<Vertex>) {
    && after == before.(expected := after.expected)
    && IsImplied(Expectations(before.expected, before.triggers, scheduled), after.expected)
  }

  /** A decision was taken when the vertices before it had been visited: its triggers saw those that were scheduled. */
  ghost predicate DecisionsMade(plan: Plan, initial: map<Vertex, Decision>, decisions: map<Vertex, Decision>,
                                order: seq<Vertex>, scheduled: set<Vertex>) {
    && decisions.Keys == initial.Keys
    && (forall d | d in initial && (d !in order || plan.kind(d) != DecisionNode) :: decisions[d] == initial[d])
    && (forall k | 0 <= k < |order| && plan.kind(order[k]) == DecisionNode && order[k] in initial ::
          Triggers(initial[order[k]], decisions[order[k]], scheduled * Elements(order[..k])))
  }

  /** The resolver is asked about v and refuses. */
  ghost predicate RefusedAt(plan: Plan, decisions: map<Vertex, Decision>, scheduled: set<Vertex>, v: Vertex) {
    exists d :: plan.Branch(v, d) && d in decisions && decisions[d].initiator in scheduled
                && IsOpen(decisions[d]) && plan.resolver(v, d) == Refuse
  }

  ghost predicate NoneRefused(plan: Plan, decisions: map<Vertex, Decision>, done: set<Vertex>, scheduled: set<Vertex>) {
    forall v | v in done && plan.kind(v) == Plain && v != plan.root :: !RefusedAt(plan, decisions, scheduled, v)
  }

  /**
   Of the vertices of order, the first i have been visited without a refusal, and exactly these actions were
   scheduled; about the next one the resolver refuses.
   */
  ghost predicate RefusedWhen(plan: Plan, initial: map<Vertex, Decision>, decisions: map<Vertex, Decision>,
                              order: seq<Vertex>, i: nat, scheduled: set<Vertex>) {
    && i < |order| && plan.kind(order[i]) == Plain && order[i] != plan.root
    && ScheduledExactly(plan, decisions, Elements(order[..i]), scheduled)
    && DecisionsMade(plan, initial, decisions, order[..i], scheduled)
    && NoneRefused(plan, decisions, Elements(order[..i]), scheduled)
    && RefusedAt(plan, decisions, scheduled, order[i])
  }

  ghost predicate RefusedFirst(plan: Plan, initial: map<Vertex, Decision>, decisions: map<Vertex, Decision>,
                               order: seq<Vertex>, uid: Vertex) {
    exists i: nat, scheduled :: RefusedWhen(plan, initial, decisions, order, i, scheduled) && order[i] == uid
  }

  /** What a visit of w changes. */
  ghost predicate VisitEffect(plan: Plan, all: map<Vertex, Option<Data>>, decisions: map<Vertex, Decision>,
                              data: map<Vertex, Option<Data>>,
                              decisions': map<Vertex, Decision>, data': map<Vertex, Option<Data>>, w: Vertex) {
    && w in all && (data' == data || data' == data[w := all[w]])
    && (plan.kind(w) != Plain ==> data' == data)
    && (if plan.kind(w) == DecisionNode then
          w in decisions && decisions' == decisions[w := decisions[w].ApplyTriggers(data.Keys)]
        else decisions' == decisions)
  }

  /** What is known of data and decisions when the vertices of order have been visited. */
  ghost predicate Faithful(plan: Plan, all: map<Vertex, Option<Data>>, initial: map<Vertex, Decision>,
                           decisions: map<Vertex, Decision>,
                           order: seq<Vertex>, data: map<Vertex, Option<Data>>) {
    && DataFrom(all, data) && data.Keys <= Elements(order)
    && DecisionsMade(plan, initial, decisions, order, data.Keys)
    && NoneRefused(plan, decisions, Elements(order), data.Keys)
  }

  lemma FaithfulStep(plan: Plan, all: map<Vertex, Option<Data>>, initial: map<Vertex, Decision>,
                     decisions: map<Vertex, Decision>, data: map<Vertex, Option<Data>>, order: seq<Vertex>,
                     decisions': map<Vertex, Decision>, data': map<Vertex, Option<Data>>, w: Vertex)
    requires PlanOk(plan, decisions) && UsersFirst(plan, Elements(order)) && Elements(order) <= plan.tree.Keys
    requires w !in order && plan.Users(w) <= Elements(order)
    requires Faithful(plan, all, initial, decisions, order, data)
    requires VisitEffect(plan, all, decisions, data, decisions', data', w)
    requires plan.kind(w) == Plain && w != plan.root ==> !RefusedAt(plan, decisions, data.Keys, w)
    ensures Faithful(plan, all, initial, decisions', order + [w], data')
  {
    assert Elements(order + [w]) == Elements(order) + {w};
    DecisionsStep(plan, initial, decisions, data.Keys, order, decisions', data'.Keys, w);
    NoneRefusedStep(plan, decisions, Elements(order), data.Keys, decisions', data'.Keys, w);
    hide PlanOk, UsersFirst, Plan.Users, RefusedAt, NoneRefused, DecisionsMade;
  }

  lemma DecisionsStep(plan: Plan, initial: map<Vertex, Decision>, decisions: map<Vertex, Decision>,
                      scheduled: set<Vertex>,
                      order: seq<Vertex>, decisions': map<Vertex, Decision>, scheduled': set<Vertex>, w: Vertex)
    requires DecisionsMade(plan, initial, decisions, order, scheduled) && w !in order && scheduled <= Elements(order)
    requires scheduled' == scheduled || scheduled' == scheduled + {w}
    requires plan.kind(w) != Plain ==> scheduled' == scheduled
    requires if plan.kind(w) == DecisionNode then
               w in decisions && decisions' == decisions[w := decisions[w].ApplyTriggers(scheduled)]
             else decisions' == decisions
    ensures DecisionsMade(plan, initial, decisions', order + [w], scheduled')
  {
    var next := order + [w];
    forall k | 0 <= k < |next| && plan.kind(next[k]) == DecisionNode && next[k] in initial
      ensures Triggers(initial[next[k]], decisions'[next[k]], scheduled' * Elements(next[..k]))
    {
      hide Decision.ApplyTriggers, IsImplied, Expectations;
      assert next[..k] == order[..k];
      if k < |order| {
        assert scheduled' * Elements(order[..k]) == scheduled * Elements(order[..k]);
        assert next[k] in order;
      } else {
        assert order[..k] == order && scheduled * Elements(order) == scheduled;
        ApplyTriggersMeans(initial[w], scheduled);
      }
    }
  }

  lemma NoneRefusedStep(plan: Plan, decisions: map<Vertex, Decision>, done: set<Vertex>, scheduled: set<Vertex>,
                        decisions': map<Vertex, Decision>, scheduled': set<Vertex>, w: Vertex)
    requires PlanOk(plan, decisions) && UsersFirst(plan, done) && done <= plan.tree.Keys
    requires w !in done && plan.Users(w) <= done
    requires NoneRefused(plan, decisions, done, scheduled)
    requires forall d | d != w ::
               (d in decisions' <==> d in decisions) && (d in decisions ==> decisions'[d] == decisions[d])
    requires scheduled' == scheduled || scheduled' == scheduled + {w}
    requires plan.kind(w) == Plain && w != plan.root ==> !RefusedAt(plan, decisions, scheduled, w)
    ensures NoneRefused(plan, decisions', done + {w}, scheduled')
  {
    forall v | v in done + {w} && RefusedAt(plan, decisions', scheduled', v)
      ensures RefusedAt(plan, decisions, scheduled, v)
    {
      var d :| plan.Branch(v, d) && d in decisions' && decisions'[d].initiator in scheduled'
               && IsOpen(decisions'[d]) && plan.resolver(v, d) == Refuse;
      assert d in plan.Users(v) && d in done;
      assert decisions[d].initiator in done;
    }
  }

  // ----- Uploads -----

  /** An upload that has been considered is there exactly when everything it needs is. */
  ghost predicate UploadsExactly(plan: Plan, considered: set<Vertex>, g: Graph) {
    forall u | u in considered :: u in g <==> Preds(plan.tree, u) <= g.Keys
  }

  /** An upload that is there has its predecessors, and is one of the root's when it is in the tree. */
  ghost predicate UploadsLinked(plan: Plan, considered: set<Vertex>, g: Graph) {
    forall u | u in considered && u in g ::
      Preds(plan.tree, u) <= g[u] && (u in Preds(plan.tree, plan.root) ==> plan.root in g && u in g[plan.root])
  }

  /** Nothing but the uploads considered has been added to the scheduled actions. */
  ghost predicate Uploading(plan: Plan, decisions: map<Vertex, Decision>, scheduled: set<Vertex>,
                            considered: set<Vertex>, g: Graph)
  {
    && (forall v :: v in g ==> v in scheduled || v in considered)
    && scheduled <= g.Keys && plan.root in g
    && EdgesOk(plan, decisions, g)
    && PredecessorsKept(plan, plan.tree.Keys, g)
    && ChoicesLinked(plan, decisions, g)
    && LeadsToRoot(plan, g)
    && UploadsExactly(plan, considered, g)
    && UploadsLinked(plan, considered, g)
  }

  /** g with the upload u and its predecessors, as one of the root's if it should be. */
  function AddUpload(plan: Plan, g: Graph, u: Vertex, predecessors: set<Vertex>, connect: bool): Graph {
    var h := AddEdges(g, u, predecessors);
    if connect then AddEdges(h, plan.root, {u}) else h
  }

  lemma UploadStep(plan: Plan, decisions: map<Vertex, Decision>, scheduled: set<Vertex>, considered: set<Vertex>,
                   g: Graph,
                   u: Vertex, connect: bool)
    requires Uploading(plan, decisions, scheduled, considered, g)
    requires u !in scheduled && u !in considered && plan.IsUpload(u) && plan.kind(plan.root) == Plain
    requires forall v | v in considered :: u !in Preds(plan.tree, v)
    requires u !in Preds(plan.tree, u)
    requires connect <==> u in Preds(plan.tree, plan.root)
    ensures var h := if Preds(plan.tree, u) <= g.Keys then AddUpload(plan, g, u, Preds(plan.tree, u), connect) else g;
            Uploading(plan, decisions, scheduled, considered + {u}, h)
  {
    if Preds(plan.tree, u) <= g.Keys {
      UploadAdded(plan, g, u, connect);
      UploadKeeps(plan, decisions, g, u, connect);
      UploadsAgree(plan, considered, g, u, connect);
      hide EdgesOk, PredecessorsKept, ChoicesLinked, LeadsToRoot, UploadsExactly, UploadsLinked, AddUpload;
    } else {
      hide EdgesOk, PredecessorsKept, ChoicesLinked, LeadsToRoot;
    }
  }

  lemma UploadAdded(plan: Plan, g: Graph, u: Vertex, connect: bool)
    requires Preds(plan.tree, u) <= g.Keys && plan.root in g
    ensures AddUpload(plan, g, u, Preds(plan.tree, u), connect).Keys == g.Keys + {u}
  {
  }

  /** An upload changes nothing for the actions. */
  lemma UploadKeeps(plan: Plan, decisions: map<Vertex, Decision>, g: Graph, u: Vertex, connect: bool)
    requires EdgesOk(plan, decisions, g) && PredecessorsKept(plan, plan.tree.Keys, g)
    requires ChoicesLinked(plan, decisions, g) && LeadsToRoot(plan, g)
    requires u !in g && plan.IsUpload(u) && plan.root in g && Preds(plan.tree, u) <= g.Keys
    requires connect <==> u in Preds(plan.tree, plan.root)
    ensures var h := AddUpload(plan, g, u, Preds(plan.tree, u), connect);
            EdgesOk(plan, decisions, h) && PredecessorsKept(plan, plan.tree.Keys, h)
            && ChoicesLinked(plan, decisions, h) && LeadsToRoot(plan, h)
  {
    var h := AddUpload(plan, g, u, Preds(plan.tree, u), connect);
    assert Subgraph(g, h) && h.Keys == g.Keys + {u};
    assert forall v, p | v in h && p in h[v] :: (v in g && p in g[v]) || p in Preds(plan.tree, v);
    hide AddUpload, Plan.Branch;
    assert EdgesOk(plan, decisions, h) by {
      forall v, p | v in h && p in h[v] ensures EdgeOk(plan, decisions, p, v) && p in h {
        if v in g && p in g[v] { assert EdgeOk(plan, decisions, p, v); }
      }
    }
    assert PredecessorsKept(plan, plan.tree.Keys, h) && ChoicesLinked(plan, decisions, h);
    forall v | v in h && plan.kind(v) == Plain && v != plan.root ensures Reach(h, v, plan.root) {
      ReachMonotone(g, h, v, plan.root);
    }
  }

  /** The uploads considered before are there exactly as they were. */
  lemma UploadsAgree(plan: Plan, considered: set<Vertex>, g: Graph, u: Vertex, connect: bool)
    requires UploadsExactly(plan, considered, g) && UploadsLinked(plan, considered, g)
    requires u !in g && u !in considered && plan.root in g && u != plan.root && Preds(plan.tree, u) <= g.Keys
    requires forall v | v in considered :: u !in Preds(plan.tree, v)
    requires connect <==> u in Preds(plan.tree, plan.root)
    ensures var h := AddUpload(plan, g, u, Preds(plan.tree, u), connect);
            UploadsExactly(plan, considered + {u}, h) && UploadsLinked(plan, considered + {u}, h)
  {
    var h := AddUpload(plan, g, u, Preds(plan.tree, u), connect);
    assert h.Keys == g.Keys + {u} && Subgraph(g, h) && Preds(plan.tree, u) <= h[u];
    assert connect ==> u in h[plan.root];
    hide AddUpload;
  }

  /** Every edge of the result follows the tree, so the result has no cycle. */
  lemma ResultAcyclic(plan: Plan, decisions: map<Vertex, Decision>, g: Graph)
    requires EdgesOk(plan, decisions, g) && PlanOk(plan, decisions) && Acyclic(plan.tree)
    ensures Acyclic(g)
  {
    forall v ensures !Reach(g, v, v) {
      if p :| Route(g, v, v, p) {
        RouteFollowsTree(plan, decisions, g, v, v, p);
      }
    }
  }

  lemma {:induction false} RouteFollowsTree(plan: Plan, decisions: map<Vertex, Decision>, g: Graph,
                                            s: Vertex, t: Vertex, p: seq<Vertex>)
    requires EdgesOk(plan, decisions, g) && PlanOk(plan, decisions) && Route(g, s, t, p)
    ensures Reach(plan.tree, s, t)
    decreases |p|
  {
    var u := p[|p| - 2];
    assert u in Preds(g, t);
    EdgeFollowsTree(plan, decisions, u, t);
    if |p| > 2 {
      RouteFollowsTree(plan, decisions, g, s, u, p[..|p| - 1]);
      ReachTransitive(plan.tree, s, u, t);
    }
  }

  lemma EdgeFollowsTree(plan: Plan, decisions: map<Vertex, Decision>, u: Vertex, t: Vertex)
    requires EdgeOk(plan, decisions, u, t)
    ensures Reach(plan.tree, u, t)
  {
    if u in Preds(plan.tree, t) {
      ReachEdge(plan.tree, u, t);
    } else {
      var d :| d in Preds(plan.tree, t) && u in Preds(plan.tree, d);
      ReachEdge(plan.tree, u, d);
      ReachEdge(plan.tree, d, t);
      ReachTransitive(plan.tree, u, d, t);
    }
  }

  // ----- The scheduling loop -----

  /**
   A decision on behalf of a scheduled action. If the plan chose left and nothing else is expected, a left
   branch is scheduled as a predecessor of the initiator and a right one is not, and the other way round. If
   the plan chose nothing, or both, or not what is expected, a branch is scheduled if the resolver says so.
   */
  lemma ChoiceFollowed(plan: Plan, decisions: map<Vertex, Decision>, g: Graph, d: Vertex, v: Vertex)
    requires ScheduleOk(plan, decisions, g) && d in decisions && plan.Branch(v, d)
    requires v in plan.tree && v != plan.root && plan.kind(v) == Plain
    requires plan.kind(decisions[d].initiator) == Plain
    ensures var Decision(initiator, left, right, choice, expected, _) := decisions[d];
            && (v in g ==> initiator in g && v in g[initiator])
            && (initiator in g ==>
                  && (choice == Some(Left) && (expected == None || expected == Some(Left)) ==>
                        (v in g <==> v == left))
                  && (choice == Some(Right) && (expected == None || expected == Some(Right)) ==>
                        (v in g <==> v == right))
                  && (choice == None || choice == Some(Both) ==> (v in g <==> plan.resolver(v, d) == Yes))
                  && (expected != None && expected != choice ==> (v in g <==> plan.resolver(v, d) == Yes)))
  {
    var scheduled := PlainOf(plan, g);
    assert v in g <==> v in scheduled;
    assert v in scheduled <==> Wanted(plan, decisions, scheduled, v);
    OnlyBranch(plan, v, d);
    assert Wanted(plan, decisions, scheduled, v) <==> Taken(plan, decisions, scheduled, v, d);
    assert decisions[d].initiator in scheduled <==> decisions[d].initiator in g;
    if v in g { assert v in Preds(g, decisions[d].initiator); }
    hide ScheduleOk, Wanted;
  }

  lemma OnlyBranch(plan: Plan, v: Vertex, d: Vertex)
    requires plan.Branch(v, d)
    ensures forall e :: plan.Branch(v, e) <==> e == d
  {
    assert d in plan.Users(v);
  }

  /** What schedule promises about its result. */
  ghost predicate ScheduleOk(plan: Plan, decisions: map<Vertex, Decision>, g: Graph) {
    && ValidDag(g) && plan.root in g && g.Keys <= plan.tree.Keys
    && (forall v | v in g :: plan.kind(v) != DecisionNode)
    && ScheduledExactly(plan, decisions, plan.tree.Keys, PlainOf(plan, g))
    && EdgesOk(plan, decisions, g)
    && PredecessorsKept(plan, plan.tree.Keys, g)
    && ChoicesLinked(plan, decisions, g)
    && LeadsToRoot(plan, g)
    && UploadsExactly(plan, UploadsOf(plan, plan.tree.Keys), g)
    && UploadsLinked(plan, UploadsOf(plan, plan.tree.Keys), g)
  }

  ghost function PlainOf(plan: Plan, g: Graph): set<Vertex> {
    set v | v in g && plan.kind(v) == Plain
  }

  ghost function UploadsOf(plan: Plan, vertices: set<Vertex>): set<Vertex> {
    set v | v in vertices && plan.kind(v) in {UploadNode, CheckVirusNode}
  }

  /** An upload put aside, with what it needs and whether the root uses it. */
  datatype Pending = Pending(uid: Vertex, data: Option<Data>, predecessors: set<Vertex>, connectToRoot: bool)

  ghost predicate PendingOk(plan: Plan, p: Pending) {
    && plan.IsUpload(p.uid) && p.predecessors == Preds(plan.tree, p.uid)
    && (p.connectToRoot <==> p.uid in Preds(plan.tree, plan.root))
  }

  /** The uploads among the visited vertices, those that need others before those. */
  ghost predicate PutAside(plan: Plan, done: set<Vertex>, uploads: seq<Pending>) {
    && (forall i | 0 <= i < |uploads| :: PendingOk(plan, uploads[i]) && uploads[i].uid in done)
    && (forall v | v in done && plan.IsUpload(v) :: exists i :: 0 <= i < |uploads| && uploads[i].uid == v)
    && (forall i, j | 0 <= i < j < |uploads| :: uploads[i].uid != uploads[j].uid)
    && (forall i, j | 0 <= i < j < |uploads| :: uploads[i].uid !in Preds(plan.tree, uploads[j].uid))
  }

  lemma PutAsideStep(plan: Plan, done: set<Vertex>, uploads: seq<Pending>, p: Pending)
    requires PutAside(plan, done, uploads) && UsersFirst(plan, done) && p.uid !in done && PendingOk(plan, p)
    ensures PutAside(plan, done + {p.uid}, uploads + [p])
  {
    var next := uploads + [p];
    forall i | 0 <= i < |uploads| ensures uploads[i].uid !in Preds(plan.tree, p.uid) {
      if uploads[i].uid in Preds(plan.tree, p.uid) { NotYetDone(plan, done, p.uid, uploads[i].uid); }
    }
    forall v | v in done + {p.uid} && plan.IsUpload(v) ensures exists i :: 0 <= i < |next| && next[i].uid == v {
      if v == p.uid {
        assert next[|uploads|].uid == v;
      } else {
        var i :| 0 <= i < |uploads| && uploads[i].uid == v;
        assert next[i].uid == v;
      }
    }
  }

  lemma PutAsideOther(plan: Plan, done: set<Vertex>, uploads: seq<Pending>, v: Vertex)
    requires PutAside(plan, done, uploads) && !plan.IsUpload(v)
    ensures PutAside(plan, done + {v}, uploads)
  {
  }

  /** The state of the loop over the reversed tree. */
  ghost predicate Visiting(plan: Plan, decisions: map<Vertex, Decision>, done: set<Vertex>, g: Graph,
                           uploads: seq<Pending>)
  {
    && PlanOk(plan, decisions) && UsersFirst(plan, done) && done <= plan.tree.Keys
    && Partial(plan, decisions, done, g)
    && PutAside(plan, done, uploads)
  }

  lemma VisitingBegins(plan: Plan, decisions: map<Vertex, Decision>)
    requires PlanOk(plan, decisions)
    ensures Visiting(plan, decisions, {}, map[], [])
  {
  }

  /** The next vertex of the reversed tree is new, and its users have been visited. */
  lemma NextOfReversed(plan: Plan, order: seq<Vertex>, i: nat)
    requires Closed(plan.tree) && Topological(Reverse(plan.tree), order) && i < |order|
    requires UsersFirst(plan, Elements(order[..i]))
    ensures var v, done := order[i], Elements(order[..i]);
            && v in plan.tree && v !in done && UsersFirst(plan, done + {v})
            && Elements(order[..i + 1]) == done + {v}
            && (forall k | k in plan.tree && v in plan.tree[k] :: k in done)
            && v !in Preds(plan.tree, v)
    ensures forall k :: k in Preds(Reverse(plan.tree), order[i]) <==> order[i] in Preds(plan.tree, k)
  {
    var v, done := order[i], Elements(order[..i]);
    ReverseClosed(plan.tree);
    ReverseIff(plan.tree);
    assert order[..i + 1] == order[..i] + [v];
    assert v in Elements(order);
    forall k | k in plan.tree && v in plan.tree[k] ensures k in done {
      assert k in Preds(Reverse(plan.tree), v);
    }
  }

  lemma AllVisited(g: Graph, order: seq<Vertex>)
    requires Topological(g, order)
    ensures Elements(order[..|order|]) == g.Keys
  {
    assert order[..|order|] == order;
  }

  /** Adds v, and makes it a predecessor of each user. */
  method Connect(dag: DAG, v: Vertex, data: Option<Data>, users: set<Vertex>)
    requires dag.Valid() && users <= dag.vertexPredecessors.Keys && v !in dag.vertexPredecessors
    modifies dag`vertexData, dag`vertexPredecessors, dag`vertexSuccessors, dag`hasCycle, dag`cachedOrder
    ensures dag.Valid() && dag.vertexPredecessors == AddUsed(old(dag.vertexPredecessors), v, users)
    ensures dag.vertexData == old(dag.vertexData)[v := data]
  {
    hide DAG.CachesAgree, UpdateAccepted, NamesCycle;
    ghost var g := dag.vertexPredecessors;
    var updated := dag.UpdateVertex(v, data, {}, false);
    AddUsedBegin(g, v);
    var todo := users;
    while todo != {}
      invariant todo <= users && dag.Valid()
      invariant dag.vertexPredecessors == AddUsed(g, v, users - todo)
      invariant dag.vertexData == old(dag.vertexData)[v := data]
    {
      var a :| a in todo;
      AddUsedStep(g, v, users - todo, a);
      assert users - (todo - {a}) == users - todo + {a};
      updated := dag.UpdateVertex(a, None, {v}, false);
      todo := todo - {a};
    }
    assert users - {} == users;
  }

  lemma AddUsedBegin(g: Graph, v: Vertex)
    requires v !in g
    ensures forall users: set<Vertex> | users == {} :: AddEdges(g, v, {}) == AddUsed(g, v, users)
  {
    GraphsEqual(AddEdges(g, v, {}), AddUsed(g, v, {}));
  }

  lemma AddUsedStep(g: Graph, v: Vertex, users: set<Vertex>, a: Vertex)
    requires a in g && v !in g
    ensures AddEdges(AddUsed(g, v, users), a, {v}) == AddUsed(g, v, users + {a})
  {
    var before, after := AddUsed(g, v, users), AddUsed(g, v, users + {a});
    assert forall k | k in before :: after[k] == before[k] + if k == a then {v} else {};
    assert before.Keys == after.Keys && a in before;
    hide AddUsed;
  }

  /** What is known when the loop comes to w. */
  ghost predicate AboutToVisit(plan: Plan, decisions: map<Vertex, Decision>, done: set<Vertex>, g: Graph, w: Vertex) {
    && PlanOk(plan, decisions) && UsersFirst(plan, done) && done <= plan.tree.Keys
    && Partial(plan, decisions, done, g)
    && w in plan.tree && w !in done && w !in Preds(plan.tree, w)
    && plan.Users(w) <= done
  }

  lemma NotThereYet(plan: Plan, decisions: map<Vertex, Decision>, done: set<Vertex>, g: Graph, w: Vertex)
    requires AboutToVisit(plan, decisions, done, g, w)
    ensures w !in g && forall d | d in g :: plan.kind(d) == Plain
  {
  }

  /** A branch of a decision that falls on it. */
  lemma BranchTaken(plan: Plan, decisions: map<Vertex, Decision>, done: set<Vertex>, g: Graph, w: Vertex, d: Vertex)
    requires AboutToVisit(plan, decisions, done, g, w) && plan.kind(w) == Plain && plan.Branch(w, d)
    requires d in decisions && Taken(plan, decisions, g.Keys, w, d)
    ensures Partial(plan, decisions, done + {w}, AddUsed(g, w, {decisions[d].initiator}))
  {
    var users := {decisions[d].initiator};
    assert d in plan.Users(w) && d !in g;
    assert Taken(plan, decisions, g.Keys + {w}, w, d);
    assert EdgeOk(plan, decisions, w, decisions[d].initiator);
    VisitScheduled(plan, decisions, done, g, w, users);
  }

  /** A branch of a decision that does not fall on it. */
  lemma BranchLeft(plan: Plan, decisions: map<Vertex, Decision>, done: set<Vertex>, g: Graph, w: Vertex, d: Vertex)
    requires AboutToVisit(plan, decisions, done, g, w) && plan.kind(w) == Plain && w != plan.root && plan.Branch(w, d)
    requires !Taken(plan, decisions, g.Keys, w, d)
    ensures Partial(plan, decisions, done + {w}, g)
  {
    assert d in plan.Users(w) && d !in g;
    VisitOnly(plan, decisions, done, g, decisions, w);
  }

  /** An action that is no branch is scheduled when one of its users is. */
  lemma UsedAction(plan: Plan, decisions: map<Vertex, Decision>, done: set<Vertex>, g: Graph, w: Vertex,
                   users: set<Vertex>)
    requires AboutToVisit(plan, decisions, done, g, w) && plan.kind(w) == Plain && w != plan.root
    requires forall d :: !plan.Branch(w, d)
    requires users == plan.Users(w) * g.Keys
    ensures users != {} ==> Partial(plan, decisions, done + {w}, AddUsed(g, w, users))
    ensures users == {} ==> Partial(plan, decisions, done + {w}, g)
  {
    hide Partial, PlanOk, UsersFirst, AddUsed;
    if users == {} {
      VisitOnly(plan, decisions, done, g, decisions, w);
    } else {
      UsersIff(plan, w);
      hide Plan.Branch;
      var a :| a in users;
      assert a in plan.Users(w) * (g.Keys + {w});
      forall a | a in users ensures EdgeOk(plan, decisions, w, a) {
      }
      VisitScheduled(plan, decisions, done, g, w, users);
    }
  }

  lemma RootVisited(plan: Plan, decisions: map<Vertex, Decision>, done: set<Vertex>, g: Graph)
    requires AboutToVisit(plan, decisions, done, g, plan.root)
    ensures Partial(plan, decisions, done + {plan.root}, AddUsed(g, plan.root, {}))
    ensures AddUsed(g, plan.root, {}) == AddEdges(g, plan.root, {})
  {
    VisitScheduled(plan, decisions, done, g, plan.root, {});
    AddUsedBegin(g, plan.root);
  }

  lemma OtherVisited(plan: Plan, decisions: map<Vertex, Decision>, done: set<Vertex>, g: Graph, w: Vertex,
                     decisions': map<Vertex, Decision>)
    requires AboutToVisit(plan, decisions, done, g, w) && plan.kind(w) != Plain
    requires decisions' == decisions
             || (w in decisions && decisions' == decisions[w := decisions[w].ApplyTriggers(g.Keys)])
    ensures Partial(plan, decisions', done + {w}, g) && PlanOk(plan, decisions')
  {
    VisitOnly(plan, decisions, done, g, decisions', w);
  }

  lemma OneUser(users: set<Vertex>, d: Vertex)
    requires |users| == 1 && d in users
    ensures users == {d}
  {
    assert |users - {d}| == 0;
  }

  /** What the loop does with an ordinary action; a resolver that refuses ends the scheduling. */
  method VisitAction(dag: DAG, plan: Plan, decisions: map<Vertex, Decision>, ghost done: set<Vertex>,
                     w: Vertex, data: Option<Data>, users: set<Vertex>)
    returns (ok: bool)
    requires dag.Valid() && AboutToVisit(plan, decisions, done, dag.vertexPredecessors, w)
    requires plan.kind(w) == Plain && w != plan.root && users == plan.Users(w)
    modifies dag`vertexData, dag`vertexPredecessors, dag`vertexSuccessors, dag`hasCycle, dag`cachedOrder
    ensures dag.Valid()
    ensures ok <==> !RefusedAt(plan, decisions, old(dag.vertexData).Keys, w)
    ensures dag.vertexData == old(dag.vertexData) || dag.vertexData == old(dag.vertexData)[w := data]
    ensures ok ==> Partial(plan, decisions, done + {w}, dag.vertexPredecessors)
  {
    hide DAG.CachesAgree, Partial, AddUsed, UsersFirst;
    ghost var g := dag.vertexPredecessors;
    NotThereYet(plan, decisions, done, g, w);
    if |users| == 1 {
      var d :| d in users;
      OneUser(users, d);
      if plan.kind(d) == DecisionNode {
        ok := VisitBranch(dag, plan, decisions, done, w, data, d);
        return;
      }
    }
    NoBranch(plan, w, users);
    var successors := set k | k in users && k in dag.vertexData;
    assert successors == plan.Users(w) * g.Keys;
    UsedAction(plan, decisions, done, g, w, successors);
    if successors != {} {
      Connect(dag, w, data, successors);
    }
    ok := true;
  }

  lemma NoBranch(plan: Plan, w: Vertex, users: set<Vertex>)
    requires users == plan.Users(w)
    requires |users| == 1 ==> exists d :: d in users && plan.kind(d) != DecisionNode
    ensures forall d :: !plan.Branch(w, d)
  {
    forall d ensures !plan.Branch(w, d) {
      if users == {d} { assert |users| == 1; }
    }
  }

  /** The case of an action that is only a branch of the decision d. */
  method VisitBranch(dag: DAG, plan: Plan, decisions: map<Vertex, Decision>, ghost done: set<Vertex>,
                     w: Vertex, data: Option<Data>, d: Vertex)
    returns (ok: bool)
    requires dag.Valid() && AboutToVisit(plan, decisions, done, dag.vertexPredecessors, w)
    requires plan.kind(w) == Plain && w != plan.root && plan.Branch(w, d) && d in decisions
    modifies dag`vertexData, dag`vertexPredecessors, dag`vertexSuccessors, dag`hasCycle, dag`cachedOrder
    ensures dag.Valid()
    ensures ok <==> !RefusedAt(plan, decisions, old(dag.vertexData).Keys, w)
    ensures dag.vertexData == old(dag.vertexData) || dag.vertexData == old(dag.vertexData)[w := data]
    ensures ok ==> Partial(plan, decisions, done + {w}, dag.vertexPredecessors)
  {
    hide DAG.CachesAgree, Partial, AddUsed, UsersFirst, PlanOk;
    ghost var g := dag.vertexPredecessors;
    NotThereYet(plan, decisions, done, g, w);
    if Taken(plan, decisions, g.Keys, w, d) {
      BranchTaken(plan, decisions, done, g, w, d);
    } else {
      BranchLeft(plan, decisions, done, g, w, d);
    }
    var decision := decisions[d];
    if decision.initiator !in dag.vertexData {
      return true;
    }
    GetDecisionMeans(decision, w);
    var choice := decision.GetDecision();
    if choice == Some(w) {
      Connect(dag, w, data, {decision.initiator});
    } else if choice == None {
      match plan.resolver(w, d)
      case Yes => Connect(dag, w, data, {decision.initiator});
      case No =>
      case Refuse => return false;
    }
    return true;
  }

  /** What the loop does with a decision: its triggers see the actions scheduled so far. */
  method VisitDecision(dag: DAG, plan: Plan, decisions: map<Vertex, Decision>, ghost done: set<Vertex>, w: Vertex)
    returns (decisions': map<Vertex, Decision>)
    requires AboutToVisit(plan, decisions, done, dag.vertexPredecessors, w) && dag.Valid()
    requires plan.kind(w) == DecisionNode && w in decisions
    ensures Partial(plan, decisions', done + {w}, dag.vertexPredecessors) && PlanOk(plan, decisions')
    ensures decisions' == decisions[w := decisions[w].ApplyTriggers(dag.vertexData.Keys)]
  {
    hide DAG.CachesAgree, Partial, PlanOk, AboutToVisit;
    decisions' := decisions[w := decisions[w].ApplyTriggers(dag.vertexData.Keys)];
    OtherVisited(plan, decisions, done, dag.vertexPredecessors, w, decisions');
  }

  ghost predicate UploadData(all: map<Vertex, Option<Data>>, uploads: seq<Pending>) {
    forall i | 0 <= i < |uploads| :: uploads[i].uid in all && uploads[i].data == all[uploads[i].uid]
  }

  /** The loop over the reversed tree has come to its end. */
  ghost predicate Visited(plan: Plan, decisions: map<Vertex, Decision>, g: Graph, uploads: seq<Pending>) {
    && PlanOk(plan, decisions)
    && Partial(plan, decisions, plan.tree.Keys, g)
    && PutAside(plan, plan.tree.Keys, uploads)
  }

  lemma VisitNext(plan: Plan, decisions: map<Vertex, Decision>, g: Graph, uploads: seq<Pending>, order: seq<Vertex>,
                  i: nat)
    requires Topological(Reverse(plan.tree), order) && i < |order|
    requires Visiting(plan, decisions, Elements(order[..i]), g, uploads)
    ensures AboutToVisit(plan, decisions, Elements(order[..i]), g, order[i])
    ensures var v, done := order[i], Elements(order[..i]);
            && UsersFirst(plan, done + {v}) && done + {v} <= plan.tree.Keys && Elements(order[..i + 1]) == done + {v}
            && plan.Users(v) == (set k | k in Preds(Reverse(plan.tree), v) && plan.kind(k) != UploadNode)
  {
    hide Partial, PutAside, Topological;
    NextOfReversed(plan, order, i);
    UsersIff(plan, order[i]);
  }

  /** The loop over the reversed tree. */
  method VisitAll(tree: DAG, rev: DAG, plan: Plan, initial: map<Vertex, Decision>, items: seq<Item>)
    returns (dag: DAG, uploads: seq<Pending>, decisions: map<Vertex, Decision>, refused: Option<Vertex>)
    requires tree.Valid() && tree.vertexPredecessors == plan.tree && PlanOk(plan, initial)
    requires rev.vertexPredecessors == Reverse(plan.tree) && rev != tree
    requires Topological(Reverse(plan.tree), Ids(items))
    requires forall item | item in items :: item.0 in tree.vertexData && item.1 == tree.vertexData[item.0]
    modifies tree`vertexSuccessors
    ensures tree.Valid() && fresh(dag) && dag.Valid()
    ensures refused == None ==> Visited(plan, decisions, dag.vertexPredecessors, uploads)
    ensures refused == None ==> Faithful(plan, tree.vertexData, initial, decisions, Ids(items), dag.vertexData)
    ensures refused == None ==> UploadData(tree.vertexData, uploads)
    ensures refused.Some? ==> RefusedFirst(plan, initial, decisions, Ids(items), refused.value)
  {
    hide DAG.CachesAgree, Partial, PutAside, Topological, Reverse, AboutToVisit, Plan.Users, UsersFirst, PlanOk;
    dag := new DAG();
    uploads, decisions, refused := [], initial, None;
    VisitingBegins(plan, initial);
    ghost var order := Ids(items);
    assert Elements(order[..0]) == {};
    assert Faithful(plan, tree.vertexData, initial, initial, order[..0], map[]);
    hide Faithful, RefusedAt, RefusedFirst, VisitEffect;
    for i := 0 to |items|
      invariant fresh(dag) && dag.Valid() && tree.Valid() && refused == None
      invariant Visiting(plan, decisions, Elements(order[..i]), dag.vertexPredecessors, uploads)
      invariant Faithful(plan, tree.vertexData, initial, decisions, order[..i], dag.vertexData)
      invariant UploadData(tree.vertexData, uploads)
    {
      VisitNext(plan, decisions, dag.vertexPredecessors, uploads, order, i);
      TreeClosed(plan, decisions);
      ghost var decisions0, data0, graph0, uploads0 := decisions, dag.vertexData, dag.vertexPredecessors, uploads;
      dag, uploads, decisions, refused :=
        VisitOne(tree, rev, dag, plan, decisions, uploads, Elements(order[..i]), items[i]);
      if refused.Some? {
        RefusedNow(plan, tree.vertexData, initial, decisions0, data0, graph0, uploads0, order, i,
                   decisions, dag.vertexData);
        return;
      }
      FaithfulNext(plan, tree.vertexData, initial, decisions0, data0, graph0, order, i, decisions, dag.vertexData);
    }
    AllVisited(Reverse(plan.tree), order);
    TreeClosed(plan, decisions);
    ReverseClosed(plan.tree);
    assert order[..|items|] == order;
  }

  lemma RefusedNow(plan: Plan, all: map<Vertex, Option<Data>>, initial: map<Vertex, Decision>,
                   decisions: map<Vertex, Decision>, data: map<Vertex, Option<Data>>, g: Graph, uploads: seq<Pending>,
                   order: seq<Vertex>, i: nat, decisions': map<Vertex, Decision>, data': map<Vertex, Option<Data>>)
    requires i < |order| && Visiting(plan, decisions, Elements(order[..i]), g, uploads) && g.Keys == data.Keys
    requires Faithful(plan, all, initial, decisions, order[..i], data)
    requires VisitEffect(plan, all, decisions, data, decisions', data', order[i])
    requires plan.kind(order[i]) == Plain && order[i] != plan.root && RefusedAt(plan, decisions, data.Keys, order[i])
    ensures RefusedFirst(plan, initial, decisions', order, order[i])
  {
    hide PlanOk, UsersFirst, PutAside, ScheduledExactly, RefusedAt, DecisionsMade, NoneRefused;
    assert RefusedWhen(plan, initial, decisions', order, i, data.Keys);
  }

  lemma FaithfulNext(plan: Plan, all: map<Vertex, Option<Data>>, initial: map<Vertex, Decision>,
                     decisions: map<Vertex, Decision>, data: map<Vertex, Option<Data>>, g: Graph, order: seq<Vertex>,
                     i: nat,
                     decisions': map<Vertex, Decision>, data': map<Vertex, Option<Data>>)
    requires i < |order| && AboutToVisit(plan, decisions, Elements(order[..i]), g, order[i])
    requires Faithful(plan, all, initial, decisions, order[..i], data)
    requires VisitEffect(plan, all, decisions, data, decisions', data', order[i])
    requires plan.kind(order[i]) == Plain && order[i] != plan.root ==> !RefusedAt(plan, decisions, data.Keys, order[i])
    ensures Faithful(plan, all, initial, decisions', order[..i + 1], data')
  {
    hide Faithful, RefusedAt, VisitEffect, Partial, PlanOk, UsersFirst;
    assert order[..i + 1] == order[..i] + [order[i]];
    FaithfulStep(plan, all, initial, decisions, data, order[..i], decisions', data', order[i]);
  }

  /** One round of the loop: the root, a decision, an upload or an ordinary action. */
  method VisitOne(tree: DAG, rev: DAG, dag0: DAG, plan: Plan, decisions0: map<Vertex, Decision>, uploads0: seq<Pending>,
                  ghost done: set<Vertex>, item: Item)
    returns (dag: DAG, uploads: seq<Pending>, decisions: map<Vertex, Decision>, refused: Option<Vertex>)
    requires tree.Valid() && tree.vertexPredecessors == plan.tree && Closed(plan.tree)
    requires rev.vertexPredecessors == Reverse(plan.tree) && rev != tree && dag0 != tree && dag0 != rev && dag0.Valid()
    requires Visiting(plan, decisions0, done, dag0.vertexPredecessors, uploads0)
    requires AboutToVisit(plan, decisions0, done, dag0.vertexPredecessors, item.0)
    requires UsersFirst(plan, done + {item.0}) && done + {item.0} <= plan.tree.Keys
    requires plan.Users(item.0) == (set k | k in Preds(Reverse(plan.tree), item.0) && plan.kind(k) != UploadNode)
    requires item.0 in tree.vertexData && item.1 == tree.vertexData[item.0] && UploadData(tree.vertexData, uploads0)
    modifies tree`vertexSuccessors, dag0`vertexData, dag0`vertexPredecessors, dag0`vertexSuccessors, dag0`hasCycle,
             dag0`cachedOrder
    ensures tree.Valid() && dag == dag0 && dag.Valid()
    ensures refused == None ==> Visiting(plan, decisions, done + {item.0}, dag.vertexPredecessors, uploads)
    ensures refused == if plan.kind(item.0) == Plain && item.0 != plan.root
                          && RefusedAt(plan, decisions0, old(dag0.vertexData).Keys, item.0) then Some(item.0) else None
    ensures VisitEffect(plan, tree.vertexData, decisions0, old(dag0.vertexData), decisions, dag.vertexData, item.0)
    ensures UploadData(tree.vertexData, uploads)
  {
    hide DAG.CachesAgree, Partial, PutAside, Reverse, Plan.Users, UsersFirst, PlanOk, UpdateAccepted, NamesCycle,
         AddUsed, AddEdges;
    hide RefusedAt;
    var (w, data) := item;
    dag, uploads, decisions, refused := dag0, uploads0, decisions0, None;
    DecisionKnown(plan, decisions, done, dag.vertexPredecessors, w);
    if !plan.IsUpload(w) {
      PutAsideOther(plan, done, uploads, w);
    }
    if w == plan.root {
      NotThereYet(plan, decisions, done, dag.vertexPredecessors, w);
      RootVisited(plan, decisions, done, dag.vertexPredecessors);
      var updated := dag.UpdateVertex(w, data, {}, false);
    } else if plan.kind(w) == DecisionNode {
      decisions := VisitDecision(dag, plan, decisions, done, w);
    } else if plan.IsUpload(w) {
      var successors := tree.GetSuccessors(w);
      SuccessorIff(plan, w);
      var p := Pending(w, data, tree.GetPredecessors(w), plan.root in successors);
      PutAsideStep(plan, done, uploads, p);
      OtherVisited(plan, decisions, done, dag.vertexPredecessors, w, decisions);
      uploads := uploads + [p];
    } else {
      var users := set k | k in rev.GetPredecessors(w) && plan.kind(k) != UploadNode;
      var ok := VisitAction(dag, plan, decisions, done, w, data, users);
      refused := if ok then None else Some(w);
    }
  }

  lemma DecisionKnown(plan: Plan, decisions: map<Vertex, Decision>, done: set<Vertex>, g: Graph, w: Vertex)
    requires AboutToVisit(plan, decisions, done, g, w)
    ensures PlanOk(plan, decisions) && plan.root in plan.tree && plan.kind(plan.root) == Plain
    ensures plan.kind(w) == DecisionNode ==> w in decisions
    ensures w !in done && UsersFirst(plan, done)
  {
  }

  lemma SuccessorIff(plan: Plan, w: Vertex)
    requires Closed(plan.tree)
    ensures plan.root in Preds(Reverse(plan.tree), w) <==> w in Preds(plan.tree, plan.root)
  {
    ReverseIff(plan.tree);
  }

  lemma TreeClosed(plan: Plan, decisions: map<Vertex, Decision>)
    requires PlanOk(plan, decisions)
    ensures Closed(plan.tree)
  {
  }

  // ----- The loop over the uploads -----

  ghost function Considered(uploads: seq<Pending>, i: int): set<Vertex> {
    set k | 0 <= i <= k < |uploads| :: uploads[k].uid
  }

  lemma UploadingBegins(plan: Plan, decisions: map<Vertex, Decision>, g: Graph, uploads: seq<Pending>)
    requires Visited(plan, decisions, g, uploads)
    ensures Uploading(plan, decisions, g.Keys, Considered(uploads, |uploads|), g)
    ensures ScheduledExactly(plan, decisions, plan.tree.Keys, g.Keys)
  {
    assert Considered(uploads, |uploads|) == {};
    assert Wanted(plan, decisions, g.Keys, plan.root);
  }

  lemma ConsiderNext(plan: Plan, decisions: map<Vertex, Decision>, scheduled: set<Vertex>, uploads: seq<Pending>,
                     i: nat, g: Graph)
    requires i < |uploads| && PutAside(plan, plan.tree.Keys, uploads) && PlanOk(plan, decisions) && Acyclic(plan.tree)
    requires ScheduledExactly(plan, decisions, plan.tree.Keys, scheduled)
    requires Uploading(plan, decisions, scheduled, Considered(uploads, i + 1), g)
    ensures var p := uploads[i];
            Uploading(plan, decisions, scheduled, Considered(uploads, i),
                      if p.predecessors <= g.Keys then AddUpload(plan, g, p.uid, p.predecessors, p.connectToRoot)
                      else g)
  {
    hide Uploading, ScheduledExactly, Acyclic;
    var p := uploads[i];
    var rest := Considered(uploads, i + 1);
    assert Considered(uploads, i) == rest + {p.uid};
    assert PendingOk(plan, p);
    forall v | v in rest ensures v != p.uid && p.uid !in Preds(plan.tree, v) {
      var k :| i + 1 <= k < |uploads| && uploads[k].uid == v;
    }
    if p.uid in Preds(plan.tree, p.uid) {
      ReachEdge(plan.tree, p.uid, p.uid);
      NoSelfReach(plan.tree, p.uid);
    }
    UploadNotScheduled(plan, decisions, scheduled, p.uid);
    UploadStep(plan, decisions, scheduled, rest, g, p.uid, p.connectToRoot);
  }

  lemma NoSelfReach(g: Graph, v: Vertex)
    requires Acyclic(g)
    ensures !Reach(g, v, v)
  {
  }

  lemma UploadNotScheduled(plan: Plan, decisions: map<Vertex, Decision>, scheduled: set<Vertex>, u: Vertex)
    requires ScheduledExactly(plan, decisions, plan.tree.Keys, scheduled) && plan.IsUpload(u)
    ensures u !in scheduled
  {
  }

  lemma ScheduleDone(plan: Plan, decisions: map<Vertex, Decision>, scheduled: set<Vertex>, uploads: seq<Pending>,
                     g: Graph)
    requires PutAside(plan, plan.tree.Keys, uploads) && PlanOk(plan, decisions) && Acyclic(plan.tree)
    requires ScheduledExactly(plan, decisions, plan.tree.Keys, scheduled)
    requires Uploading(plan, decisions, scheduled, Considered(uploads, 0), g)
    ensures ScheduleOk(plan, decisions, g) && PlainOf(plan, g) == scheduled
  {
    hide Wanted;
    ResultAcyclic(plan, decisions, g);
    AllConsidered(plan, uploads);
    forall v ensures v in PlainOf(plan, g) <==> v in scheduled {
      if v in Considered(uploads, 0) { assert plan.IsUpload(v); }
    }
    assert PlainOf(plan, g) == scheduled;
  }

  lemma AllConsidered(plan: Plan, uploads: seq<Pending>)
    requires PutAside(plan, plan.tree.Keys, uploads)
    ensures Considered(uploads, 0) == UploadsOf(plan, plan.tree.Keys)
  {
    forall k | 0 <= k < |uploads| ensures plan.IsUpload(uploads[k].uid) {
      assert PendingOk(plan, uploads[k]);
    }
  }

  /**
   The DAG of scheduled actions, together with the decisions as they were taken. It is an error when
   the tree has a cycle, or when the resolver refuses to decide.
   */
  method Schedule(tree: DAG, root: Vertex, kind: Vertex -> Kind, initial: map<Vertex, Decision>,
                  resolver: (Vertex, Vertex) -> Answer)
    returns (r: Result<DAG, SchedulingError>, decisions: map<Vertex, Decision>, ghost order: seq<Vertex>)
    requires tree.Valid() && PlanOk(Plan(tree.vertexPredecessors, root, kind, resolver), initial)
    modifies tree`hasCycle, tree`vertexSuccessors
    ensures tree.Valid()
    ensures r.Ok? ==>
              var plan, g := Plan(tree.vertexPredecessors, root, kind, resolver), r.value.vertexPredecessors;
              && fresh(r.value) && r.value.Valid() && r.value.tags == tree.tags
              && DataFrom(tree.vertexData, r.value.vertexData)
              && ScheduleOk(plan, decisions, g)
              && Topological(Reverse(plan.tree), order)
              && DecisionsMade(plan, initial, decisions, order, PlainOf(plan, g))
              && NoneRefused(plan, decisions, plan.tree.Keys, PlainOf(plan, g))
    ensures r.Err? && r.error.GraphError? <==> !Acyclic(tree.vertexPredecessors)
    ensures r.Err? && r.error.Undecided? ==>
              var plan := Plan(tree.vertexPredecessors, root, kind, resolver);
              Topological(Reverse(plan.tree), order) && RefusedFirst(plan, initial, decisions, order, r.error.uid)
  {
    hide DAG.CachesAgree, PlanOk, Topological, Acyclic, Reverse, ScheduleOk, Closed, Visited, RefusedFirst,
         DecisionsMade, NoneRefused;
    hide Faithful, UploadData, DataFrom, PlainOf;
    decisions, order := initial, [];
    var plan := Plan(tree.vertexPredecessors, root, kind, resolver);
    TreeClosed(plan, initial);
    var reversed := tree.ReverseGraph(false);
    ReverseClosed(plan.tree);
    ReverseAcyclic(plan.tree);
    var rev := reversed.value;
    var listed := rev.Items();
    if listed.Err? {
      return Err(GraphError(listed.error)), decisions, order;
    }
    order := Ids(listed.value);
    DataOfReverse(plan.tree, tree.vertexData);
    var result, uploads, taken, refused := VisitAll(tree, rev, plan, initial, listed.value);
    decisions := taken;
    if refused.Some? {
      return Err(Undecided(refused.value)), decisions, order;
    }
    FaithfulMeans(plan, tree.vertexData, initial, decisions, order, result.vertexData);
    result.tags := tree.tags;
    AllVisited(Reverse(plan.tree), order);
    assert order[..|order|] == order;
    AddUploads(result, plan, decisions, uploads, tree.vertexData);
    r := Ok(result);
  }

  lemma RootScheduled(plan: Plan, decisions: map<Vertex, Decision>, scheduled: set<Vertex>, considered: set<Vertex>,
                      g: Graph)
    requires Uploading(plan, decisions, scheduled, considered, g)
    ensures plan.root in g
  {
  }

  lemma FaithfulMeans(plan: Plan, all: map<Vertex, Option<Data>>, initial: map<Vertex, Decision>,
                      decisions: map<Vertex, Decision>,
                      order: seq<Vertex>, data: map<Vertex, Option<Data>>)
    requires Faithful(plan, all, initial, decisions, order, data)
    ensures DataFrom(all, data)
    ensures DecisionsMade(plan, initial, decisions, order, data.Keys)
            && NoneRefused(plan, decisions, Elements(order), data.Keys)
  {
  }

  lemma DataOfReverse(g: Graph, data: map<Vertex, Option<Data>>)
    requires Closed(g) && data.Keys == g.Keys
    ensures DataOfPart(g, data) == data
  {
  }

  /** The loop over the uploads that were put aside, last one first. */
  method AddUploads(dag: DAG, plan: Plan, ghost decisions: map<Vertex, Decision>, uploads: seq<Pending>,
                    ghost all: map<Vertex, Option<Data>>)
    requires dag.Valid() && Visited(plan, decisions, dag.vertexPredecessors, uploads) && Acyclic(plan.tree)
    requires UploadData(all, uploads) && DataFrom(all, dag.vertexData)
    modifies dag`vertexData, dag`vertexPredecessors, dag`vertexSuccessors, dag`hasCycle, dag`cachedOrder
    ensures dag.Valid() && ScheduleOk(plan, decisions, dag.vertexPredecessors)
    ensures PlainOf(plan, dag.vertexPredecessors) == old(dag.vertexPredecessors).Keys
    ensures DataFrom(all, dag.vertexData)
  {
    hide DAG.CachesAgree, Acyclic, ScheduleOk, Uploading, Partial, PlanOk, PutAside, ScheduledExactly, Considered;
    hide UpdateAccepted, NamesCycle, AddEdges;
    ghost var scheduled := dag.vertexPredecessors.Keys;
    UploadingBegins(plan, decisions, dag.vertexPredecessors, uploads);
    var i := |uploads|;
    while i > 0
      invariant 0 <= i <= |uploads| && dag.Valid() && DataFrom(all, dag.vertexData)
      invariant Uploading(plan, decisions, scheduled, Considered(uploads, i), dag.vertexPredecessors)
    {
      i := i - 1;
      var p := uploads[i];
      RootScheduled(plan, decisions, scheduled, Considered(uploads, i + 1), dag.vertexPredecessors);
      ConsiderNext(plan, decisions, scheduled, uploads, i, dag.vertexPredecessors);
      if p.predecessors <= dag.vertexData.Keys {
        var updated := dag.UpdateVertex(p.uid, p.data, p.predecessors, false);
        if p.connectToRoot {
          updated := dag.UpdateVertex(plan.root, None, {p.uid}, false);
        }
      }
    }
    ScheduleDone(plan, decisions, scheduled, uploads, dag.vertexPredecessors);
  }
}
