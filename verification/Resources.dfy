/**
 The scheduler's accounting: tokens per queue, slots, and the jobs that hold them.
 */
module Resources {
  import opened Graphs

  type QueueName = string

  /** What the scheduler reads of a job; none of it changes during a run. */
  datatype Job = Job(uid: Vertex, queueName: QueueName, tokens: int, priority: int, shouldSkip: bool)

  /** A started job and the slot it was given. */
  datatype ActiveJob = ActiveJob(job: Job, slot: nat)

  /** An element of a priority queue: the largest priority first, then the oldest. */
  datatype Entry = Entry(negPriority: int, index: int, job: Job)

  predicate Before(a: Entry, b: Entry) {
    a.negPriority < b.negPriority || (a.negPriority == b.negPriority && a.index <= b.index)
  }

  /** a has the higher priority, or the same one and was pushed earlier. */
  ghost predicate MoreUrgent(a: Entry, b: Entry) {
    a.job.priority > b.job.priority || (a.job.priority == b.job.priority && a.index < b.index)
  }

  /** The job needs between one token and the capacity of a queue that exists. */
  ghost predicate Fits(capacity: map<QueueName, int>, job: Job) {
    job.queueName in capacity && 1 <= job.tokens <= capacity[job.queueName]
  }

  // ----- Sums over the queues -----

  ghost function Sum(m: map<QueueName, int>): int {
    if m == map[] then 0
    else
      var k :| k in m;
      m[k] + Sum(m - {k})
  }

  lemma {:induction false} SumTake(m: map<QueueName, int>, k: QueueName)
    requires k in m
    ensures Sum(m) == m[k] + Sum(m - {k})
    decreases |m|
  {
    var c :| c in m && Sum(m) == m[c] + Sum(m - {c});
    if c != k {
      SumTake(m - {c}, k);
      SumTake(m - {k}, c);
      assert m - {c} - {k} == m - {k} - {c};
    }
  }

  lemma SumUpdate(m: map<QueueName, int>, k: QueueName, x: int)
    requires k in m
    ensures Sum(m[k := x]) == Sum(m) - m[k] + x
  {
    SumTake(m, k);
    SumTake(m[k := x], k);
    assert m[k := x] - {k} == m - {k};
  }

  lemma SumAdd(m: map<QueueName, int>, k: QueueName, x: int)
    requires k !in m
    ensures Sum(m[k := x]) == Sum(m) + x
  {
    SumTake(m[k := x], k);
    assert m[k := x] - {k} == m;
  }

  lemma {:induction false} SumBounds(m: map<QueueName, int>)
    requires forall k | k in m :: m[k] >= 0
    ensures Sum(m) >= 0
    ensures forall k | k in m :: m[k] <= Sum(m)
    decreases |m|
  {
    forall k | k in m ensures 0 <= m[k] <= Sum(m) {
      SumTake(m, k);
      SumBounds(m - {k});
    }
  }

  // ----- The tokens of the active jobs -----

  /** The tokens that the active jobs of one queue hold. */
  ghost function Held(active: seq<ActiveJob>, name: QueueName): int {
    if active == [] then 0
    else Held(active[..|active| - 1], name) +
         var job := active[|active| - 1].job; if job.queueName == name then job.tokens else 0
  }

  ghost function HeldInAll(active: seq<ActiveJob>): int {
    if active == [] then 0 else HeldInAll(active[..|active| - 1]) + active[|active| - 1].job.tokens
  }

  lemma HeldAppend(active: seq<ActiveJob>, a: ActiveJob, name: QueueName)
    ensures Held(active + [a], name) == Held(active, name) + if a.job.queueName == name then a.job.tokens else 0
    ensures HeldInAll(active + [a]) == HeldInAll(active) + a.job.tokens
  {
    assert (active + [a])[..|active|] == active;
  }

  ghost function Remove<T>(s: seq<T>, i: nat): seq<T>
    requires i < |s|
  {
    s[..i] + s[i + 1..]
  }

  lemma RemoveInit<T>(s: seq<T>, i: nat)
    requires i < |s| - 1
    ensures Remove(s, i) == Remove(s[..|s| - 1], i) + [s[|s| - 1]]
  {
  }

  lemma {:induction false} HeldRemove(active: seq<ActiveJob>, i: nat, name: QueueName)
    requires i < |active|
    ensures Held(Remove(active, i), name) ==
            Held(active, name) - if active[i].job.queueName == name then active[i].job.tokens else 0
    ensures HeldInAll(Remove(active, i)) == HeldInAll(active) - active[i].job.tokens
    decreases |active|
  {
    var last := |active| - 1;
    if i == last {
      assert Remove(active, i) == active[..last];
    } else {
      var init := active[..last];
      hide Remove;
      HeldRemove(init, i, name);
      RemoveInit(active, i);
      HeldAppend(Remove(init, i), active[last], name);
    }
  }

  lemma {:induction false} HeldBounds(active: seq<ActiveJob>)
    requires forall a | a in active :: a.job.tokens >= 1
    ensures |active| <= HeldInAll(active)
    ensures forall name :: Held(active, name) >= 0
    decreases |active|
  {
    if active != [] {
      HeldBounds(active[..|active| - 1]);
    }
  }

  /** Free tokens and tokens held add up to the capacity of each queue, and nothing is overdrawn. */
  ghost predicate TokensConserved(capacity: map<QueueName, int>, nTokens: int,
                                  tokens: map<QueueName, int>, active: seq<ActiveJob>) {
    && tokens.Keys == capacity.Keys
    && (forall name | name in tokens :: tokens[name] >= 0 && tokens[name] + Held(active, name) == capacity[name])
    && (forall a | a in active :: Fits(capacity, a.job))
    && Sum(tokens) + HeldInAll(active) == nTokens
  }

  // ----- Slots -----

  ghost function SlotsOf(active: seq<ActiveJob>): seq<nat> {
    seq(|active|, i requires 0 <= i < |active| => active[i].slot)
  }

  /** The slots in reserve and those of the active jobs are together exactly 0..n-1. */
  ghost predicate SlotsConserved(nTokens: nat, slots: seq<nat>, active: seq<ActiveJob>) {
    multiset(slots) + multiset(SlotsOf(active)) == multiset(seq(nTokens, i requires 0 <= i < nTokens => i))
  }

  lemma SlotsInitial(nTokens: nat, slots: seq<nat>)
    requires slots == seq(nTokens, i requires 0 <= i < nTokens => i)
    ensures SlotsConserved(nTokens, slots, [])
  {
    assert SlotsOf([]) == [];
  }

  lemma SlotsSize(nTokens: nat, slots: seq<nat>, active: seq<ActiveJob>)
    requires SlotsConserved(nTokens, slots, active)
    ensures |slots| + |active| == nTokens
  {
    var all := seq(nTokens, i requires 0 <= i < nTokens => i);
    assert |multiset(slots) + multiset(SlotsOf(active))| == |slots| + |SlotsOf(active)|;
    assert |multiset(all)| == nTokens;
  }

  /** As long as the tokens allow another job there is a slot for it. */
  lemma SlotAvailable(capacity: map<QueueName, int>, nTokens: nat, tokens: map<QueueName, int>,
                      slots: seq<nat>, active: seq<ActiveJob>, job: Job)
    requires TokensConserved(capacity, nTokens, tokens, active) && SlotsConserved(nTokens, slots, active)
    requires Fits(capacity, job) && job.tokens <= tokens[job.queueName]
    ensures |slots| >= 1
  {
    SumBounds(tokens);
    HeldBounds(active);
    SlotsSize(nTokens, slots, active);
  }

  lemma TokensStart(capacity: map<QueueName, int>, nTokens: nat, tokens: map<QueueName, int>,
                    active: seq<ActiveJob>, a: ActiveJob)
    requires TokensConserved(capacity, nTokens, tokens, active)
    requires Fits(capacity, a.job) && a.job.tokens <= tokens[a.job.queueName]
    ensures var name := a.job.queueName;
            TokensConserved(capacity, nTokens, tokens[name := tokens[name] - a.job.tokens], active + [a])
  {
    var name := a.job.queueName;
    forall n ensures Held(active + [a], n) == Held(active, n) + if name == n then a.job.tokens else 0 {
      HeldAppend(active, a, n);
    }
    HeldAppend(active, a, name);
    SumUpdate(tokens, name, tokens[name] - a.job.tokens);
  }

  lemma TokensEnd(capacity: map<QueueName, int>, nTokens: nat, tokens: map<QueueName, int>, active: seq<ActiveJob>,
                  i: nat)
    requires TokensConserved(capacity, nTokens, tokens, active) && i < |active|
    ensures var job := active[i].job;
            && job.queueName in tokens
            && TokensConserved(capacity, nTokens, tokens[job.queueName := tokens[job.queueName] + job.tokens],
                               Remove(active, i))
  {
    var job := active[i].job;
    assert active[i] in active;
    SumUpdate(tokens, job.queueName, tokens[job.queueName] + job.tokens);
    HeldRemove(active, i, job.queueName);
    forall name | name in tokens
      ensures Held(Remove(active, i), name) == Held(active, name) - if job.queueName == name then job.tokens else 0
    {
      HeldRemove(active, i, name);
    }
  }

  lemma SlotsStart(nTokens: nat, slots: seq<nat>, active: seq<ActiveJob>, job: Job)
    requires SlotsConserved(nTokens, slots, active) && |slots| >= 1
    ensures SlotsConserved(nTokens, slots[..|slots| - 1], active + [ActiveJob(job, slots[|slots| - 1])])
  {
    var slot := slots[|slots| - 1];
    assert slots == slots[..|slots| - 1] + [slot];
    assert SlotsOf(active + [ActiveJob(job, slot)]) == SlotsOf(active) + [slot];
  }

  lemma SlotsEnd(nTokens: nat, slots: seq<nat>, active: seq<ActiveJob>, i: nat)
    requires SlotsConserved(nTokens, slots, active) && i < |active|
    ensures SlotsConserved(nTokens, slots + [active[i].slot], Remove(active, i))
  {
    var all := SlotsOf(active);
    assert all == all[..i] + [all[i]] + all[i + 1..];
    assert SlotsOf(Remove(active, i)) == all[..i] + all[i + 1..];
  }

  /** No two active jobs share a slot, no active job's slot is in reserve, and all slots are below n. */
  lemma SlotsUnique(nTokens: nat, slots: seq<nat>, active: seq<ActiveJob>)
    requires SlotsConserved(nTokens, slots, active)
    ensures forall i, j | 0 <= i < j < |active| :: active[i].slot != active[j].slot
    ensures forall i | 0 <= i < |active| :: active[i].slot < nTokens && active[i].slot !in slots
  {
    var all := seq(nTokens, i requires 0 <= i < nTokens => i);
    var held := SlotsOf(active);
    RangeCounts(nTokens, all);
    forall i | 0 <= i < |active| ensures active[i].slot < nTokens && active[i].slot !in slots {
      assert held[i] in multiset(held);
      assert multiset(all)[held[i]] <= 1;
    }
    forall i, j | 0 <= i < j < |active| ensures active[i].slot != active[j].slot {
      assert (multiset(slots) + multiset(held))[held[i]] == multiset(all)[held[i]] <= 1;
      if held[i] == held[j] {
        TwiceCounted(held, i, j);
      }
    }
  }

  lemma TwiceCounted(s: seq<nat>, i: nat, j: nat)
    requires i < j < |s| && s[i] == s[j]
    ensures multiset(s)[s[i]] >= 2
  {
    assert s == s[..j] + [s[j]] + s[j + 1..];
    assert s[i] in s[..j];
  }

  lemma {:induction false} RangeCounts(n: nat, all: seq<nat>)
    requires all == seq(n, i requires 0 <= i < n => i)
    ensures forall x: nat :: multiset(all)[x] == if x < n then 1 else 0
    decreases n
  {
    if n > 0 {
      var init := seq(n - 1, i requires 0 <= i < n - 1 => i);
      RangeCounts(n - 1, init);
      assert all == init + [n - 1];
    }
  }
}
