# A verified model of e3-core's job engine

e3-core runs build and test jobs that depend on each other. This project models the code that decides
in which order they run, how many at once, which of them are skipped or failed, and a few neighbouring
algorithms, and proves what each of them is for:

- **The DAG library** (`Graphs`, `Contexts`, `Pruning`, `Searches`, `Dags`, with `Sequences` and `Wrappers`). The class `DAG` keeps
  vertices, data, tags and predecessor sets, with three caches that are filled on demand. Its methods
  are proved against plain graph theory: routes, reachability, cycles, shortest distances. `Valid()`
  says that the caches hold what recomputing them would give, and every method that changes the graph
  keeps it. `DAGIterator` visits the vertices in dependency order, one state and one counter per vertex.
- **The scheduler** (`JobLogs`, `Resources`, `Schedulers`). The class `Scheduler` walks a DAG with the
  iterator, under tokens per queue and one slot per active job. Its invariant ties the iterator's
  states, the queues and the active jobs to the log of everything that happened. A job's end is one
  message; which active job ends next, and what `collect` answers, is arbitrary, except that requests
  to requeue are finitely many. `JobLogs` draws the conclusions about whole runs from the log alone.
- **The walk** (`Walks`): failure propagation and fingerprints. `Walk` is the class with its
  dictionaries; a history is any sequence of events the scheduler allows together with any answers of
  the jobs, and the theorems are about every history and about two histories in a row.
- **The plan scheduler** (`Schedules`): from the tree of all actions, decisions and uploads to the DAG
  of those that are scheduled.
- **The source closure** (`SourceClosures`): which sources and packages a specification draws on, and
  which may be published.
- **Tree synchronisation** (`SyncTrees`): a thread that walks two trees and one that changes the target,
  as a state machine; the theorems hold in every interleaving.
- **Command-line quoting** (`CommandLines`): the loop of `rlimit` that builds a Windows command line in a
  buffer, and the documented rules by which a C program splits it again.
- **Tries and patches** (`Tries`, `Patches`): prefix and suffix matching against a set of words, and the
  filter that drops discarded files from a patch.

`dafny verify dfyconfig.toml` checks the whole project.

## What the code does that its documentation does not say

- `prune` promises that `get_context` returns the same value on kept vertices. The tagged vertices are
  the same, the distances need not be: `Pruning.PruningShortensDistances` is an example, and
  `Pruning.DistancesKeptIff` says exactly when they are kept: whenever a chain of dropped vertices leads
  from `u` to `w`, `w` must find each tag at most one step further away than `u` does by another route.
- `reverse_graph` with checks marks the graph it was called on as free of errors when the reverse graph
  is acyclic, although a predecessor may be missing (`Dags.ReverseOfUnknownPredecessor`). The contract
  of `Dags.DAG.ReverseGraph` states exactly when the cached verdict stays right.
- `Scheduler.run` does not look for cycles, and on a cyclic graph its loop does not end
  (`Schedulers.Scheduler.FinishedMeansAcyclic`).
- An argument with a tab but no blank or double quote is not quoted and arrives in pieces
  (`CommandLines.TabSplitsArgument`); `CommandLines.RoundTrip` is an equivalence.
- When `schedule` looks for the one successor that decides about an action it leaves out `Upload`
  successors but not `CheckVirus` ones, so the latter keep an action from being a branch of a decision.
- The patch filter misses a header whose first line comes right after a line that looks like one too but is
  not confirmed by the next line: both are written and the search starts anew one line too late. A removed
  Ada comment `-- x` as the last line of a hunk, shown as `--- x`, right before the `---` and `+++` lines of
  the next file does that, and the next file is then kept even if it should be discarded
  (`Patches.MissedHeader`). `Patches.DecidesIff`, `StartsIff` and `HeadersDecideIff` say exactly when a
  header is seen.
- A skipped job never enters a queue, so it need not name an existing one: `Run` requires of a provider only
  that the other jobs fit.
- `get_context` with a `max_element` of 0 or less is not limited.

## Model

| member | source | states |
|---|---|---|
| Graphs.StuckSetHasCycle | src/e3/collection/dag.py:81-95 | if every remaining vertex waits for a remaining one, some remaining vertex is on a cycle |
| Graphs.TopologicalIsValid | src/e3/collection/dag.py:503-534 | a graph that has a topological order has no missing predecessor and no cycle |
| Graphs.ReverseReverse | src/e3/collection/dag.py:555-592 | turning all edges round twice gives back a closed graph |
| Graphs.ReverseReach | src/e3/collection/dag.py:555-592 | `t` reaches `s` in the reverse graph exactly if `s` reaches `t` in the graph |
| Graphs.ReverseAcyclic | src/e3/collection/dag.py:555-592 | the reverse graph has a cycle exactly if the graph has one |
| Graphs.ReverseTopological | src/e3/collection/dag.py:573-580 | the cached order read backwards is topological for the reverse graph |
| Graphs.NewCycleThroughTarget | src/e3/collection/dag.py:396-419 | new edges into a vertex of an acyclic graph make a cycle exactly if they make one through that vertex |
| Graphs.NewVertexNoCycle | src/e3/collection/dag.py:325-347 | a new vertex with existing predecessors keeps a valid DAG valid |
| Contexts.WithinStep | src/e3/collection/dag.py:303-322 | what is reached within one more step is what is reached now plus the predecessors of its untagged part |
| Contexts.WithinFixpoint | src/e3/collection/dag.py:303-322 | once a level adds nothing, everything that can be reached through untagged vertices has been reached |
| Pruning.SourcesStep | src/e3/collection/dag.py:740-762 | the kept vertices behind dropped chains are the union of what the direct predecessors hand on |
| Pruning.PrunedReach | src/e3/collection/dag.py:721-765 | pruning neither adds nor removes reachability between kept vertices |
| Pruning.PrunedValid | src/e3/collection/dag.py:721-765 | pruning a valid DAG creates neither a missing predecessor nor a cycle |
| Pruning.PrunedReverse | src/e3/collection/dag.py:721-765 | pruning the reverse graph gives the reverse of the pruned graph |
| Pruning.PrunedContext | src/e3/collection/dag.py:721-743 | when only untagged vertices are pruned, a kept vertex finds the same tagged vertices, none further away, along predecessors and along successors |
| Pruning.PruningShortensDistances | src/e3/collection/dag.py:721-743 | three vertices for which pruning changes a distance, against the documentation |
| Pruning.DistancesKeptIff | src/e3/collection/dag.py:721-743 | in either direction, pruning keeps all distances to tagged vertices exactly if no dropped chain is a shortcut |
| Searches.Search.Pick | src/e3/collection/dag.py:468-476 | taking the nearest open node keeps the finished nodes nearest |
| Searches.Search.Shorten | src/e3/collection/dag.py:478-488 | a shorter way found through the node at hand keeps every finite distance realised by its links |
| Searches.Search.FiniteBound | src/e3/collection/dag.py:436-439 | no real distance reaches the number that stands for infinity |
| Searches.Search.NoShorterRoute | src/e3/collection/dag.py:468-488 | when the goal is the nearest open node no route is shorter than its distance |
| Searches.Search.Finished | src/e3/collection/dag.py:468-492 | the goal's distance is then minimal, and finite if there is a route |
| Searches.Search.GoalPath | src/e3/collection/dag.py:490-501 | a finite distance of the goal is the length of a route along predecessor edges |
| Dags.DAG.AddTag | src/e3/collection/dag.py:220-230 | sets one tag and nothing else |
| Dags.DAG.SetPredecessors | src/e3/collection/dag.py:184-197 | replaces the predecessors of one vertex and drops the caches |
| Dags.DAG.GetSuccessors | src/e3/collection/dag.py:199-218 | gives the vertices that have `v` as a predecessor, from the cache or recomputed |
| Dags.DAG.ShortestPath | src/e3/collection/dag.py:421-501 | None exactly if there is no route, otherwise a route with the fewest edges; for equal ends a shortest non-empty cycle |
| Dags.DAG.Traverse | src/e3/collection/dag.py:594-600 | plain iteration gives every vertex once, with its data, after its predecessors, exactly if the graph is acyclic; otherwise it names a cycle |
| Dags.DAG.Check | src/e3/collection/dag.py:503-534 | succeeds exactly on graphs without missing predecessors and cycles, and caches that verdict; when it is not cached, the error is a missing predecessor if there is one and otherwise names a real cycle |
| Dags.DAG.Items | src/e3/collection/dag.py:594-600 | iteration through the cache gives a topological order with the current data |
| Dags.DAG.GetClosure | src/e3/collection/dag.py:536-553 | gives exactly the transitive predecessors, on cyclic graphs too |
| Dags.DAG.UpdateVertex | src/e3/collection/dag.py:349-419 | a checked update succeeds exactly if the result is a valid DAG, and replaces the data unless none is given for an existing vertex; a rejected one changes no vertex, data or edge, and on a valid DAG says that a predecessor is unknown, if one is, or else names a real cycle |
| Dags.UpdateAcceptedIff | src/e3/collection/dag.py:396-419 | looking for the vertex among its own ancestors is enough to know |
| Dags.DAG.AddVertex | src/e3/collection/dag.py:325-347 | succeeds exactly for a new vertex with existing predecessors in a valid DAG; for an existing one the error names it |
| Dags.DAG.ReverseGraph | src/e3/collection/dag.py:555-592 | the result has all edges turned round, the same data and agreeing caches; states exactly when the original's verdict stays right |
| Dags.ReverseTwice | src/e3/collection/dag.py:555-592 | reversing twice gives back vertices, data and edges |
| Dags.ReverseOfUnknownPredecessor | src/e3/collection/dag.py:582-590 | a graph with a missing predecessor is no valid DAG but its reverse is |
| Dags.DAG.Merge | src/e3/collection/dag.py:616-644 | succeeds exactly if the union of vertices and edges is a valid DAG, and is that union; the data are the second graph's where it has some, otherwise the first one's |
| Dags.DAG.MergeEdges | src/e3/collection/dag.py:633-640 | adding one DAG's edges fails only if the union is no valid DAG |
| Dags.DAG.Prune | src/e3/collection/dag.py:721-765 | the edges between kept vertices are exactly the routes whose interior is all dropped; refuses tagged vertices if asked to |
| Dags.DAG.GetContext | src/e3/collection/dag.py:240-323 | for an untagged vertex exactly the tagged vertices reached through untagged ones, each once, with the minimal length, nearest first, cut at the limits |
| Dags.LevelDone | src/e3/collection/dag.py:303-318 | expanding only the new vertices of a level gives all of the next one |
| Dags.ContextCut | src/e3/collection/dag.py:303-306 | stopping at the maximal distance loses nothing within it |
| Dags.ContextFull | src/e3/collection/dag.py:311-315 | stopping at the maximal number of elements loses nothing nearer than the last one |
| Dags.ContextExhausted | src/e3/collection/dag.py:320-322 | stopping when the closure no longer grows loses nothing |
| Dags.ContextAfterPrune | src/e3/collection/dag.py:721-743 | what unlimited contexts list before and after pruning untagged vertices, in either direction: the same vertices and tags, none further away |
| Dags.DAGIterator.constructor | src/e3/collection/dag.py:30-48 | starts with every vertex unvisited and counters that count |
| Dags.DAGIterator.NextElement | src/e3/collection/dag.py:66-113 | gives an unvisited vertex all of whose predecessors are visited; says there is none exactly when all wait; raises only with a real shortest cycle |
| Dags.DAGIterator.NameCycle | src/e3/collection/dag.py:85-95 | a blocked plain iteration always finds a cycle to name, so the error for an unknown cause is never reached |
| Dags.DAGIterator.MarkVisited | src/e3/collection/dag.py:100-124 | counting a vertex off at its successors keeps every counter equal to the number of unvisited predecessors |
| Dags.DAGIterator.Leave | src/e3/collection/dag.py:115-124 | turns a busy vertex into a visited one and counts it off |
| Dags.IteratingAfterVisit | src/e3/collection/dag.py:100-124 | the bookkeeping stays right when a vertex is visited |
| Dags.BlockedIsCyclic | src/e3/collection/dag.py:81-95 | if all that is left waits and nothing is busy, one of the waiting vertices is on a cycle |
| JobLogs.DoneIsFinal | src/e3/job/scheduler.py:331-345 | a vertex that has ended stays ended |
| JobLogs.PredecessorsFirst | src/e3/job/scheduler.py:242-270 | when the provider is called for a vertex all its predecessors have ended for good |
| JobLogs.CallCounts | src/e3/job/scheduler.py:242-346 | the provider is called at most once per vertex; an ended job was started once more often than it was requeued, a skipped one never |
| JobLogs.PredecessorsCollected | src/e3/job/scheduler.py:242-270 | when the provider is called for a vertex, the last event about each predecessor is that its result was collected, and no later event is about it |
| JobLogs.PhaseByLastEvent | src/e3/job/scheduler.py:242-346 | where a vertex stands follows from the last event about it alone: running once started, ended once collected without a requeue or after a skip, waiting after being queued or requeued |
| JobLogs.ProvideOrderIsSound | src/e3/job/scheduler.py:242-270 | the vertices are provided without repetition, each after its predecessors |
| JobLogs.CompleteRunIsTopological | src/e3/job/scheduler.py:206-227 | a run that saw every vertex saw them in topological order, and there is none on a cyclic graph |
| JobLogs.CompleteRun | src/e3/job/scheduler.py:206-227 | in a finished run every vertex was provided once and started as often as it was requeued plus once, or skipped |
| Resources.SlotAvailable | src/e3/job/scheduler.py:277-285 | whenever the tokens allow a job there is a slot for it |
| Resources.TokensStart | src/e3/job/scheduler.py:279-285 | starting a job that fits keeps free and held tokens equal to the capacity, none negative |
| Resources.TokensEnd | src/e3/job/scheduler.py:331-345 | so does giving the tokens back |
| Resources.SlotsStart | src/e3/job/scheduler.py:279-285 | handing out a slot keeps free and held slots together all slots |
| Resources.SlotsEnd | src/e3/job/scheduler.py:331-345 | so does giving the slot back |
| Resources.SlotsUnique | src/e3/job/scheduler.py:95-104 | no two active jobs share a slot and none of theirs is free |
| Schedulers.Scheduler.constructor | src/e3/job/scheduler.py:37-104 | starts with one queue if none is given, empty queues, all tokens and the slots 0 to n-1 |
| Schedulers.Scheduler.InitState | src/e3/job/scheduler.py:164-185 | an idle scheduler with a new iterator satisfies the joint invariant; only jobs that are not skipped need to fit a queue |
| Schedulers.Scheduler.Push | src/e3/job/scheduler.py:229-240 | any job joins the queue it names with its priority and the next index, and the number of queued jobs stays the total length |
| Schedulers.Scheduler.Enqueue | src/e3/job/scheduler.py:242-270 | afterwards no unvisited vertex is ready, and "all queued" is set exactly if none is unvisited |
| Schedulers.Scheduler.Launch | src/e3/job/scheduler.py:272-285 | afterwards the head of each queue needs more tokens than are free, and every entry that left a queue has a higher priority than all that stay, or the same one and is older |
| Schedulers.Scheduler.LaunchQueue | src/e3/job/scheduler.py:272-285 | starts the jobs of one queue by falling priority, the older first among equals, each ahead of all that stay, until the queue is empty or the most urgent job left needs more tokens than are free; no other queue changes |
| Schedulers.Scheduler.StartHead | src/e3/job/scheduler.py:277-285 | starts one job with the last free slot and takes exactly its tokens; every job left in its queue has a lower priority, or the same one and a later index |
| Schedulers.Scheduler.Wait | src/e3/job/scheduler.py:287-346 | with an active job, exactly one stops being active, its slot and its tokens, and no others, are free again, and requeues left plus vertices unfinished drops by exactly one; without one nothing changes |
| Schedulers.Scheduler.Run | src/e3/job/scheduler.py:206-227 | on a valid DAG whose jobs fit their queues or are skipped the run ends with every vertex ended, all tokens and slots back and all queues empty; the maximum it records is the largest number of jobs that, by the log, ever ran at one time |
| Schedulers.Scheduler.Progress | src/e3/job/scheduler.py:206-227 | after each launch there is an active job or the run is finished, so there is no deadlock |
| Schedulers.Scheduler.BusyExactly | src/e3/job/scheduler.py:242-346 | the busy vertices are exactly those with one queued or active job, and their predecessors are visited |
| Schedulers.Scheduler.ResourcesShared | src/e3/job/scheduler.py:229-345 | at any time no queue is overdrawn and the active jobs have different slots |
| Schedulers.Scheduler.FinishedMeansAcyclic | src/e3/job/scheduler.py:206-227 | no state of a run on a cyclic graph is finished |
| Schedulers.PushKeeps | src/e3/job/scheduler.py:229-240 | queue counters and distinct uids survive a push |
| Schedulers.PopKeeps | src/e3/job/scheduler.py:279-281 | and a pop |
| Schedulers.PhasesSkip | src/e3/job/scheduler.py:263-266 | and when its job is skipped at once, whatever collect answers |
| Schedulers.PhasesFinish | src/e3/job/scheduler.py:335-345 | and when it ends |
| Walks.Walk.ShouldExecuteAction | src/e3/job/walk.py:158-194 | executes exactly when a fingerprint is missing, of the vertex or of a predecessor, or the predicted one differs from the previous one |
| Walks.StoreRemembers | src/e3/job/walk.py:121-156 | after any sequence of saves, loading gives what was saved last for this vertex, nothing if that was a deletion, and what was there before if nothing was saved for it |
| Walks.Walk.GetJob | src/e3/job/walk.py:244-317 | forces a failure exactly if the status of a predecessor is failure, not ready, forced failure or unknown; otherwise skips exactly if the previous fingerprint equals the prediction and every predecessor has one; forgets the saved fingerprint until the job has ended |
| Walks.Walk.Collect | src/e3/job/walk.py:319-364 | records the status; keeps and saves the collected fingerprint if it is success, skip or unchanged, and no fingerprint otherwise; requeues exactly an unskipped job that was not ready and asks for it |
| Walks.LookupsSucceed | src/e3/job/walk.py:273-313 | in every history the results and fingerprints of all predecessors are there when they are looked up |
| Walks.FailureOrigins | src/e3/job/walk.py:263-364 | in every history a vertex is force-failed exactly if the latest status of some ancestor is failure, not ready, forced failure or unknown, and its recorded sources are exactly the ancestors with such a status none of whose predecessors has one |
| Walks.SourcesAreOrigins | src/e3/job/walk.py:275-296 | what is collected from the failed predecessors is that set |
| Walks.FingerprintSafety | src/e3/job/walk.py:185-337 | after any part of a first run, a second run skips a vertex only if its latest result in the first was success, skip or unchanged with the fingerprint now predicted (or it was not reached and that fingerprint was saved before), and every predecessor has a fingerprint |
| Walks.HistoryKeeps | src/e3/job/walk.py:244-364 | failures are forced and traced in every history |
| Walks.HistoryKeepsResults | src/e3/job/walk.py:121-364 | statuses, fingerprints and saved fingerprints agree in every history with the latest results, and skips with what justifies them |
| Walks.ResultsRecorded | src/e3/job/walk.py:244-364 | in every history a vertex that was provided has the status of its latest result; a fingerprint is saved for it exactly if that result was success, skip or unchanged and came with one, and then it is that one |
| Walks.UnseenStaysSaved | src/e3/job/walk.py:244-364 | what was saved for a vertex that was not provided is left alone |
| Walks.SkippedIff | src/e3/job/walk.py:185-317 | in every history a job is skipped exactly if no ancestor has one of the four bad statuses, the fingerprint saved before the run equals the predicted one, and every predecessor has a fingerprint |
| Walks.NeverStarted | src/e3/job/walk.py:279-317 | a job that is skipped or forced to fail is never started |
| Walks.RequeuedIff | src/e3/job/walk.py:338-364 | a job that ended waits for another start exactly if it had been started, was not ready and asked for it |
| CommandLines.BuildCommandLine | tools/rlimit/rlimit-NT.c:162-250 | the buffer holds the command name and each argument's written form, terminated |
| CommandLines.AppendQuoted | tools/rlimit/rlimit-NT.c:191-241 | the quoting branch appends the quoted form of one argument |
| CommandLines.WriteRun | tools/rlimit/rlimit-NT.c:205-233 | the inner loops write as many backslashes as end at the given place of the argument |
| CommandLines.CheckQuote | tools/rlimit/rlimit-NT.c:175-186 | an argument is quoted exactly if it is empty or has a blank or a double quote |
| CommandLines.SplitTail | tools/rlimit/rlimit-NT.c:162-250 | what the started program gets, for any arguments: quoted ones whole, others cut at tabs |
| CommandLines.RoundTrip | tools/rlimit/rlimit-NT.c:162-250 | splitting gives back exactly the arguments if and only if every argument with a tab also has a blank or a double quote |
| CommandLines.TabSplitsArgument | tools/rlimit/rlimit-NT.c:175-186 | one argument with a tab arrives as two |
| CommandLines.ScanBody | tools/rlimit/rlimit-NT.c:191-241 | scanning a quoted argument gives the argument back, whatever backslashes and quotes it has |
| CommandLines.PieceSize | tools/rlimit/rlimit-NT.c:191-250 | an argument of length n takes at most 2n + 3 characters |
| SyncTrees.RunInvariant | src/e3/fs.py:1443-1616 | the invariant of the two threads holds in every state of every interleaving |
| SyncTrees.SyncResult | src/e3/fs.py:828-1616 | every interleaving that ends leaves exactly the source's paths; two files, or two links, end as the source's if the target's is outdated and as the target's if not; two directories stay; what is missing or of another kind in the target ends as the source's |
| SyncTrees.SyncIsRaceFree | src/e3/fs.py:1443-1616 | every operation meets the target as the walk saw it, and nothing below a directory is queued or changed before the directory is listed |
| SyncTrees.OperationMeetsExpectation | src/e3/fs.py:1315-1441 | a copy or mkdir finds the target's entry unchanged and its parent directory there |
| SyncTrees.ListedBeforeTouched | src/e3/fs.py:1443-1532 | a directory that is about to be listed has not been changed below |
| SyncTrees.SyncNeverStuck | src/e3/fs.py:1568-1616 | until both threads are done one of them can go on |
| SyncTrees.StepWorks | src/e3/fs.py:1443-1616 | every step of either thread leaves fewer entries, listings and operations to do |
| SyncTrees.SyncEnds | src/e3/fs.py:1443-1616 | no interleaving takes more than three steps per path |
| Schedules.TriggeredMeans | src/e3/anod/action/__init__.py:495-505 | triggers imply one choice if they agree with each other and the previous one, "both" otherwise, in any order |
| Schedules.ApplyTriggersMeans | src/e3/anod/action/__init__.py:495-505 | applying triggers changes only what is expected, to what the previous expectation and the triggers whose action is scheduled imply |
| Schedules.GetDecisionMeans | src/e3/anod/action/__init__.py:507-530 | a decision falls on the side it chose unless something else is expected, and is open otherwise |
| Schedules.Connect | src/e3/anod/context.py:1113-1122 | adds an action and makes it a predecessor of each scheduled successor |
| Schedules.VisitAction | src/e3/anod/context.py:1050-1122 | an ordinary action is scheduled as its users, or the sides, choice and expectation of its decision, demand; scheduling stops exactly if the resolver refuses |
| Schedules.VisitAll | src/e3/anod/context.py:1031-1122 | after the loop every action is scheduled exactly if it is wanted; it stops early at the first action about which the resolver refuses while the initiator is among the actions really scheduled so far |
| Schedules.UploadStep | src/e3/anod/context.py:1124-1142 | considering one upload keeps exactly the uploads whose predecessors are all there |
| Schedules.FaithfulStep | src/e3/anod/context.py:1031-1122 | data come from the tree, each decision has seen exactly the actions scheduled before it, and no refusal is passed over |
| Schedules.ResultAcyclic | src/e3/anod/context.py:1028-1031 | every edge follows the tree, so the result has no cycle although nothing checks it |
| Schedules.Schedule | src/e3/anod/context.py:1015-1144 | the result is acyclic; an action is in it exactly if it is the root, the chosen side of a decision for a scheduled initiator, or used by a scheduled action; it keeps its predecessors and leads to the root; uploads are there exactly if all they need is; an error is a cycle or the first refusal |
| Schedules.ChoiceFollowed | src/e3/anod/context.py:1063-1112 | in any such result, for a decision whose initiator is scheduled: a plan that chose left, with nothing else expected, has the left branch and not the right one, and the other way round; without a usable choice a branch is there exactly if the resolver says yes; a branch that is there is a predecessor of the initiator |
| SourceClosures.SourceClosure.ComputeClosure | src/e3/anod/queries.py:123-157 | terminates on an acyclic dependency relation, with exactly the sources and packages at the ends of dependency trails as keys; a trail follows build, install and download dependencies, and goes on at the build of an installation that is expanded or has no component |
| SourceClosures.SourceClosure.DirectDependency | src/e3/anod/queries.py:130-157 | what one build, install or download dependency of the root contributes: the sources of the build behind an installation that is expanded or has no component, otherwise the package of the installation, otherwise the target's own sources; publishable only when tracked |
| SourceClosures.SourceClosure.OwnSourcesOnly | src/e3/anod/queries.py:130-157 | a root that depends on sources alone has no package and exactly its own sources |
| SourceClosures.SourceFoundStep | src/e3/anod/queries.py:136-157 | a closure's sources are its own and those of what it follows, untracked behind an untracked dependency |
| SourceClosures.InstallFound | src/e3/anod/queries.py:130-134 | an installation is one package and leads nowhere |
| SourceClosures.SourceClosure.ResolveSource | src/e3/anod/queries.py:172-184 | sets the data of exactly the sources with this name |
| SourceClosures.SourceClosure.ResolvePackage | src/e3/anod/queries.py:159-170 | sets the data of exactly the packages with this uid |
| SourceClosures.SourceClosure.GetSourceList | src/e3/anod/queries.py:186-223 | fails exactly if a resolution is missing; an entry is published exactly if an all-tracked trail leads to a publishable source resolved to it or to a package that lists it as published; a package wins over the sources with the same data key, and in its list the last entry wins |
| SourceClosures.SourceClosure.PublishedByTrails | src/e3/anod/queries.py:186-223 | the keys with a publish mark are the ends of tracked trails |
| Tries.Trie.constructor | src/e3/collection/trie.py:28-48 | the trie holds exactly the words of the list |
| Tries.Trie.Add | src/e3/collection/trie.py:50-63 | one word more, in a tree of dictionaries that stays a tree |
| Tries.Trie.Contains | src/e3/collection/trie.py:65-79 | membership |
| Tries.Trie.Match | src/e3/collection/trie.py:88-113 | holds exactly if an added word equals the input, or is a prefix (suffix) of it and there is no delimiter or the next (previous) character is one |
| Tries.MatchedAsPrefix | src/e3/collection/trie.py:88-113 | matching suffixes is matching prefixes of reversed words |
| Patches.ProcessRegularPatch | src/e3/diff.py:193-266 | writes the filtered patch and counts exactly the headers that are kept |
| Patches.Format.Idempotent | src/e3/diff.py:193-266 | filtering what was filtered changes nothing |
| Patches.Format.FilteredHeaders | src/e3/diff.py:193-266 | the filtered patch, read again, has exactly the headers the filter saw that name no discarded file, in order |
| Patches.Format.UnchangedIff | src/e3/diff.py:193-266 | a patch is unchanged exactly if no header that the filter sees names a discarded file |
| Patches.FilteredByDeciders | src/e3/diff.py:193-266 | a line stays exactly if the header that decides about it names no discarded file |
| Patches.DeciderIsLastSeen | src/e3/diff.py:193-266 | that is the last header up to the line at which the filter begins to look for one |
| Patches.DecidesIff | src/e3/diff.py:219-260 | two lines that match as a header decide exactly if the filter begins to look for a header there |
| Patches.StartsIff | src/e3/diff.py:219-260 | and it does unless the line before is held back as a possible first line, or the two lines before are a header that takes this line for the one after it |
| Patches.HeadersDecideIff | src/e3/diff.py:193-266 | every line is decided by the last header before it if and only if the filter begins to look for one at each of them |
| Patches.MissedHeader | src/e3/diff.py:237-245 | a header right after a line that only looks like the first of one is missed, and a discarded file is kept |

## Left out

- Threads, locks, clocks, timeouts, interrupts, the `KeyboardInterrupt` path of `run` and the processes behind jobs: an active job ends by one message, at any time, in any order.
- `heapq` and `Queue`: a queue of jobs is a set from which the least element by priority and index is taken.
- A job's `tokens`, `queue_name`, `priority` and `uid` are constants of the job, its slot is kept beside it, and `requeuesLeft` stands for the assumption that requests to requeue are finitely many.
- Graphs with missing predecessors in `DAGIterator`, `get_successors`, `shortest_path` and `prune`: the code looks the missing vertex up and raises `KeyError`; the model requires that every predecessor is a vertex. `check`, `update_vertex`, `get_closure`, `get_context`, `reverse_graph` and `|` are modelled without that requirement.
- `shortest_path` from a source that is no vertex: the code raises `KeyError`; the model requires a vertex unless source and target are equal.
- Aliasing of the tags dictionary: `reverse_graph` and `schedule` share it with the original graph; the model copies it, so later changes of tags through one graph do not show in the other.
- The order in which sets and dictionaries are iterated: the model allows any order, so `get_context` entries of equal distance come in any order.
- The tree's `Decision` objects are values in a map that `schedule` returns, not objects shared with the tree; the other fields of the subclasses of `Action` are not part of this model.
- `add_decision` and the rest of the code that builds the tree: what the scheduling loop needs of it (an initiator that is an ordinary action and has its decision as a predecessor) is a requirement of `Schedule`.
- The list of initiators in a `SchedulingError`, and the messages and log output everywhere.
- `Walk.save_fingerprint` and `load_previous_fingerprint` do nothing in the source; the model is a subclass that follows the protocol their documentation describes.
- Walk: subclasses that override `create_skipped_job`, `collect` or the dry run; computing a fingerprint is an arbitrary answer.
- Command lines: the splitting of the program's own name, which follows other rules, and arguments that do not fit the buffer, which the code does not check.
- Tree synchronisation: failing operations, ignore and file lists, `delete=False`, case-insensitive names, permissions and timestamps; a copy, mkdir or removal is one step, and which files count as different is an arbitrary relation on nodes.
- SourceClosures.SourceClosure.GetSourceList: the order of the returned list is not modelled, and where two sources, or two packages, are resolved to different data with the same data key, which of them is listed is not stated: it depends on the order of a dictionary.
- `get_build_node` and `get_source_builder`, which only look things up; the former is an arbitrary partial function of the context.
- Patches: the regular expressions that recognise headers and the rule that says which file names are discarded are arbitrary functions; `process_git_patch` is simpler than the filter modelled here.
- `as_dot`, `as_tree`, `__str__` and everything outside the files named above.
