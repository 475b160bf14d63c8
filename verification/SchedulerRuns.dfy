// What every run of the DAG scheduler keeps, and where every run ends.
module SchedulerRuns {
  import AgentPool
  import opened Basics
  import opened Plans
  import opened Graphs
  import opened Dependency
  import opened FileLocks
  import opened Scheduler

  // ---------- safety over whole runs ----------

  // Two agents running at once never share an involved file.
  lemma FileExclusion(plan: seq<Subtask>, setting: Setting, run: seq<Event>, a: AgentId, b: AgentId)
    requires Feasible(JobFor(plan, setting), run)
    requires var s := After(JobFor(plan, setting), run); a in s.running && b in s.running && a != b
    ensures var job, s := JobFor(plan, setting), After(JobFor(plan, setting), run);
      forall f :: f in FilesOf(job, s.running[a]) ==> f !in FilesOf(job, s.running[b])
  {
    ReachableSound(plan, setting, run);
    var job, s := JobFor(plan, setting), After(JobFor(plan, setting), run);
    assert HoldsAll(job, s.locks, s.running[a]) && HoldsAll(job, s.locks, s.running[b]);
    assert s.running[a] != s.running[b];
  }

  // Event `j` ends an agent of the subtask.
  ghost predicate EndsAgentOf(job: Job, run: seq<Event>, j: nat, id: Id)
    requires j < |run|
  {
    && run[j].Finish? && Feasible(job, run[..j])
    && var running := After(job, run[..j]).running;
       run[j].agent in running && running[run[j].agent] == id
  }

  // Event `k` started the subtask or was its refusal, and none of its agents has ended since.
  ghost predicate ClaimsFrom(job: Job, run: seq<Event>, k: nat, id: Id)
    requires k < |run|
  {
    !run[k].Finish? && run[k].id == id && forall j :: k < j < |run| ==> !EndsAgentOf(job, run, j, id)
  }

  ghost predicate Claims(job: Job, run: seq<Event>, id: Id) {
    exists k :: 0 <= k < |run| && ClaimsFrom(job, run, k, id)
  }

  lemma ClaimsNext(job: Job, run: seq<Event>, id: Id)
    requires Feasible(job, run) && run != []
    ensures var before, e := run[..|run| - 1], run[|run| - 1];
      Claims(job, run, id) <==>
        if e.Finish? then Claims(job, before, id) && After(job, before).running[e.agent] != id
        else e.id == id || Claims(job, before, id)
  {
    var before, e := run[..|run| - 1], run[|run| - 1];
    var last := |before|;
    assert EndsAgentOf(job, run, last, id) <==> e.Finish? && After(job, before).running[e.agent] == id;
    hide Feasible, After, Startable;
    forall j | 0 <= j < last ensures EndsAgentOf(job, run, j, id) <==> EndsAgentOf(job, before, j, id) {
      assert run[..j] == before[..j];
    }
    if k :| 0 <= k < last && ClaimsFrom(job, before, k, id) {
      assert EndsAgentOf(job, run, last, id) || ClaimsFrom(job, run, k, id);
    }
    if k :| 0 <= k < |run| && ClaimsFrom(job, run, k, id) {
      assert k < last ==> ClaimsFrom(job, before, k, id);
    }
    assert !e.Finish? && e.id == id ==> ClaimsFrom(job, run, last, id);
  }

  // A file is locked for a subtask exactly if the subtask involves it, was started or
  // refused, and has had no agent end since: a refusal keeps the locks, an end frees them.
  lemma {:induction false} LockedExactlyWhen(job: Job, run: seq<Event>, f: File, id: Id)
    requires Feasible(job, run)
    ensures var locks := After(job, run).locks;
      f in locks && locks[f] == id <==> f in FilesOf(job, id) && Claims(job, run, id)
  {
    if run != [] {
      var before, e := run[..|run| - 1], run[|run| - 1];
      LockedExactlyWhen(job, before, f, id);
      ClaimsNext(job, run, id);
      hide Claims, FilesOf, SetStatus, Settle;
    }
  }

  // As long as a refused subtask has had no agent end, no other that shares a file can start.
  lemma RefusedExcludes(job: Job, run: seq<Event>, k: nat, other: Id, f: File)
    requires Feasible(job, run) && k < |run| && run[k].Refuse? && ClaimsFrom(job, run, k, run[k].id)
    requires other != run[k].id && f in FilesOf(job, other) && f in FilesOf(job, run[k].id)
    ensures !Startable(job, After(job, run), other)
  {
    LockedExactlyWhen(job, run, f, run[k].id);
  }

  // Completed, failed and skipped are never undone.
  lemma {:induction false} TerminalIsFinal(plan: seq<Subtask>, setting: Setting, run: seq<Event>, k: nat, id: Id)
    requires Feasible(JobFor(plan, setting), run) && k <= |run|
    ensures Feasible(JobFor(plan, setting), run[..k])
    ensures var s := After(JobFor(plan, setting), run[..k]);
      StatusOf(s.status, id) in {Completed, Failed, Skipped} ==>
        StatusOf(After(JobFor(plan, setting), run).status, id) == StatusOf(s.status, id)
  {
    PrefixFeasible(JobFor(plan, setting), run, k);
    if k == |run| {
      assert run[..k] == run;
    } else {
      var before, e := run[..|run| - 1], run[|run| - 1];
      assert before[..k] == run[..k];
      TerminalIsFinal(plan, setting, before, k, id);
      ReachableSound(plan, setting, before);
      StepKeepsTerminal(JobFor(plan, setting), After(JobFor(plan, setting), before), e, id);
    }
  }

  lemma StepKeepsTerminal(job: Job, s: State, e: Event, id: Id)
    requires Inv(job, s) && Enabled(job, s, e)
    ensures StatusOf(s.status, id) in {Completed, Failed, Skipped} ==>
              StatusOf(Next(job, s, e).status, id) == StatusOf(s.status, id)
  {
    if !e.Refuse? {
      var x := StepMoves(job, s, e);
    }
  }

  // ---------- where runs end ----------

  ghost predicate Settled(st: Statuses) {
    forall id :: !Live(st, id)
  }

  // The loop's two normal exits: nothing runs, and nothing is ready.
  ghost predicate Stopped(job: Job, s: State) {
    s.running == map[] && forall id :: !Ready(job.graph, s.status, id)
  }

  lemma SettledStops(job: Job, s: State)
    requires RunningSound(job, s) && Settled(s.status)
    ensures Stopped(job, s)
  {
    forall a ensures a !in s.running {
      assert a in s.running ==> Live(s.status, s.running[a]);
    }
    assert s.running.Keys == {};
    forall id ensures !Ready(job.graph, s.status, id) {
      assert !Live(s.status, id);
    }
  }

  // What a subtask ends in, given what its dependencies end in.
  ghost function Concluded(job: Job, st: Statuses, id: Id): Status {
    var was := StatusOf(Initial(job), id);
    if !Live(Initial(job), id) then was
    else if LosesDependency(job.graph, Initial(job), st, id) then Skipped
    else if was == Pending && DepsCompleted(job.graph, st, id) then Verdict(job, id)
    else was
  }

  // The statuses agree with each other, the plan and the outcomes.  No run is mentioned.
  ghost predicate Concludes(job: Job, st: Statuses) {
    st.Keys == job.graph.Keys && forall id :: id in st ==> st[id] == Concluded(job, st, id)
  }

  lemma StoppedConcludes(job: Job, s: State)
    requires Inv(job, s) && Stopped(job, s)
    ensures Concludes(job, s.status)
  {
    forall id | id in s.status ensures s.status[id] == Concluded(job, s.status, id) {
      assert Developed(job, Initial(job), s.status, id);
      assert !Ready(job.graph, s.status, id) && !HasAgent(s.running, id);
    }
  }

  // Along a dependency order each status is determined by those before it.
  lemma {:induction false} ConclusionUpTo(job: Job, other: Job, st: Statuses, st': Statuses, order: seq<Id>, k: nat)
    requires SameOutcomes(job, other) && Concludes(job, st) && Concludes(other, st')
    requires DependenciesFirst(job.graph, order) && k <= |order|
    ensures forall j :: 0 <= j < k ==> StatusOf(st, order[j]) == StatusOf(st', order[j])
  {
    hide Initial, Concluded;
    if k > 0 {
      ConclusionUpTo(job, other, st, st', order, k - 1);
      var id := order[k - 1];
      forall dep | Edge(job.graph, id, dep) ensures StatusOf(st, dep) == StatusOf(st', dep) {
        var j :| 0 <= j < k - 1 && order[..k - 1][j] == dep;
      }
      ConcludedSame(job, other, st, st', id);
    }
  }

  lemma ConcludedSame(job: Job, other: Job, st: Statuses, st': Statuses, id: Id)
    requires SameOutcomes(job, other)
    requires forall dep :: Edge(job.graph, id, dep) ==> StatusOf(st, dep) == StatusOf(st', dep)
    ensures Concluded(job, st, id) == Concluded(other, st', id)
  {
    assert Initial(job) == Initial(other);
    hide Initial;
    assert LosesDependency(job.graph, Initial(job), st, id) <==> LosesDependency(job.graph, Initial(job), st', id);
    assert DepsCompleted(job.graph, st, id) <==> DepsCompleted(job.graph, st', id) by {
      assert forall dep :: dep in DepsOf(job.graph, id) ==> Edge(job.graph, id, dep);
    }
  }

  // The same plan and the same outcomes, whatever the pools.
  predicate SameOutcomes(job: Job, other: Job) {
    && job.plan == other.plan && job.nodes == other.nodes && job.graph == other.graph
    && job.setting.wins == other.setting.wins
  }

  // An acyclic plan and the outcomes leave only one way to end.
  lemma ConclusionUnique(job: Job, other: Job, st: Statuses, st': Statuses)
    requires SameOutcomes(job, other) && !HasCycle(job.graph) && Concludes(job, st) && Concludes(other, st')
    ensures st == st'
  {
    var order := AcyclicOrder(job.graph);
    ConclusionUpTo(job, other, st, st', order, |order|);
    forall id | id in st ensures st[id] == st'[id] {
      var k :| 0 <= k < |order| && order[k] == id;
      assert StatusOf(st, order[k]) == StatusOf(st', order[k]);
    }
  }

  // Where every run ends that stops.
  ghost predicate Ended(job: Job, s: State) {
    && Concludes(job, s.status)
    && s.running == map[]
    && s.locks == map[]
    && PlanSound(job, s)
  }

  // A run that stops has concluded, with no agent running and no lock held, and the
  // plan's status column shows all but the skips.
  lemma RunOutcome(plan: seq<Subtask>, setting: Setting, run: seq<Event>)
    requires Feasible(JobFor(plan, setting), run)
    requires Stopped(JobFor(plan, setting), After(JobFor(plan, setting), run))
    ensures Ended(JobFor(plan, setting), After(JobFor(plan, setting), run))
  {
    var job, s := JobFor(plan, setting), After(JobFor(plan, setting), run);
    ReachableSound(plan, setting, run);
    StoppedConcludes(job, s);
    forall f ensures f !in s.locks {
      assert f in s.locks ==> MayHold(job, s, s.locks[f]);
    }
    assert s.locks.Keys == {};
  }

  // Ready order, pool, refusals, lock conflicts and completion order do not matter.
  lemma ScheduleIndependence(plan: seq<Subtask>, setting: Setting, run: seq<Event>,
                             setting': Setting, run': seq<Event>)
    requires !HasCycle(EdgesOf(plan)) && setting.wins == setting'.wins
    requires Feasible(JobFor(plan, setting), run) && Stopped(JobFor(plan, setting), After(JobFor(plan, setting), run))
    requires Feasible(JobFor(plan, setting'), run') && Stopped(JobFor(plan, setting'), After(JobFor(plan, setting'), run'))
    ensures After(JobFor(plan, setting), run).status == After(JobFor(plan, setting'), run').status
    ensures UniqueIds(plan) ==> After(JobFor(plan, setting), run) == After(JobFor(plan, setting'), run')
  {
    hide Concludes, Feasible, After, HasCycle, NodesOf;
    var s, t := After(JobFor(plan, setting), run), After(JobFor(plan, setting'), run');
    RunOutcome(plan, setting, run);
    RunOutcome(plan, setting', run');
    ConclusionUnique(JobFor(plan, setting), JobFor(plan, setting'), s.status, t.status);
    if UniqueIds(plan) {
      assert s.subtasks == t.subtasks;
    }
  }

  // ---------- fresh plans ----------

  ghost predicate Fresh(plan: seq<Subtask>) {
    && ValidSubtasks(plan)
    && forall st :: st in plan ==> st.status == Unset || st.status == Pending
  }

  // The subtask and everything it depends on, transitively, succeed.
  ghost predicate AllWin(job: Job, id: Id) {
    forall x :: Reaches(job.graph, id, x) ==> x in job.setting.wins
  }

  // The status a subtask of a fresh plan ends in, told from the plan and the outcomes alone.
  ghost function FinalStatus(job: Job, id: Id): Status {
    if AllWin(job, id) then Completed
    else if id !in job.setting.wins && forall dep :: Edge(job.graph, id, dep) ==> AllWin(job, dep) then Failed
    else Skipped
  }

  lemma AllWinStep(job: Job, id: Id)
    ensures AllWin(job, id) <==>
            id in job.setting.wins && forall dep :: Edge(job.graph, id, dep) ==> AllWin(job, dep)
  {
    ReachesSelf(job.graph, id);
    forall dep, x | Edge(job.graph, id, dep) && Reaches(job.graph, dep, x) ensures Reaches(job.graph, id, x) {
      ReachesStep(job.graph, id, dep, x);
    }
    forall x | Reaches(job.graph, id, x) && x != id
      ensures exists dep :: Edge(job.graph, id, dep) && Reaches(job.graph, dep, x)
    {
      var p :| PathFrom(job.graph, p, id, x);
      PathSuffix(job.graph, p, 1);
      assert Edge(job.graph, p[0], p[1]) && PathFrom(job.graph, p[1..], p[1], x);
    }
  }

  ghost function FinalStatuses(job: Job): Statuses {
    map id | id in job.graph :: FinalStatus(job, id)
  }

  // What matters of a fresh plan.
  ghost predicate AllPending(job: Job) {
    Closed(job.graph) && forall id :: id in job.graph ==> StatusOf(Initial(job), id) == Pending
  }

  lemma FreshIsPending(plan: seq<Subtask>, setting: Setting)
    requires Fresh(plan)
    ensures AllPending(JobFor(plan, setting))
  {
    ValidPlanCloses(plan);
    forall id | id in EdgesOf(plan) ensures StatusOf(StatusesOf(plan), id) == Pending {
      assert NodesOf(plan)[id] in plan;
    }
  }

  lemma FinalConcludes(job: Job, id: Id)
    requires AllPending(job) && id in job.graph
    ensures FinalStatus(job, id) == Concluded(job, FinalStatuses(job), id)
  {
    hide Initial, AllWin;
    var st := FinalStatuses(job);
    AllWinStep(job, id);
    forall dep | Edge(job.graph, id, dep) ensures dep in job.graph && StatusOf(st, dep) == FinalStatus(job, dep) {
    }
    if dep :| Edge(job.graph, id, dep) && !AllWin(job, dep) {
      assert StatusOf(st, dep) in {Failed, Skipped} && Live(Initial(job), dep);
    } else {
      assert DepsCompleted(job.graph, st, id) by {
        forall dep | dep in DepsOf(job.graph, id) ensures StatusOf(st, dep) == Completed {
          assert Edge(job.graph, id, dep);
        }
      }
    }
  }

  // For a fresh plan the one conclusion is: completed iff the subtask and all it depends on
  // succeed, failed iff it alone fails after its dependencies completed, skipped otherwise.
  lemma FreshConclusion(plan: seq<Subtask>, setting: Setting)
    requires Fresh(plan)
    ensures Concludes(JobFor(plan, setting), FinalStatuses(JobFor(plan, setting)))
  {
    hide Initial, FinalStatus, Concluded, Fresh;
    var job := JobFor(plan, setting);
    FreshIsPending(plan, setting);
    forall id | id in job.graph ensures FinalStatuses(job)[id] == Concluded(job, FinalStatuses(job), id) {
      FinalConcludes(job, id);
    }
  }

  lemma FinalSettles(job: Job)
    ensures Settled(FinalStatuses(job))
  {
    hide AllWin;
  }

  lemma FreshOutcome(plan: seq<Subtask>, setting: Setting, run: seq<Event>)
    requires Fresh(plan) && !HasCycle(EdgesOf(plan))
    requires Feasible(JobFor(plan, setting), run) && Stopped(JobFor(plan, setting), After(JobFor(plan, setting), run))
    ensures After(JobFor(plan, setting), run).status == FinalStatuses(JobFor(plan, setting))
    ensures Settled(After(JobFor(plan, setting), run).status)
  {
    hide Concludes, FinalStatuses, Fresh, PlanSound, Settled;
    var job := JobFor(plan, setting);
    RunOutcome(plan, setting, run);
    FreshConclusion(plan, setting);
    ConclusionUnique(job, job, After(job, run).status, FinalStatuses(job));
    FinalSettles(job);
  }

  // In a reachable state of a fresh plan: what started has its dependencies completed, what
  // is pending has lost none, what is skipped has lost one, and outcomes are told truly.
  ghost predicate FreshSound(job: Job, st: Statuses) {
    && (forall id :: StatusOf(st, id) in {Running, Completed, Failed} ==> DepsCompleted(job.graph, st, id))
    && (forall id :: StatusOf(st, id) == Completed ==> id in job.setting.wins)
    && (forall id :: StatusOf(st, id) == Failed ==> id !in job.setting.wins)
    && (forall id :: StatusOf(st, id) == Skipped <==> id in st && !(Live(st, id) || DepsCompleted(job.graph, st, id)))
    && (forall id, dep :: StatusOf(st, id) == Pending && Edge(job.graph, id, dep) ==>
          StatusOf(st, dep) !in {Failed, Skipped})
  }

  lemma PendingSound(job: Job, st: Statuses)
    requires AllPending(job) && StatusesSound(job, st)
    ensures FreshSound(job, st)
  {
    hide Initial;
    forall id, dep | Edge(job.graph, id, dep) ensures Live(Initial(job), dep) {
      assert dep in job.graph;
    }
    forall id
      ensures StatusOf(st, id) in {Running, Completed, Failed} ==>
                DepsCompleted(job.graph, st, id) && (StatusOf(st, id) == Running || StatusOf(st, id) == Verdict(job, id))
      ensures StatusOf(st, id) == Skipped ==> LosesDependency(job.graph, Initial(job), st, id)
      ensures StatusOf(st, id) == Unset <==> id !in st
    {
      assert Developed(job, Initial(job), st, id);
      assert id in job.graph || StatusOf(Initial(job), id) == Unset;
    }
    forall id, dep | StatusOf(st, id) == Pending && Edge(job.graph, id, dep)
      ensures StatusOf(st, dep) !in {Failed, Skipped}
    {
      assert Live(st, id) && !LosesDependency(job.graph, Initial(job), st, id);
    }
  }

  lemma FreshReachable(plan: seq<Subtask>, setting: Setting, run: seq<Event>)
    requires Fresh(plan) && Feasible(JobFor(plan, setting), run)
    ensures FreshSound(JobFor(plan, setting), After(JobFor(plan, setting), run).status)
  {
    hide Fresh, AllPending, StatusesSound, FreshSound, RunningSound, LocksSound, PlanSound, After;
    ReachableSound(plan, setting, run);
    FreshIsPending(plan, setting);
    PendingSound(JobFor(plan, setting), After(JobFor(plan, setting), run).status);
  }

  // ---------- stored plans ----------

  // Nothing is shown as running, and pending subtasks wait for pending or completed ones only.
  predicate Resumable(plan: seq<Subtask>) {
    ResumableFrom(EdgesOf(plan), StatusesOf(plan))
  }

  predicate ResumableFrom(g: Deps, st: Statuses) {
    forall id :: id in st ==>
      && st[id] != Running
      && (st[id] == Pending ==> forall dep :: dep in DepsOf(g, id) ==> StatusOf(st, dep) in {Pending, Completed})
  }

  lemma FreshIsResumable(plan: seq<Subtask>, setting: Setting)
    requires Fresh(plan)
    ensures Resumable(plan)
  {
    FreshIsPending(plan, setting);
    var job := JobFor(plan, setting);
    hide StatusesIn, Fresh;
    forall id, dep | dep in DepsOf(job.graph, id) ensures StatusOf(Initial(job), dep) == Pending {
      assert dep in job.graph;
    }
  }

  lemma ResumableStep(job: Job, st: Statuses, id: Id)
    requires ResumableFrom(job.graph, Initial(job)) && Initial(job).Keys == job.graph.Keys && Concludes(job, st)
    requires forall dep :: Edge(job.graph, id, dep) ==> !Live(st, dep)
    ensures !Live(st, id)
  {
    hide Initial;
    if id in st && Initial(job)[id] == Pending && !LosesDependency(job.graph, Initial(job), st, id) {
      assert DepsCompleted(job.graph, st, id) by {
        forall dep | dep in DepsOf(job.graph, id) ensures StatusOf(st, dep) == Completed {
          assert Edge(job.graph, id, dep) && dep in Initial(job) && dep in st;
          assert st[dep] == Concluded(job, st, dep);
        }
      }
    }
  }

  lemma {:induction false} ResumableConclusion(job: Job, st: Statuses, order: seq<Id>, k: nat)
    requires ResumableFrom(job.graph, Initial(job)) && Initial(job).Keys == job.graph.Keys && Concludes(job, st)
    requires DependenciesFirst(job.graph, order) && k <= |order|
    ensures forall j :: 0 <= j < k ==> !Live(st, order[j])
  {
    hide Initial, ResumableFrom, Concludes;
    if k > 0 {
      ResumableConclusion(job, st, order, k - 1);
      forall dep | Edge(job.graph, order[k - 1], dep) ensures !Live(st, dep) {
        var j :| 0 <= j < k - 1 && order[..k - 1][j] == dep;
      }
      ResumableStep(job, st, order[k - 1]);
    }
  }

  // A resumable plan always ends with everything settled.
  lemma ResumableSettles(plan: seq<Subtask>, setting: Setting, run: seq<Event>)
    requires Resumable(plan) && !HasCycle(EdgesOf(plan))
    requires Feasible(JobFor(plan, setting), run) && Stopped(JobFor(plan, setting), After(JobFor(plan, setting), run))
    ensures Settled(After(JobFor(plan, setting), run).status)
  {
    var st := After(JobFor(plan, setting), run).status;
    RunOutcome(plan, setting, run);
    var order := AcyclicOrder(EdgesOf(plan));
    ResumableConclusion(JobFor(plan, setting), st, order, |order|);
    forall id ensures !Live(st, id) {
      if id in st {
        var k :| 0 <= k < |order| && order[k] == id;
      }
    }
  }

  // When every agent succeeds nothing is lost, so what was not resumable stays unfinished.
  lemma WinnersLoseNothing(job: Job, st: Statuses, order: seq<Id>, k: nat)
    requires Concludes(job, st) && job.graph.Keys <= job.setting.wins
    requires DependenciesFirst(job.graph, order) && k <= |order|
    ensures forall j :: 0 <= j < k && Live(Initial(job), order[j]) ==> StatusOf(st, order[j]) !in {Failed, Skipped}
  {
    if k > 0 {
      WinnersLoseNothing(job, st, order, k - 1);
      var id := order[k - 1];
      forall dep | Edge(job.graph, id, dep) && Live(Initial(job), dep) ensures StatusOf(st, dep) !in {Failed, Skipped} {
        var j :| 0 <= j < k - 1 && order[..k - 1][j] == dep;
      }
      assert !LosesDependency(job.graph, Initial(job), st, id);
    }
  }

  lemma UnresumableStays(job: Job, st: Statuses)
    requires !ResumableFrom(job.graph, Initial(job)) && !HasCycle(job.graph) && job.graph.Keys <= job.setting.wins
    requires Initial(job).Keys == job.graph.Keys && Concludes(job, st)
    ensures !Settled(st)
  {
    hide Initial, HasCycle;
    var order := AcyclicOrder(job.graph);
    WinnersLoseNothing(job, st, order, |order|);
    forall id | Live(Initial(job), id) ensures StatusOf(st, id) !in {Failed, Skipped} {
      var j :| 0 <= j < |order| && order[j] == id;
    }
    var st0 := Initial(job);
    var id :| id in st0 && !(st0[id] != Running &&
      (st0[id] == Pending ==> forall dep :: dep in DepsOf(job.graph, id) ==> StatusOf(st0, dep) in {Pending, Completed}));
    if st0[id] == Pending {
      StaysPending(job, st, id);
    }
    assert Live(st, id);
  }

  lemma StaysPending(job: Job, st: Statuses, id: Id)
    requires Concludes(job, st) && id in st && StatusOf(Initial(job), id) == Pending
    requires Initial(job).Keys == job.graph.Keys
    requires exists dep :: dep in DepsOf(job.graph, id) && StatusOf(Initial(job), dep) !in {Pending, Completed}
    requires !LosesDependency(job.graph, Initial(job), st, id)
    ensures st[id] == Pending
  {
    hide Initial;
    var dep :| dep in DepsOf(job.graph, id) && StatusOf(Initial(job), dep) !in {Pending, Completed};
    assert StatusOf(st, dep) != Completed;
  }

  // One subtask spawned and finished while nothing else goes on.
  lemma RunOne(plan: seq<Subtask>, setting: Setting, before: seq<Event>, id: Id) returns (run: seq<Event>)
    requires Feasible(JobFor(plan, setting), before)
    requires var s := After(JobFor(plan, setting), before); s.running == map[] && s.locks == map[]
    requires Ready(EdgesOf(plan), After(JobFor(plan, setting), before).status, id)
    requires setting.limits.maxAgents >= 1
    ensures Feasible(JobFor(plan, setting), run)
    ensures var t := After(JobFor(plan, setting), run);
      && t.running == map[] && t.locks == map[]
      && |LiveIds(t.status)| < |LiveIds(After(JobFor(plan, setting), before).status)|
  {
    hide Feasible, After, LiveIds, Settle, SetStatus, PlanSound, LocksSound, Developed, Unblocked;
    var job := JobFor(plan, setting);
    var s := After(job, before);
    ReachableSound(plan, setting, before);
    assert id in job.graph && id in job.nodes;
    assert Admitted(job, s.running, map[]) by {
      assert AgentPool.OfTask(map[], setting.task) == {};
    }
    var spawn := Spawn(id, 0, map[]);
    ExtendRun(job, before, spawn);
    run := before + [spawn];
    ReachableSound(plan, setting, run);
    ExtendRun(job, run, Finish(0));
    EventSettles(job, s, spawn);
    EventSettles(job, After(job, run), Finish(0));
    ReleaseUndoesAcquire(s.locks, id, FilesOf(job, id));
    assert After(job, run).running == map[0 := id];
    run := run + [Finish(0)];
  }

  // One subtask after the other, without refusals: every plan has a run that stops.
  lemma {:induction false} SequentialRun(plan: seq<Subtask>, setting: Setting, before: seq<Event>) returns (run: seq<Event>)
    requires Feasible(JobFor(plan, setting), before)
    requires var s := After(JobFor(plan, setting), before); s.running == map[] && s.locks == map[]
    requires setting.limits.maxAgents >= 1
    ensures Feasible(JobFor(plan, setting), run) && Stopped(JobFor(plan, setting), After(JobFor(plan, setting), run))
    decreases |LiveIds(After(JobFor(plan, setting), before).status)|
  {
    hide Feasible, After, LiveIds, NodesOf, EdgesIn;
    if id :| Ready(EdgesOf(plan), After(JobFor(plan, setting), before).status, id) {
      var longer := RunOne(plan, setting, before, id);
      run := SequentialRun(plan, setting, longer);
    } else {
      run := before;
    }
  }

  // Whatever the outcomes and the schedule, the plan ends with everything settled.
  ghost predicate AlwaysSettles(plan: seq<Subtask>) {
    forall setting, run ::
      (Feasible(JobFor(plan, setting), run) && Stopped(JobFor(plan, setting), After(JobFor(plan, setting), run)))
      ==> Settled(After(JobFor(plan, setting), run).status)
  }

  // It does exactly if it is resumable.
  lemma SettlesExactlyWhen(plan: seq<Subtask>)
    requires !HasCycle(EdgesOf(plan))
    ensures AlwaysSettles(plan) <==> Resumable(plan)
  {
    hide Resumable, Settled, Stopped, Feasible, After, Concludes;
    if Resumable(plan) {
      forall setting, run | Feasible(JobFor(plan, setting), run) &&
        Stopped(JobFor(plan, setting), After(JobFor(plan, setting), run))
        ensures Settled(After(JobFor(plan, setting), run).status)
      {
        ResumableSettles(plan, setting, run);
      }
    } else {
      var setting, run := UnsettledRun(plan);
    }
  }

  lemma UnsettledRun(plan: seq<Subtask>) returns (setting: Setting, run: seq<Event>)
    requires !Resumable(plan) && !HasCycle(EdgesOf(plan))
    ensures Feasible(JobFor(plan, setting), run) && Stopped(JobFor(plan, setting), After(JobFor(plan, setting), run))
    ensures !Settled(After(JobFor(plan, setting), run).status)
  {
    var limits: AgentPool.PoolLimits := AgentPool.Limits(1, 1);
    setting := Setting(EdgesOf(plan).Keys, limits, 0);
    assert Feasible(JobFor(plan, setting), []);
    run := SequentialRun(plan, setting, []);
    hide Resumable, Settled, Stopped, Concludes;
    RunOutcome(plan, setting, run);
    UnresumableStays(JobFor(plan, setting), After(JobFor(plan, setting), run).status);
  }

  // For particular outcomes a plan that is not resumable may settle all the same: here "x"
  // could never start, but "z" fails and "x" is skipped.
  const LUCKY_PLAN: seq<Subtask> := [
    Subtask("y", "y", "y", [], [], Failed),
    Subtask("z", "z", "z", [], [], Pending),
    Subtask("x", "x", "x", ["y", "z"], [], Pending)]

  lemma LuckyGraph()
    ensures EdgesOf(LUCKY_PLAN) == map["y" := [], "z" := [], "x" := ["y", "z"]]
    ensures StatusesOf(LUCKY_PLAN) == map["y" := Failed, "z" := Pending, "x" := Pending]
  {
    assert NodesOf(LUCKY_PLAN[..0]) == map[];
    hide NodesOf;
    NodesOfNext(LUCKY_PLAN, 0);
    NodesOfNext(LUCKY_PLAN, 1);
    NodesOfNext(LUCKY_PLAN, 2);
    assert LUCKY_PLAN[..3] == LUCKY_PLAN;
  }

  lemma LuckyConclusion(job: Job, st: Statuses)
    requires job.graph == map["y" := [], "z" := [], "x" := ["y", "z"]] && "z" !in job.setting.wins
    requires Initial(job) == map["y" := Failed, "z" := Pending, "x" := Pending]
    requires Concludes(job, st)
    ensures !ResumableFrom(job.graph, Initial(job)) && Settled(st)
  {
    hide Initial;
    assert DepsOf(job.graph, "x")[0] == "y" && DepsOf(job.graph, "x")[1] == "z";
    assert st["z"] == Concluded(job, st, "z") == Failed;
    assert Edge(job.graph, "x", "z");
    assert st["x"] == Concluded(job, st, "x") == Skipped;
    assert st["y"] == Concluded(job, st, "y") == Failed;
  }

  lemma SettledByLuck(setting: Setting, run: seq<Event>)
    requires "z" !in setting.wins
    requires Feasible(JobFor(LUCKY_PLAN, setting), run)
    requires Stopped(JobFor(LUCKY_PLAN, setting), After(JobFor(LUCKY_PLAN, setting), run))
    ensures !Resumable(LUCKY_PLAN) && Settled(After(JobFor(LUCKY_PLAN, setting), run).status)
  {
    hide NodesOf, StatusesIn, EdgesIn, Feasible, After, PlanSound, Concludes, ResumableFrom, Settled, Stopped;
    LuckyGraph();
    RunOutcome(LUCKY_PLAN, setting, run);
    LuckyConclusion(JobFor(LUCKY_PLAN, setting), After(JobFor(LUCKY_PLAN, setting), run).status);
  }

  // A subtask that a plan shows as running from the start, as after a pause, has no
  // agent: in no run does it ever complete or fail.
  lemma StaleRunningNeverEnds(plan: seq<Subtask>, setting: Setting, run: seq<Event>, id: Id)
    requires StatusOf(StatusesOf(plan), id) == Running && Feasible(JobFor(plan, setting), run)
    ensures StatusOf(After(JobFor(plan, setting), run).status, id) in {Running, Skipped}
    ensures !HasAgent(After(JobFor(plan, setting), run).running, id)
  {
    ReachableSound(plan, setting, run);
    assert Developed(JobFor(plan, setting), StatusesOf(plan), After(JobFor(plan, setting), run).status, id);
  }

  // A plan that shows skipped subtasks as pending, and all others as they are.
  ghost predicate Column(plan: seq<Subtask>, st: Statuses, subtasks: seq<Subtask>) {
    && EdgesOf(subtasks) == EdgesOf(plan)
    && forall id :: id in StatusesOf(subtasks) ==>
         id in st && StatusesOf(subtasks)[id] == if st[id] == Skipped then Pending else st[id]
  }

  // One subtask, as the column shows it.
  ghost predicate ShownAs(st: Subtask, status: Status, shown: Subtask) {
    st.status in {Unset, Pending} && status != Unset && shown == st.(status := Shown(st.status, status))
  }

  lemma ColumnNext(plan: seq<Subtask>, st: Statuses, subtasks: seq<Subtask>, i: nat)
    requires i < |plan| == |subtasks| && Column(plan[..i], st, subtasks[..i])
    requires plan[i].id in st && ShownAs(plan[i], st[plan[i].id], subtasks[i])
    ensures Column(plan[..i + 1], st, subtasks[..i + 1])
  {
    hide NodesOf, EdgesIn, StatusesIn;
    NodesOfNext(plan, i);
    NodesOfNext(subtasks, i);
  }

  lemma {:induction false} ColumnShows(plan: seq<Subtask>, st: Statuses, subtasks: seq<Subtask>, i: nat)
    requires i <= |plan| == |subtasks|
    requires forall k :: 0 <= k < |plan| ==> plan[k].id in st && ShownAs(plan[k], st[plan[k].id], subtasks[k])
    ensures Column(plan[..i], st, subtasks[..i])
  {
    if i == 0 {
      assert NodesOf(plan[..0]) == NodesOf(subtasks[..0]) == map[];
    } else {
      hide Column, ShownAs;
      ColumnShows(plan, st, subtasks, i - 1);
      ColumnNext(plan, st, subtasks, i - 1);
    }
  }

  lemma CellsShown(job: Job, s: State)
    requires AllPending(job) && StatusesSound(job, s.status) && PlanSound(job, s) && UniqueIds(job.plan)
    requires forall st :: st in job.plan ==> st.id in job.graph && st.status in {Unset, Pending}
    ensures Column(job.plan, s.status, s.subtasks)
  {
    hide Initial, DepsCompleted, LosesDependency, Column, NodesOf;
    forall k | 0 <= k < |job.plan|
      ensures job.plan[k].id in s.status && ShownAs(job.plan[k], s.status[job.plan[k].id], s.subtasks[k])
    {
      assert job.plan[k] in job.plan;
      assert Developed(job, Initial(job), s.status, job.plan[k].id);
    }
    ColumnShows(job.plan, s.status, s.subtasks, |job.plan|);
    assert job.plan[..|job.plan|] == job.plan && s.subtasks[..|job.plan|] == s.subtasks;
  }

  lemma FreshMembers(plan: seq<Subtask>)
    requires Fresh(plan)
    ensures forall st :: st in plan ==> st.id in EdgesOf(plan) && st.status in {Unset, Pending}
  {
    forall st | st in plan ensures st.id in EdgesOf(plan) {
      var k :| 0 <= k < |plan| && plan[k] == st;
      assert HasId(plan, st.id);
    }
  }

  lemma InterruptedColumn(plan: seq<Subtask>, setting: Setting, run: seq<Event>)
    requires Fresh(plan) && Feasible(JobFor(plan, setting), run)
    ensures var s := After(JobFor(plan, setting), run); Column(plan, s.status, s.subtasks)
  {
    var job, s := JobFor(plan, setting), After(JobFor(plan, setting), run);
    hide Feasible, After, Column, StatusesSound, PlanSound, RunningSound, LocksSound, AllPending, EdgesOf, NodesOf, ShownAs;
    ReachableSound(plan, setting, run);
    FreshIsPending(plan, setting);
    FreshMembers(plan);
    CellsShown(job, s);
  }

  lemma {:induction false} NothingSkipped(job: Job, st: Statuses, column: Statuses, order: seq<Id>, k: nat)
    requires AllPending(job) && StatusesSound(job, st) && ResumableFrom(job.graph, column)
    requires column == map id | id in st :: if st[id] == Skipped then Pending else st[id]
    requires DependenciesFirst(job.graph, order) && k <= |order|
    ensures forall j :: 0 <= j < k ==> StatusOf(st, order[j]) != Skipped
  {
    hide Initial;
    if k > 0 {
      NothingSkipped(job, st, column, order, k - 1);
      var id := order[k - 1];
      assert Developed(job, Initial(job), st, id);
      forall dep | Edge(job.graph, id, dep) ensures StatusOf(st, dep) != Skipped {
        var j :| 0 <= j < k - 1 && order[..k - 1][j] == dep;
      }
    }
  }

  // An interrupted run can be taken up again from the plan it leaves, with every outcome
  // settled in the end, exactly if nothing was running and nothing skipped.
  lemma InterruptedSettlesExactlyWhen(plan: seq<Subtask>, setting: Setting, run: seq<Event>)
    requires Fresh(plan) && !HasCycle(EdgesOf(plan)) && Feasible(JobFor(plan, setting), run)
    ensures var s := After(JobFor(plan, setting), run);
      AlwaysSettles(s.subtasks) <==> forall id :: StatusOf(s.status, id) !in {Running, Skipped}
  {
    var job, s := JobFor(plan, setting), After(JobFor(plan, setting), run);
    hide Fresh, AlwaysSettles, RunningSound, LocksSound, PlanSound, Feasible, After, StatusesSound, AllPending,
         NodesOf, EdgesIn, StatusesIn, HasCycle, Orders;
    ReachableSound(plan, setting, run);
    FreshIsPending(plan, setting);
    InterruptedColumn(plan, setting, run);
    SettlesExactlyWhen(s.subtasks);
    var order := AcyclicOrder(job.graph);
    ColumnIs(job, s.status, s.subtasks);
    ResumableColumn(job, s.status, StatusesOf(s.subtasks), order);
  }

  lemma ColumnIs(job: Job, st: Statuses, subtasks: seq<Subtask>)
    requires Column(job.plan, st, subtasks) && StatusesSound(job, st) && job.graph == EdgesOf(job.plan)
    ensures StatusesOf(subtasks) == map id | id in st :: if st[id] == Skipped then Pending else st[id]
  {
    hide NodesOf;
    assert StatusesOf(subtasks).Keys == EdgesOf(subtasks).Keys;
  }

  lemma ResumableColumn(job: Job, st: Statuses, column: Statuses, order: seq<Id>)
    requires AllPending(job) && StatusesSound(job, st) && Orders(job.graph, order)
    requires column == map id | id in st :: if st[id] == Skipped then Pending else st[id]
    ensures ResumableFrom(job.graph, column) <==> forall id :: StatusOf(st, id) !in {Running, Skipped}
  {
    hide Initial;
    if ResumableFrom(job.graph, column) {
      NothingSkipped(job, st, column, order, |order|);
      forall id ensures StatusOf(st, id) !in {Running, Skipped} {
        if id in st {
          var j :| 0 <= j < |order| && order[j] == id;
          assert column[id] != Running;
        }
      }
    }
    if forall id :: StatusOf(st, id) !in {Running, Skipped} {
      UndisturbedResumable(job, st, column);
    }
  }

  lemma UndisturbedResumable(job: Job, st: Statuses, column: Statuses)
    requires AllPending(job) && StatusesSound(job, st)
    requires column == map id | id in st :: if st[id] == Skipped then Pending else st[id]
    requires forall id :: StatusOf(st, id) !in {Running, Skipped}
    ensures ResumableFrom(job.graph, column)
  {
    hide Initial, LosesDependency;
    PendingSound(job, st);
    forall id, dep | id in column && column[id] == Pending && dep in DepsOf(job.graph, id)
      ensures StatusOf(column, dep) in {Pending, Completed}
    {
      assert Edge(job.graph, id, dep) && dep in job.graph;
      assert Developed(job, Initial(job), st, dep);
    }
  }

  // ---------- progress ----------

  // If nothing runs and something is ready, something ready can take its locks: they
  // cannot deadlock.
  lemma LocksCannotDeadlock(job: Job, s: State, ready: Id) returns (id: Id)
    requires Inv(job, s) && s.running == map[] && job.nodes.Keys == job.graph.Keys
    requires Ready(job.graph, s.status, ready)
    ensures Startable(job, s, id)
  {
    id := ready;
    if !Lockable(s.locks, id, FilesOf(job, id)) {
      var f :| f in FilesOf(job, id) && f in s.locks && s.locks[f] != id;
      id := s.locks[f];
      assert HoldsAll(job, s.locks, id) && MayHold(job, s, id);
    }
  }

  // If anything is unfinished and nothing runs, some ready subtask can take its locks:
  // neither dependencies nor locks can deadlock.
  lemma NoDeadlock(plan: seq<Subtask>, setting: Setting, run: seq<Event>) returns (id: Id)
    requires Resumable(plan) && !HasCycle(EdgesOf(plan)) && Feasible(JobFor(plan, setting), run)
    requires var s := After(JobFor(plan, setting), run); s.running == map[] && !Settled(s.status)
    ensures Startable(JobFor(plan, setting), After(JobFor(plan, setting), run), id)
  {
    var job, s := JobFor(plan, setting), After(JobFor(plan, setting), run);
    ReachableSound(plan, setting, run);
    if Stopped(job, s) {
      ResumableSettles(plan, setting, run);
    }
    var ready :| Ready(job.graph, s.status, ready);
    id := LocksCannotDeadlock(job, s, ready);
  }

  // ---------- termination ----------

  ghost function LiveIds(st: Statuses): set<Id> {
    set id | id in st && Live(st, id)
  }

  ghost function Finishes(run: seq<Event>): nat {
    if run == [] then 0
    else Finishes(run[..|run| - 1]) + if run[|run| - 1].Finish? then 1 else 0
  }

  // Each completion event settles at least one subtask for good.
  lemma {:induction false} FinishesBounded(plan: seq<Subtask>, setting: Setting, run: seq<Event>)
    requires Feasible(JobFor(plan, setting), run)
    ensures Finishes(run) + |LiveIds(After(JobFor(plan, setting), run).status)| <= |plan|
  {
    var job := JobFor(plan, setting);
    if run == [] {
      KeysBounded(plan);
      SubsetSize(LiveIds(StatusesOf(plan)), NodesOf(plan).Keys);
    } else {
      FinishesBounded(plan, setting, run[..|run| - 1]);
      ReachableSound(plan, setting, run[..|run| - 1]);
      EventSettles(job, After(job, run[..|run| - 1]), run[|run| - 1]);
    }
  }

  lemma EventSettles(job: Job, s: State, e: Event)
    requires Inv(job, s) && Enabled(job, s, e)
    ensures |LiveIds(Next(job, s, e).status)| + (if e.Finish? then 1 else 0) <= |LiveIds(s.status)|
  {
    if !e.Refuse? {
      var x := StepMoves(job, s, e);
      hide Settle, SetStatus, Startable, StatusesSound, LocksSound, RunningSound, PlanSound, DepsCompleted, LosesDependency;
      var live := LiveIds(Next(job, s, e).status);
      assert live <= LiveIds(s.status);
      SubsetSize(live, if e.Finish? then LiveIds(s.status) - {x} else LiveIds(s.status));
    }
  }

  lemma {:induction false} KeysBounded(plan: seq<Subtask>)
    ensures |NodesOf(plan).Keys| <= |plan|
  {
    if plan != [] {
      var last := plan[|plan| - 1];
      KeysBounded(plan[..|plan| - 1]);
      assert NodesOf(plan).Keys == NodesOf(plan[..|plan| - 1]).Keys + {last.id};
    }
  }
}
