// The event loop of the DAG orchestrator (internal/task/orchestrator.go), over the
// dependency graph, the file locks and the plan's status column.  The pool's answers,
// the order of completions and cancellation are the environment's choice.
module Orchestration {
  import AgentPool
  import opened Basics
  import opened Plans
  import opened Graphs
  import opened Dependency
  import opened FileLocks
  import opened Scheduler
  import opened SchedulerRuns

  // pool.Spawn: an agent, or a refusal: ErrPoolFull or ErrTaskLimitReached, or another error.
  datatype SpawnAnswer = Spawned | Refused(cause: Refusal)

  // Waiting: nothing is running, so only cancellation could wake the select.
  datatype RunResult = CircularDependencies | SpawnFailed | Cancelled | Waiting | Finished

  class ExecutionPlan {
    var subtasks: seq<Subtask>

    constructor (subtasks: seq<Subtask>)
      ensures this.subtasks == subtasks
    {
      this.subtasks := subtasks;
    }

    method Mark(id: Id, s: Status)
      modifies this
      ensures subtasks == SetStatus(old(subtasks), id, s)
      ensures Marked(old(subtasks), subtasks, id, s)
    {
      SetStatusMarks(subtasks, id, s);
      var i := 0;
      while i < |subtasks|
        invariant 0 <= i <= |subtasks| && subtasks == old(subtasks)
        invariant forall k :: 0 <= k < i ==> subtasks[k].id != id
      {
        if subtasks[i].id == id {
          SetStatusFirst(subtasks, id, s, i);
          subtasks := subtasks[i := subtasks[i].(status := s)];
          return;
        }
        i := i + 1;
      }
      SetStatusAbsent(subtasks, id, s);
    }

    // The same, by position.
    method MarkAt(i: nat, s: Status)
      requires i < |subtasks| && UniqueIds(subtasks)
      modifies this
      ensures subtasks == SetStatus(old(subtasks), old(subtasks)[i].id, s)
      ensures Marked(old(subtasks), subtasks, old(subtasks)[i].id, s)
    {
      SetStatusMarks(subtasks, subtasks[i].id, s);
      MarkIsUpdate(subtasks, i, s);
      subtasks := subtasks[i := subtasks[i].(status := s)];
    }
  }

  lemma MarkIsUpdate(subtasks: seq<Subtask>, i: nat, s: Status)
    requires UniqueIds(subtasks) && i < |subtasks|
    ensures SetStatus(subtasks, subtasks[i].id, s) == subtasks[i := subtasks[i].(status := s)]
  {
    forall k | 0 <= k < |subtasks|
      ensures SetStatus(subtasks, subtasks[i].id, s)[k] == subtasks[i := subtasks[i].(status := s)][k]
    {
      SetStatusAt(subtasks, subtasks[i].id, s, k);
    }
  }

  lemma {:induction false} SetStatusFirst(subtasks: seq<Subtask>, id: Id, s: Status, i: nat)
    requires i < |subtasks| && subtasks[i].id == id && forall k :: 0 <= k < i ==> subtasks[k].id != id
    ensures SetStatus(subtasks, id, s) == subtasks[i := subtasks[i].(status := s)]
  {
    if i > 0 {
      SetStatusFirst(subtasks[1..], id, s, i - 1);
    }
  }

  lemma {:induction false} SetStatusAbsent(subtasks: seq<Subtask>, id: Id, s: Status)
    requires forall k :: 0 <= k < |subtasks| ==> subtasks[k].id != id
    ensures SetStatus(subtasks, id, s) == subtasks
  {
    if subtasks != [] {
      SetStatusAbsent(subtasks[1..], id, s);
    }
  }

  // Some spawn was refused although none of this task's agents was running: at that
  // moment agents of other tasks alone filled the pool.
  ghost predicate Starved(job: Job, run: seq<Event>) {
    exists k :: 0 <= k < |run| && RefusedIdle(job, run, k)
  }

  ghost predicate RefusedIdle(job: Job, run: seq<Event>, k: nat)
    requires k < |run|
  {
    && run[k].Refuse? && run[k].cause.PoolLimit?
    && Feasible(job, run[..k]) && After(job, run[..k]).running == map[]
    && var active := run[k].cause.active;
       |set a | a in active && active[a] != job.setting.task| >= job.setting.limits.maxAgents
  }

  ghost predicate NothingStartable(job: Job, s: State) {
    forall id :: !Startable(job, s, id)
  }

  function PendingIds(st: Statuses): set<Id> {
    set id | id in st && st[id] == Pending
  }

  // Bounds the remaining iterations of the event loop.
  function Budget(st: Statuses, running: map<AgentId, Id>): nat {
    2 * |PendingIds(st)| + |running|
  }

  lemma SpawnBudget(st: Statuses, running: map<AgentId, Id>, id: Id, agent: AgentId)
    requires StatusOf(st, id) == Pending && agent !in running
    ensures Budget(st[id := Running], running[agent := id]) < Budget(st, running)
  {
    assert PendingIds(st[id := Running]) == PendingIds(st) - {id};
    assert running[agent := id].Keys == running.Keys + {agent};
    assert |running[agent := id]| == |running[agent := id].Keys|;
  }

  lemma FinishBudget(st: Statuses, st': Statuses, running: map<AgentId, Id>, agent: AgentId)
    requires agent in running
    requires PendingIds(st') <= PendingIds(st)
    ensures Budget(st', running - {agent}) < Budget(st, running)
  {
    SubsetSize(PendingIds(st'), PendingIds(st));
    WithoutSize(running, agent);
  }

  datatype Attempted = Deferred | Started | AtLimit | Broken

  predicate Available(job: Job, st: Statuses, subtask: Subtask) {
    && subtask.id in job.nodes && job.nodes[subtask.id] == subtask
    && Ready(job.graph, st, subtask.id)
  }

  predicate Blocked(locks: Locks, subtask: Subtask) {
    !Lockable(locks, subtask.id, subtask.filesInvolved)
  }

  lemma StaysAvailable(job: Job, st: Statuses, subtask: Subtask, id: Id)
    requires Available(job, st, subtask) && subtask.id != id && StatusOf(st, id) == Pending
    ensures Available(job, st[id := Running], subtask)
  {
  }

  // A sweep changes statuses from pending to running only.
  ghost predicate Grown(status0: Statuses, status: Statuses) {
    forall id ::
      || StatusOf(status, id) == StatusOf(status0, id)
      || (StatusOf(status0, id) == Pending && StatusOf(status, id) == Running)
  }

  // Half-way through a sweep: everything tried so far runs or is blocked by a lock,
  // and the rest of the list is still available.
  ghost predicate Sweeping(job: Job, ready: seq<Subtask>, i: nat, status0: Statuses, status: Statuses, locks: Locks) {
    && i <= |ready|
    && (forall j, k :: 0 <= j < k < |ready| ==> ready[j].id != ready[k].id)
    && (forall k :: i <= k < |ready| ==> Available(job, status, ready[k]))
    && (forall k :: 0 <= k < i ==> StatusOf(status, ready[k].id) == Running || Blocked(locks, ready[k]))
    && Grown(status0, status)
  }

  lemma StaysBlocked(locks: Locks, subtask: Subtask, other: Subtask)
    requires Blocked(locks, subtask) && other.id != subtask.id
    ensures Blocked(Acquired(locks, other.id, other.filesInvolved), subtask)
  {
    var f :| f in subtask.filesInvolved && f in locks && locks[f] != subtask.id;
    assert Acquired(locks, other.id, other.filesInvolved)[f] != subtask.id;
  }

  lemma SweepBegins(job: Job, ready: seq<Subtask>, status: Statuses, locks: Locks, run: seq<Event>)
    requires ListsReady(job.nodes, job.graph, status, ready)
    ensures Sweeping(job, ready, 0, status, status, locks)
    ensures SweepRun(run, run, Swept)
  {
  }

  // The next subtask is available, and whether it starts or is deferred the sweep goes on.
  lemma NextInSweep(job: Job, ready: seq<Subtask>, i: nat, status0: Statuses, status: Statuses, locks: Locks)
    requires Sweeping(job, ready, i, status0, status, locks) && i < |ready|
    ensures Available(job, status, ready[i])
    ensures Sweeping(job, ready, i + 1, status0, status[ready[i].id := Running],
                     Acquired(locks, ready[i].id, ready[i].filesInvolved))
    ensures Blocked(locks, ready[i]) ==> Sweeping(job, ready, i + 1, status0, status, locks)
  {
    forall k | i < k < |ready| ensures Available(job, status[ready[i].id := Running], ready[k]) {
      StaysAvailable(job, status, ready[k], ready[i].id);
    }
    forall k | 0 <= k < i && Blocked(locks, ready[k])
      ensures Blocked(Acquired(locks, ready[i].id, ready[i].filesInvolved), ready[k])
    {
      StaysBlocked(locks, ready[k], ready[i]);
    }
  }

  // After a whole sweep nothing more could start.
  lemma SweptLeavesNothing(job: Job, s: State, ready: seq<Subtask>, status0: Statuses)
    requires ListsReady(job.nodes, job.graph, status0, ready)
    requires forall id :: id in job.nodes ==> job.nodes[id].id == id
    requires Sweeping(job, ready, |ready|, status0, s.status, s.locks)
    ensures NothingStartable(job, s)
  {
    forall id ensures !Startable(job, s, id) {
      if id in job.nodes && Ready(job.graph, s.status, id) {
        assert Ready(job.graph, status0, id);
        var k :| 0 <= k < |ready| && ready[k] == job.nodes[id];
        assert Blocked(s.locks, ready[k]);
      }
    }
  }

  // How a sweep ended: the list was exhausted, a limit was reached, or a spawn failed.
  datatype SweepEnd = Swept | Limited | SpawnBroke

  // The refusal that ends a sweep early.
  predicate Ends(e: Event, end: SweepEnd) {
    e.Refuse? && match end case Swept => false case Limited => e.cause.PoolLimit? case SpawnBroke => e.cause == SpawnError
  }

  // A sweep spawns, and stops at the first refusal.
  predicate SweepRun(before: seq<Event>, after: seq<Event>, end: SweepEnd) {
    && before <= after
    && if end == Swept then forall k :: |before| <= k < |after| ==> after[k].Spawn?
       else && |before| < |after| && Ends(after[|after| - 1], end)
            && forall k :: |before| <= k < |after| - 1 ==> after[k].Spawn?
  }

  lemma SweepGoesOn(before: seq<Event>, run: seq<Event>, longer: seq<Event>)
    requires SweepRun(before, run, Swept)
    requires longer == run || (|longer| == |run| + 1 && run <= longer)
    ensures longer == run || longer[|run|].Spawn? ==> SweepRun(before, longer, Swept)
    ensures forall end :: longer != run && Ends(longer[|run|], end) ==> SweepRun(before, longer, end)
  {
  }

  // The refusal that starves a task: a limit, while it has no agent.
  ghost predicate Starves(job: Job, run: seq<Event>, e: Event)
    requires Feasible(job, run)
  {
    e.Refuse? && e.cause.PoolLimit? && After(job, run).running == map[]
  }

  // Nothing else starves it.
  lemma StarvedNext(job: Job, run: seq<Event>, e: Event)
    requires Feasible(job, run) && Enabled(job, After(job, run), e)
    ensures Starved(job, run + [e]) <==> Starved(job, run) || Starves(job, run, e)
  {
    hide Feasible, After, Startable;
    var longer := run + [e];
    assert longer[..|run|] == run;
    assert forall k :: 0 <= k < |run| ==> longer[..k] == run[..k];
    if Starves(job, run, e) {
      AgentPool.IdleRefusal(job.setting.limits, e.cause.active, job.setting.task);
      assert RefusedIdle(job, longer, |run|);
    }
    if k :| 0 <= k < |run| && RefusedIdle(job, run, k) {
      assert RefusedIdle(job, longer, k);
    }
    if k :| 0 <= k < |longer| && RefusedIdle(job, longer, k) {
      assert k < |run| ==> RefusedIdle(job, run, k);
    }
  }

  // A one-subtask plan of task 0, and a pool of one agent that task 1 holds.
  const WAITING_PLAN: seq<Subtask> := [Subtask("a", "a", "a", [], [], Pending)]
  const CROWDED: map<AgentId, AgentPool.TaskId> := map[7 := 1]

  // Such a run exists: the first spawn is refused, and the loop waits.
  lemma StarvedRun() returns (setting: Setting, run: seq<Event>)
    ensures run == [Refuse("a", PoolLimit(CROWDED))]
    ensures Feasible(JobFor(WAITING_PLAN, setting), run) && Starved(JobFor(WAITING_PLAN, setting), run)
  {
    var limits: AgentPool.PoolLimits := AgentPool.Limits(1, 1);
    setting := Setting({}, limits, 0);
    run := [Refuse("a", PoolLimit(CROWDED))];
    var job := JobFor(WAITING_PLAN, setting);
    assert NodesOf(WAITING_PLAN[..0]) == map[] && WAITING_PLAN[..1] == WAITING_PLAN;
    NodesOfNext(WAITING_PLAN, 0);
    assert AgentPool.OfTask(CROWDED, 0) == {};
    assert CROWDED.Keys == {7} && |CROWDED| == |CROWDED.Keys|;
    hide NodesOf;
    assert Startable(job, Init(job), "a");
    assert Feasible(job, []);
    ExtendRun(job, [], run[0]);
    assert [] + [run[0]] == run;
    StarvedNext(job, [], run[0]);
  }

  lemma StarvedAfter(job: Job, before: seq<Event>, run: seq<Event>)
    requires Feasible(job, before) && Feasible(job, run)
    requires run == before || (|run| == |before| + 1 && before <= run)
    ensures Starved(job, run) <==>
            Starved(job, before) || (run != before && Starves(job, before, run[|before|]))
  {
    if run != before {
      assert run[..|run| - 1] == before && run == before + [run[|before|]];
      StarvedNext(job, before, run[|before|]);
    }
  }

  // At most one event, not a completion, was added.
  lemma FinishesAfter(before: seq<Event>, run: seq<Event>)
    requires run == before || (|run| == |before| + 1 && before <= run && !run[|before|].Finish?)
    ensures Finishes(run) == Finishes(before)
  {
    if run != before {
      assert run[..|run| - 1] == before;
    }
  }

  // What a call of Run that got past the cycle check leaves behind, whatever plan it was
  // given: it performed `run`, handled `events` completions, at most one per subtask, and
  // wrote the plan's statuses accordingly; a normal exit leaves every subtask in the
  // status the plan and the outcomes determine, with no agent running and no lock held;
  // and it is left waiting exactly if the pool, filled by other tasks, refused it while it
  // had no agent running.
  ghost predicate Accounts(plan0: seq<Subtask>, setting: Setting, r: RunResult, events: nat,
                           run: seq<Event>, subtasks: seq<Subtask>) {
    var job := JobFor(plan0, setting);
    && Feasible(job, run)
    && events == Finishes(run) <= |plan0|
    && subtasks == After(job, run).subtasks
    && (r == Finished ==> Ended(job, After(job, run)))
    && (r == Finished && Resumable(plan0) ==> Settled(After(job, run).status))
    && (r == Waiting <==> Starved(job, run))
    && (r == SpawnFailed ==> run != [] && Ends(run[|run| - 1], SpawnBroke))
  }

  lemma AtStop(plan0: seq<Subtask>, setting: Setting, r: RunResult, run: seq<Event>)
    requires Feasible(JobFor(plan0, setting), run) && r != Finished && r != Waiting
    requires !Starved(JobFor(plan0, setting), run)
    requires r == SpawnFailed ==> run != [] && Ends(run[|run| - 1], SpawnBroke)
    ensures Accounts(plan0, setting, r, Finishes(run), run, After(JobFor(plan0, setting), run).subtasks)
  {
    FinishesBounded(plan0, setting, run);
  }

  // At a normal exit the run has ended.
  lemma AtExit(plan0: seq<Subtask>, setting: Setting, run: seq<Event>)
    requires !HasCycle(EdgesOf(plan0))
    requires Feasible(JobFor(plan0, setting), run)
    requires var job, s := JobFor(plan0, setting), After(JobFor(plan0, setting), run);
      (Settled(s.status) || Stopped(job, s)) && !Starved(job, run)
    ensures Accounts(plan0, setting, Finished, Finishes(run), run, After(JobFor(plan0, setting), run).subtasks)
  {
    ReachableSound(plan0, setting, run);
    FinishesBounded(plan0, setting, run);
    if Settled(After(JobFor(plan0, setting), run).status) {
      SettledStops(JobFor(plan0, setting), After(JobFor(plan0, setting), run));
    }
    RunOutcome(plan0, setting, run);
    if Resumable(plan0) {
      ResumableSettles(plan0, setting, run);
    }
  }

  lemma NothingReady(plan0: seq<Subtask>, setting: Setting, run: seq<Event>)
    requires Feasible(JobFor(plan0, setting), run)
    requires var job, s := JobFor(plan0, setting), After(JobFor(plan0, setting), run);
      s.running == map[] && ListsReady(job.nodes, job.graph, s.status, [])
    ensures Stopped(JobFor(plan0, setting), After(JobFor(plan0, setting), run))
  {
    var job, s := JobFor(plan0, setting), After(JobFor(plan0, setting), run);
    ReachableSound(plan0, setting, run);
    forall id ensures !Ready(job.graph, s.status, id) {
      assert Ready(job.graph, s.status, id) ==> id in job.nodes;
    }
  }

  // The loop can only be left waiting by a pool that other tasks fill.
  lemma AtWait(plan0: seq<Subtask>, setting: Setting, run: seq<Event>, ready: Id)
    requires Feasible(JobFor(plan0, setting), run)
    requires var job, s := JobFor(plan0, setting), After(JobFor(plan0, setting), run);
      s.running == map[] && Ready(job.graph, s.status, ready)
    requires Starved(JobFor(plan0, setting), run) ||
             NothingStartable(JobFor(plan0, setting), After(JobFor(plan0, setting), run))
    ensures Accounts(plan0, setting, Waiting, Finishes(run), run, After(JobFor(plan0, setting), run).subtasks)
  {
    FinishesBounded(plan0, setting, run);
    ReachableSound(plan0, setting, run);
    if NothingStartable(JobFor(plan0, setting), After(JobFor(plan0, setting), run)) {
      var id := LocksCannotDeadlock(JobFor(plan0, setting), After(JobFor(plan0, setting), run), ready);
    }
  }

  // What the last sweep says about the state the loop is in: nothing more could start,
  // or something is ready and the pool is at a limit; exactly a task that this leaves
  // without agents has been starved.
  ghost predicate Outlook(job: Job, run: seq<Event>, running: map<AgentId, Id>, end: SweepEnd)
    requires Feasible(job, run)
  {
    && (end == Swept ==> NothingStartable(job, After(job, run)))
    && (end == Limited ==> exists id :: Ready(job.graph, After(job, run).status, id))
    && (Starved(job, run) <==> end == Limited && running == map[])
  }

  // The agents in the pool: other tasks may have any there; of this task's there are
  // those the pool has not seen end.
  method AgentsNow(setting: Setting, running: map<AgentId, Id>) returns (active: map<AgentId, AgentPool.TaskId>)
    ensures AgentPool.OfTask(active, setting.task) <= running.Keys
  {
    var agents: map<AgentId, AgentPool.TaskId> := *;
    active := map a | a in agents && (agents[a] == setting.task ==> a in running) :: agents[a];
  }

  // pool.Spawn: the limits decide, and then the container may fail to start.
  method AskPool(setting: Setting, active: map<AgentId, AgentPool.TaskId>) returns (answer: SpawnAnswer)
    ensures answer == Refused(PoolLimit(active)) <==> !AgentPool.Admits(setting.limits, active, setting.task)
    ensures answer in {Spawned, Refused(SpawnError), Refused(PoolLimit(active))}
  {
    if !AgentPool.Admits(setting.limits, active, setting.task) {
      return Refused(PoolLimit(active));
    }
    var started: bool := *;
    answer := if started then Spawned else Refused(SpawnError);
  }

  class Orchestrator {

    ghost predicate Tracks(job: Job, run: seq<Event>, graph: DependencyGraph, locks: FileLockService,
                           plan: ExecutionPlan, running: map<AgentId, Id>, agents: nat)
      reads graph, locks, plan
    {
      && graph.Valid() && graph.nodes == job.nodes && graph.edges == job.graph
      && Feasible(job, run)
      && After(job, run) == State(graph.status, running, locks.locks, plan.subtasks)
      && forall a :: a in running ==> a < agents
    }

    // A subtask without files needs no lock.
    method LockFiles(locks: FileLockService, subtask: Subtask) returns (granted: bool)
      modifies locks
      ensures granted <==> Lockable(old(locks.locks), subtask.id, subtask.filesInvolved)
      ensures locks.locks ==
              if granted then Acquired(old(locks.locks), subtask.id, subtask.filesInvolved) else old(locks.locks)
    {
      granted := true;
      if |subtask.filesInvolved| > 0 {
        granted := locks.TryLock(subtask.id, subtask.filesInvolved);
      } else {
        assert locks.locks == Acquired(old(locks.locks), subtask.id, []);
      }
    }

    // Lock the files, then ask the pool, which has the agents `active`, for one more.
    // Whatever it answers, the files stay locked.
    method TrySpawn(graph: DependencyGraph, locks: FileLockService, plan: ExecutionPlan, subtask: Subtask,
                    running0: map<AgentId, Id>, agents0: nat, setting: Setting,
                    active: map<AgentId, AgentPool.TaskId>, ghost job: Job, ghost run0: seq<Event>)
      returns (attempt: Attempted, running: map<AgentId, Id>, agents: nat, ghost run: seq<Event>)
      requires Tracks(job, run0, graph, locks, plan, running0, agents0)
      requires Available(job, graph.status, subtask) && job.setting == setting
      requires AgentPool.OfTask(active, setting.task) <= running0.Keys
      modifies graph`status, locks, plan
      ensures Tracks(job, run, graph, locks, plan, running, agents)
      ensures run == match attempt
                case Deferred => run0
                case Started => run0 + [Event.Spawn(subtask.id, agents0, active)]
                case AtLimit => run0 + [Refuse(subtask.id, PoolLimit(active))]
                case Broken => run0 + [Refuse(subtask.id, SpawnError)]
      ensures attempt == Deferred <==> !Lockable(old(locks.locks), subtask.id, subtask.filesInvolved)
      ensures attempt == AtLimit <==> attempt != Deferred && !AgentPool.Admits(setting.limits, active, setting.task)
      ensures attempt == Deferred ==> locks.locks == old(locks.locks)
      ensures attempt != Deferred ==> HoldsFiles(old(locks.locks), locks.locks, subtask.id, subtask.filesInvolved)
      ensures attempt == Started ==> locks.locks == Acquired(old(locks.locks), subtask.id, subtask.filesInvolved)
      ensures attempt == Started ==> running == running0[agents0 := subtask.id] && agents0 !in running0
      ensures attempt != Started ==> running == running0
      ensures graph.status == if attempt == Started then old(graph.status)[subtask.id := Running] else old(graph.status)
    {
      hide After, Feasible, Ready, SetStatus, Acquired, Lockable, HoldsFiles, AgentPool.Admits, AgentPool.OfTask;
      running, agents, run := running0, agents0, run0;
      var granted := LockFiles(locks, subtask);
      if !granted {
        return Deferred, running, agents, run;
      }
      GrantedHolds(old(locks.locks), subtask.id, subtask.filesInvolved);
      var answer := AskPool(setting, active);
      match answer {
        case Spawned =>
          ExtendRun(job, run0, Event.Spawn(subtask.id, agents0, active));
          graph.MarkRunning(subtask.id);
          plan.Mark(subtask.id, Running);
          running := running[agents := subtask.id];
          agents := agents + 1;
          run := run + [Event.Spawn(subtask.id, agents0, active)];
          attempt := Started;
        case Refused(cause) =>
          ExtendRun(job, run0, Refuse(subtask.id, cause));
          run := run + [Refuse(subtask.id, cause)];
          attempt := if cause.PoolLimit? then AtLimit else Broken;
      }
    }

    // What one attempt means for the sweep.
    method Attempt(graph: DependencyGraph, locks: FileLockService, plan: ExecutionPlan, subtask: Subtask,
                   running0: map<AgentId, Id>, agents0: nat, setting: Setting, ghost job: Job, ghost run0: seq<Event>)
      returns (attempt: Attempted, running: map<AgentId, Id>, agents: nat, ghost run: seq<Event>)
      requires Tracks(job, run0, graph, locks, plan, running0, agents0)
      requires Available(job, graph.status, subtask) && job.setting == setting
      modifies graph`status, locks, plan
      ensures Tracks(job, run, graph, locks, plan, running, agents)
      ensures run0 <= run && Finishes(run) == Finishes(run0)
      ensures match attempt
                case Deferred => run == run0
                case Started => |run| == |run0| + 1 && run[|run0|].Spawn?
                case AtLimit => |run| == |run0| + 1 && Ends(run[|run0|], Limited)
                case Broken => |run| == |run0| + 1 && Ends(run[|run0|], SpawnBroke)
      ensures Budget(graph.status, running) <= Budget(old(graph.status), running0)
      ensures graph.status == if attempt == Started then old(graph.status)[subtask.id := Running] else old(graph.status)
      ensures attempt == Deferred ==> Blocked(locks.locks, subtask) && locks.locks == old(locks.locks)
      ensures attempt == Started ==> locks.locks == Acquired(old(locks.locks), subtask.id, subtask.filesInvolved)
      ensures Starved(job, run) <==> Starved(job, run0) || (attempt == AtLimit && running0 == map[])
      ensures attempt == AtLimit ==> running == running0
    {
      var active := AgentsNow(setting, running0);
      attempt, running, agents, run := TrySpawn(graph, locks, plan, subtask, running0, agents0, setting, active, job, run0);
      FinishesAfter(run0, run);
      StarvedAfter(job, run0, run);
      match attempt {
        case Started =>
          SpawnBudget(old(graph.status), running0, subtask.id, agents0);
          assert agents0 in running;
        case _ =>
      }
    }

    // One sweep over the ready subtasks.
    method SpawnReady(graph: DependencyGraph, locks: FileLockService, plan: ExecutionPlan,
                      running0: map<AgentId, Id>, agents0: nat, setting: Setting, ghost job: Job, ghost run0: seq<Event>)
      returns (end: SweepEnd, running: map<AgentId, Id>, agents: nat, ghost run: seq<Event>)
      requires Tracks(job, run0, graph, locks, plan, running0, agents0) && job.setting == setting
      modifies graph`status, locks, plan
      ensures Tracks(job, run, graph, locks, plan, running, agents)
      ensures SweepRun(run0, run, end) && Finishes(run) == Finishes(run0)
      ensures Budget(graph.status, running) <= Budget(old(graph.status), running0)
      ensures end == Swept ==> NothingStartable(job, After(job, run))
      ensures end == Limited ==> exists id :: Ready(job.graph, graph.status, id)
      ensures Starved(job, run) <==> Starved(job, run0) || (end == Limited && running == map[])
    {
      hide After, Feasible, Budget, Starved, Sweeping, SweepRun, NothingStartable, Lockable, Acquired, Blocked;
      end, running, agents, run := Swept, running0, agents0, run0;
      var ready := graph.GetReady();
      ghost var status0 := graph.status;
      SweepBegins(job, ready, status0, locks.locks, run0);
      for i := 0 to |ready|
        invariant Tracks(job, run, graph, locks, plan, running, agents)
        invariant SweepRun(run0, run, Swept) && Finishes(run) == Finishes(run0)
        invariant Starved(job, run) == Starved(job, run0)
        invariant Budget(graph.status, running) <= Budget(status0, running0)
        invariant Sweeping(job, ready, i, status0, graph.status, locks.locks)
      {
        var attempt;
        ghost var before := run;
        NextInSweep(job, ready, i, status0, graph.status, locks.locks);
        attempt, running, agents, run := Attempt(graph, locks, plan, ready[i], running, agents, setting, job, run);
        SweepGoesOn(run0, before, run);
        if attempt == AtLimit {
          return Limited, running, agents, run;
        }
        if attempt == Broken {
          return SpawnBroke, running, agents, run;
        }
      }
      SweptLeavesNothing(job, After(job, run), ready, status0);
    }

    // The select's completion branch: any running agent may be the one that ended.
    method OnCompletion(graph: DependencyGraph, locks: FileLockService, plan: ExecutionPlan, wins: set<Id>,
                        running0: map<AgentId, Id>, agents: nat, ghost job: Job, ghost run0: seq<Event>)
      returns (running: map<AgentId, Id>, ghost run: seq<Event>, ghost ended: AgentId)
      requires Tracks(job, run0, graph, locks, plan, running0, agents)
      requires running0 != map[] && job.setting.wins == wins
      modifies graph`status, locks, plan
      ensures Tracks(job, run, graph, locks, plan, running, agents)
      ensures ended in running0 && running == running0 - {ended}
      ensures Starved(job, run) == Starved(job, run0)
      ensures run == run0 + [Finish(ended)] && Finishes(run) == Finishes(run0) + 1
      ensures Budget(graph.status, running) < Budget(old(graph.status), running0)
    {
      var agent :| agent in running0;
      var id := running0[agent];
      ended := agent;
      ExtendRun(job, run0, Finish(agent));
      run := run0 + [Finish(agent)];
      assert run[..|run0|] == run0;
      running := running0 - {agent};
      locks.Release(id);
      if id in wins {
        var _ := graph.Complete(id);
        plan.Mark(id, Completed);
      } else {
        graph.Fail(id);
        plan.Mark(id, Failed);
      }
      FinishBudget(old(graph.status), graph.status, running0, agent);
      StarvedNext(job, run0, Finish(agent));
    }

    // The main loop: completions and sweeps until nothing is left, or nothing can happen.
    method EventLoop(graph: DependencyGraph, locks: FileLockService, plan: ExecutionPlan, setting: Setting,
                     running0: map<AgentId, Id>, agents0: nat, end0: SweepEnd, cancellable: bool,
                     ghost plan0: seq<Subtask>, ghost run0: seq<Event>)
      returns (r: RunResult, events: nat, ghost run: seq<Event>)
      requires !HasCycle(EdgesOf(plan0)) && Finishes(run0) == 0
      requires Tracks(JobFor(plan0, setting), run0, graph, locks, plan, running0, agents0)
      requires end0 != SpawnBroke && Outlook(JobFor(plan0, setting), run0, running0, end0)
      modifies graph`status, locks, plan
      ensures r != CircularDependencies && run0 <= run && (r == Cancelled ==> cancellable)
      ensures Accounts(plan0, setting, r, events, run, plan.subtasks)
    {
      hide After, Feasible, Budget, Starved, Accounts, Finishes;
      ghost var job := JobFor(plan0, setting);
      events, run := 0, run0;
      var running, agents, end := running0, agents0, end0;
      while true
        invariant Tracks(job, run, graph, locks, plan, running, agents)
        invariant events == Finishes(run) && run0 <= run
        invariant end != SpawnBroke && Outlook(job, run, running, end)
        decreases Budget(graph.status, running)
      {
        var done := graph.AllCompleted();
        if done {
          AtExit(plan0, setting, run);
          return Finished, events, run;
        }
        if running == map[] {
          var ready := graph.GetReady();
          if |ready| == 0 {
            NothingReady(plan0, setting, run);
            AtExit(plan0, setting, run);
            return Finished, events, run;
          }
          AtWait(plan0, setting, run, ready[0].id);
          return Waiting, events, run;
        }
        var cancelled: bool := *;
        if cancellable && cancelled {
          AtStop(plan0, setting, Cancelled, run);
          return Cancelled, events, run;
        }
        ghost var ended;
        running, run, ended := OnCompletion(graph, locks, plan, setting.wins, running, agents, job, run);
        events := events + 1;
        end, running, agents, run := SpawnReady(graph, locks, plan, running, agents, setting, job, run);
        if end == SpawnBroke {
          AtStop(plan0, setting, SpawnFailed, run);
          return SpawnFailed, events, run;
        }
      }
    }

    method Run(plan: ExecutionPlan, setting: Setting, cancellable: bool)
      returns (r: RunResult, events: nat, ghost run: seq<Event>)
      modifies plan
      ensures r == CircularDependencies <==> HasCycle(EdgesOf(old(plan.subtasks)))
      ensures r == Cancelled ==> cancellable
      ensures r == CircularDependencies ==> plan.subtasks == old(plan.subtasks)
      ensures r != CircularDependencies ==> Accounts(old(plan.subtasks), setting, r, events, run, plan.subtasks)
    {
      ghost var plan0 := plan.subtasks;
      ghost var job := JobFor(plan0, setting);
      var graph := new DependencyGraph.BuildGraph(plan.subtasks);
      var cyclic := graph.HasCycles();
      if cyclic {
        return CircularDependencies, 0, [];
      }
      var locks := new FileLockService();
      assert Tracks(job, [], graph, locks, plan, map[], 0) && !Starved(job, []);
      var end, running, agents;
      end, running, agents, run := SpawnReady(graph, locks, plan, map[], 0, setting, job, []);
      if end == SpawnBroke {
        AtStop(plan0, setting, SpawnFailed, run);
        return SpawnFailed, 0, run;
      }
      r, events, run := EventLoop(graph, locks, plan, setting, running, agents, end, cancellable, plan0, run);
    }
  }
}
