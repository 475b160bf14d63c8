// The DAG scheduler of internal/task/orchestrator.go as a step system: graph
// statuses, running agents, file locks and the plan's own status column.  A run is
// any sequence of enabled events; `Orchestrator.Run` produces one.  Nothing is asked
// of the plan: it may come fresh from the planner or out of the database half done.
module Scheduler {
  import AgentPool
  import opened Plans
  import opened Graphs
  import opened Dependency
  import opened FileLocks

  // What a run meets: the subtasks whose agents succeed, and the pool it shares with other tasks.
  datatype Setting = Setting(wins: set<Id>, limits: AgentPool.PoolLimits, task: AgentPool.TaskId)

  // A plan with its graph and its setting.
  datatype Job = Job(plan: seq<Subtask>, nodes: map<Id, Subtask>, graph: Deps, setting: Setting)

  function JobFor(plan: seq<Subtask>, setting: Setting): Job {
    Job(plan, NodesOf(plan), EdgesOf(plan), setting)
  }

  // The statuses the graph starts from.
  function Initial(job: Job): Statuses {
    StatusesIn(job.nodes)
  }

  datatype State = State(
    status: Statuses,
    running: map<AgentId, Id>,
    locks: Locks,
    subtasks: seq<Subtask>)

  // Why a spawn was refused: a limit, with the agents the pool held then, or an error.
  datatype Refusal = PoolLimit(active: map<AgentId, AgentPool.TaskId>) | SpawnError

  datatype Event =
    | Refuse(id: Id, cause: Refusal)  // files locked, then the pool refuses
    // files locked, agent started by a pool with these agents
    | Spawn(id: Id, agent: AgentId, active: map<AgentId, AgentPool.TaskId>)
    | Finish(agent: AgentId)  // completion event, success or failure

  // ---------- steps ----------

  function Init(job: Job): State {
    State(Initial(job), map[], map[], job.plan)
  }

  function FilesOf(job: Job, id: Id): seq<File> {
    if id in job.nodes then job.nodes[id].filesInvolved else []
  }

  // The first subtask with the id gets the status.
  function SetStatus(subtasks: seq<Subtask>, id: Id, s: Status): (r: seq<Subtask>)
    ensures |r| == |subtasks|
  {
    if subtasks == [] then []
    else if subtasks[0].id == id then [subtasks[0].(status := s)] + subtasks[1..]
    else [subtasks[0]] + SetStatus(subtasks[1..], id, s)
  }

  predicate Startable(job: Job, s: State, id: Id) {
    && id in job.nodes
    && Ready(job.graph, s.status, id)
    && Lockable(s.locks, id, FilesOf(job, id))
  }

  predicate Refusable(job: Job, running: map<AgentId, Id>, cause: Refusal) {
    cause.PoolLimit? ==> AgentPool.MayRefuse(job.setting.limits, cause.active, job.setting.task, running.Keys)
  }

  predicate Admitted(job: Job, running: map<AgentId, Id>, active: map<AgentId, AgentPool.TaskId>) {
    AgentPool.MayAdmit(job.setting.limits, active, job.setting.task, running.Keys)
  }

  predicate Enabled(job: Job, s: State, e: Event) {
    match e
    case Refuse(id, cause) => Startable(job, s, id) && Refusable(job, s.running, cause)
    case Spawn(id, agent, active) =>
      Startable(job, s, id) && agent !in s.running && Admitted(job, s.running, active)
    case Finish(agent) => agent in s.running
  }

  function Verdict(job: Job, id: Id): Status {
    if id in job.setting.wins then Completed else Failed
  }

  ghost function Settle(job: Job, st: Statuses, id: Id): Statuses {
    if id in job.setting.wins then st[id := Completed] else Failing(job.graph, st, id)
  }

  ghost function Next(job: Job, s: State, e: Event): State
    requires Enabled(job, s, e)
  {
    match e
    case Refuse(id, _) => s.(locks := Acquired(s.locks, id, FilesOf(job, id)))
    case Spawn(id, agent, _) =>
      State(s.status[id := Running], s.running[agent := id],
            Acquired(s.locks, id, FilesOf(job, id)), SetStatus(s.subtasks, id, Running))
    case Finish(agent) =>
      var id := s.running[agent];
      State(Settle(job, s.status, id), s.running - {agent},
            Released(s.locks, id), SetStatus(s.subtasks, id, Verdict(job, id)))
  }

  // ---------- runs ----------

  ghost predicate Feasible(job: Job, run: seq<Event>)
    decreases |run|, 1
  {
    run == [] ||
    (Feasible(job, run[..|run| - 1]) && Enabled(job, After(job, run[..|run| - 1]), run[|run| - 1]))
  }

  ghost function After(job: Job, run: seq<Event>): State
    requires Feasible(job, run)
    decreases |run|, 2
  {
    if run == [] then Init(job)
    else Next(job, After(job, run[..|run| - 1]), run[|run| - 1])
  }

  lemma ExtendRun(job: Job, run: seq<Event>, e: Event)
    requires Feasible(job, run) && Enabled(job, After(job, run), e)
    ensures Feasible(job, run + [e]) && After(job, run + [e]) == Next(job, After(job, run), e)
  {
    assert (run + [e])[..|run|] == run;
  }

  lemma {:induction false} PrefixFeasible(job: Job, run: seq<Event>, k: nat)
    requires Feasible(job, run) && k <= |run|
    ensures Feasible(job, run[..k])
  {
    if k < |run| {
      PrefixFeasible(job, run[..|run| - 1], k);
      assert run[..|run| - 1][..k] == run[..k];
    } else {
      assert run[..k] == run;
    }
  }

  // ---------- the invariant ----------

  // A dependency was lost during the run: it was live at the start and is now failed or skipped.
  ghost predicate LosesDependency(g: Deps, st0: Statuses, st: Statuses, id: Id) {
    exists dep :: Edge(g, id, dep) && Live(st0, dep) && StatusOf(st, dep) in {Failed, Skipped}
  }

  // How a status may have come about: it has not changed; or the subtask was pending, has
  // all its dependencies completed, and runs or has ended as its agent says; or it was
  // live and has lost a dependency.
  ghost predicate Developed(job: Job, st0: Statuses, st: Statuses, id: Id) {
    var was, now := StatusOf(st0, id), StatusOf(st, id);
    || now == was
    || (was == Pending && now in {Running, Verdict(job, id)} && DepsCompleted(job.graph, st, id))
    || (Live(st0, id) && now == Skipped && LosesDependency(job.graph, st0, st, id))
  }

  // Nothing that has lost a dependency is still live.
  ghost predicate Unblocked(g: Deps, st0: Statuses, st: Statuses) {
    forall id :: Live(st, id) ==> !LosesDependency(g, st0, st, id)
  }

  ghost predicate StatusesSound(job: Job, st: Statuses) {
    && st.Keys == job.graph.Keys
    && Unblocked(job.graph, Initial(job), st)
    && forall id :: Developed(job, Initial(job), st, id)
  }

  ghost predicate HasAgent(running: map<AgentId, Id>, id: Id) {
    exists a :: a in running && running[a] == id
  }

  // The running map is a bijection onto the subtasks started by this run that run.
  ghost predicate RunningSound(job: Job, s: State) {
    && (forall a :: a in s.running ==>
          StatusOf(s.status, s.running[a]) == Running && StatusOf(Initial(job), s.running[a]) == Pending)
    && (forall a, b :: a in s.running && b in s.running && s.running[a] == s.running[b] ==> a == b)
    && (forall id :: StatusOf(s.status, id) == Running && StatusOf(Initial(job), id) != Running ==> HasAgent(s.running, id))
  }

  predicate HoldsAll(job: Job, locks: Locks, id: Id) {
    forall f :: f in FilesOf(job, id) ==> f in locks && locks[f] == id
  }

  ghost predicate MayHold(job: Job, s: State, id: Id) {
    id in job.nodes && (HasAgent(s.running, id) || Ready(job.graph, s.status, id))
  }

  // Lock holders have an agent or are ready, and hold exactly their files; every agent's
  // subtask holds all its files.
  ghost predicate LocksSound(job: Job, s: State) {
    && (forall f :: f in s.locks ==>
          f in FilesOf(job, s.locks[f]) && MayHold(job, s, s.locks[f]) && HoldsAll(job, s.locks, s.locks[f]))
    && (forall a :: a in s.running ==> HoldsAll(job, s.locks, s.running[a]))
  }

  // What the plan's status column shows: "skipped" is never written to it.
  function Shown(original: Status, s: Status): Status {
    if s == Running || s == Completed || s == Failed then s else original
  }

  ghost predicate PlanSound(job: Job, s: State) {
    UniqueIds(job.plan) ==>
      && |s.subtasks| == |job.plan|
      && forall k :: 0 <= k < |job.plan| ==>
           s.subtasks[k] == job.plan[k].(status := Shown(job.plan[k].status, StatusOf(s.status, job.plan[k].id)))
  }

  ghost predicate Inv(job: Job, s: State) {
    StatusesSound(job, s.status) && RunningSound(job, s) && LocksSound(job, s) && PlanSound(job, s)
  }

  // ---------- statuses ----------

  // One subtask moves; other live ones may only be skipped, for a reason.
  ghost predicate Moves(g: Deps, st0: Statuses, st: Statuses, st': Statuses, x: Id) {
    && st'.Keys == st.Keys
    && Live(st, x) && DepsCompleted(g, st, x)
    && StatusOf(st', x) in {Running, Completed, Failed}
    && forall id :: id != x ==>
         || StatusOf(st', id) == StatusOf(st, id)
         || (Live(st, id) && StatusOf(st', id) == Skipped && LosesDependency(g, st0, st', id))
  }

  lemma MovesKeepsCompleted(g: Deps, st0: Statuses, st: Statuses, st': Statuses, x: Id, id: Id)
    requires Moves(g, st0, st, st', x) && DepsCompleted(g, st, id)
    ensures DepsCompleted(g, st', id) && !LosesDependency(g, st0, st', id)
  {
  }

  lemma MovesKeepsLost(g: Deps, st0: Statuses, st: Statuses, st': Statuses, x: Id, id: Id)
    requires Moves(g, st0, st, st', x) && LosesDependency(g, st0, st, id)
    ensures LosesDependency(g, st0, st', id)
  {
    var dep :| Edge(g, id, dep) && Live(st0, dep) && StatusOf(st, dep) in {Failed, Skipped};
    assert StatusOf(st', dep) == StatusOf(st, dep);
  }

  lemma MovesKeepsDeveloped(job: Job, st0: Statuses, st: Statuses, st': Statuses, x: Id, id: Id)
    requires Moves(job.graph, st0, st, st', x) && Developed(job, st0, st, id)
    requires StatusOf(st0, x) == Pending && StatusOf(st', x) in {Running, Verdict(job, x)}
    ensures Developed(job, st0, st', id)
  {
    hide DepsCompleted, LosesDependency;
    if id == x || DepsCompleted(job.graph, st, id) {
      MovesKeepsCompleted(job.graph, st0, st, st', x, id);
    }
    if LosesDependency(job.graph, st0, st, id) {
      MovesKeepsLost(job.graph, st0, st, st', x, id);
    }
  }

  // What reaches a failing subtask through live nodes still waits for a dependency.  So a
  // failure never skips a subtask that an agent works on.
  lemma OnlyWaitingSkipped(g: Deps, st: Statuses, x: Id, y: Id)
    requires StatusOf(st, x) == Running && DepsCompleted(g, st, x)
    requires LiveReaches(g, st[x := Failed], y, x)
    ensures y != x && Live(st, y) && !DepsCompleted(g, st, y)
  {
    LiveReachesLive(g, st[x := Failed], y, x);
    var z :| Edge(g, y, z) && (z == x || LiveReaches(g, st[x := Failed], z, x));
    if z != x {
      LiveReachesLive(g, st[x := Failed], z, x);
    }
    assert StatusOf(st, z) != Completed;
  }

  lemma FailingMoves(g: Deps, st0: Statuses, st: Statuses, x: Id)
    requires StatusOf(st, x) == Running && DepsCompleted(g, st, x)
    requires forall id :: Live(st, id) ==> Live(st0, id)
    ensures Moves(g, st0, st, Failing(g, st, x), x) && StatusOf(Failing(g, st, x), x) == Failed
  {
    var st1 := st[x := Failed];
    var r := Failing(g, st, x);
    assert x in st;
    SkippingFacts(g, st1, x);
    if LiveReaches(g, st1, x, x) {
      OnlyWaitingSkipped(g, st, x, x);
    }
    forall id | id != x && StatusOf(r, id) != StatusOf(st, id)
      ensures Live(st, id) && StatusOf(r, id) == Skipped && LosesDependency(g, st0, r, id)
    {
      LiveReachesLive(g, st1, id, x);
      var z :| Edge(g, id, z) && (z == x || LiveReaches(g, st1, z, x));
      if z != x {
        LiveReachesLive(g, st1, z, x);
      }
      assert Live(st, z) && StatusOf(r, z) in {Failed, Skipped};
    }
  }

  lemma FailingKeepsUnblocked(g: Deps, st0: Statuses, st: Statuses, x: Id)
    requires Unblocked(g, st0, st) && StatusOf(st, x) == Running
    ensures Unblocked(g, st0, Failing(g, st, x))
  {
    var r := Failing(g, st, x);
    SkippingFacts(g, st[x := Failed], x);
    forall id | Live(r, id) ensures !LosesDependency(g, st0, r, id) {
      assert Live(st, id);
      forall dep | Edge(g, id, dep) && Live(st0, dep) ensures StatusOf(r, dep) !in {Failed, Skipped} {
        assert dep != x && StatusOf(r, dep) == StatusOf(st, dep);
      }
    }
  }

  lemma LiveFromStart(job: Job, st: Statuses)
    requires StatusesSound(job, st)
    ensures forall id :: Live(st, id) ==> Live(Initial(job), id)
  {
    forall id | Live(st, id) ensures Live(Initial(job), id) {
      assert Developed(job, Initial(job), st, id);
    }
  }

  // The status update of an event that moves a subtask.
  lemma StepMoves(job: Job, s: State, e: Event) returns (x: Id)
    requires Inv(job, s) && Enabled(job, s, e) && !e.Refuse?
    ensures x == if e.Spawn? then e.id else s.running[e.agent]
    ensures StatusOf(Initial(job), x) == Pending
    ensures Moves(job.graph, Initial(job), s.status, Next(job, s, e).status, x)
    ensures StatusOf(Next(job, s, e).status, x) == if e.Spawn? then Running else Verdict(job, x)
  {
    match e {
      case Spawn(id, _, _) =>
        x := id;
        assert Developed(job, Initial(job), s.status, x);
      case Finish(agent) =>
        x := s.running[agent];
        assert Developed(job, Initial(job), s.status, x);
        if x !in job.setting.wins {
          LiveFromStart(job, s.status);
          FailingMoves(job.graph, Initial(job), s.status, x);
        }
    }
  }

  lemma StepKeepsUnblocked(job: Job, s: State, e: Event)
    requires Inv(job, s) && Enabled(job, s, e)
    ensures Unblocked(job.graph, Initial(job), Next(job, s, e).status)
  {
    hide Developed, LocksSound, PlanSound;
    if e.Finish? && s.running[e.agent] !in job.setting.wins {
      FailingKeepsUnblocked(job.graph, Initial(job), s.status, s.running[e.agent]);
    } else {
      var st' := Next(job, s, e).status;
      forall id | Live(st', id) ensures !LosesDependency(job.graph, Initial(job), st', id) {
        assert !LosesDependency(job.graph, Initial(job), s.status, id);
      }
    }
  }

  lemma StepKeepsStatuses(job: Job, s: State, e: Event)
    requires Inv(job, s) && Enabled(job, s, e)
    ensures StatusesSound(job, Next(job, s, e).status)
  {
    StepKeepsUnblocked(job, s, e);
    if !e.Refuse? {
      var x := StepMoves(job, s, e);
      hide Developed, Moves, Enabled, Unblocked;
      forall id ensures Developed(job, Initial(job), Next(job, s, e).status, id) {
        MovesKeepsDeveloped(job, Initial(job), s.status, Next(job, s, e).status, x, id);
      }
    }
  }

  // ---------- running agents, locks and the plan ----------

  // An agent's subtask has all its dependencies completed, so it is never skipped.
  lemma AgentsKeepRunning(job: Job, s: State, st': Statuses, x: Id, id: Id)
    requires Inv(job, s) && Moves(job.graph, Initial(job), s.status, st', x)
    requires HasAgent(s.running, id) && id != x
    ensures StatusOf(st', id) == Running
  {
    assert Developed(job, Initial(job), s.status, id);
    MovesKeepsCompleted(job.graph, Initial(job), s.status, st', x, id);
  }

  lemma SpawnKeepsRunning(job: Job, s: State, t: State, x: Id, agent: AgentId)
    requires Inv(job, s) && Moves(job.graph, Initial(job), s.status, t.status, x)
    requires StatusOf(s.status, x) == Pending && StatusOf(t.status, x) == Running && StatusOf(Initial(job), x) == Pending
    requires agent !in s.running && t.running == s.running[agent := x]
    ensures RunningSound(job, t)
  {
    forall id | StatusOf(t.status, id) == Running && StatusOf(Initial(job), id) != Running
      ensures HasAgent(t.running, id)
    {
      if id == x {
        assert t.running[agent] == id;
      } else {
        var a :| a in s.running && s.running[a] == id;
        assert t.running[a] == id;
      }
    }
    forall a | a in t.running && a != agent ensures StatusOf(t.status, t.running[a]) == Running {
      AgentsKeepRunning(job, s, t.status, x, s.running[a]);
    }
  }

  lemma FinishKeepsRunning(job: Job, s: State, t: State, x: Id, agent: AgentId)
    requires Inv(job, s) && Moves(job.graph, Initial(job), s.status, t.status, x)
    requires StatusOf(t.status, x) != Running
    requires agent in s.running && s.running[agent] == x && t.running == s.running - {agent}
    ensures RunningSound(job, t)
  {
    forall id | StatusOf(t.status, id) == Running && StatusOf(Initial(job), id) != Running
      ensures HasAgent(t.running, id)
    {
      var a :| a in s.running && s.running[a] == id;
      assert a in t.running && t.running[a] == id;
    }
    forall a | a in t.running ensures StatusOf(t.status, t.running[a]) == Running {
      AgentsKeepRunning(job, s, t.status, x, s.running[a]);
    }
  }

  lemma StepKeepsRunning(job: Job, s: State, e: Event)
    requires Inv(job, s) && Enabled(job, s, e)
    ensures RunningSound(job, Next(job, s, e))
  {
    match e
    case Refuse(_, _) =>
    case Spawn(id, agent, _) =>
      var x := StepMoves(job, s, e);
      SpawnKeepsRunning(job, s, Next(job, s, e), id, agent);
    case Finish(agent) =>
      var x := StepMoves(job, s, e);
      FinishKeepsRunning(job, s, Next(job, s, e), x, agent);
  }

  // Whoever holds all its files keeps them until it finishes.
  lemma HoldersPersist(job: Job, s: State, e: Event, h: Id)
    requires Enabled(job, s, e)
    requires HoldsAll(job, s.locks, h) && (e.Finish? ==> h != s.running[e.agent])
    ensures HoldsAll(job, Next(job, s, e).locks, h)
  {
    if !e.Finish? {
      forall f | f in FilesOf(job, h) ensures Next(job, s, e).locks[f] == h {
        if f in FilesOf(job, e.id) {
          assert s.locks[f] == e.id;
        }
      }
    }
  }

  lemma StepKeepsMayHold(job: Job, s: State, e: Event, h: Id)
    requires Inv(job, s) && Enabled(job, s, e) && MayHold(job, s, h)
    requires e.Finish? ==> h != s.running[e.agent]
    ensures MayHold(job, Next(job, s, e), h)
  {
    if e.Refuse? { return; }
    var x := StepMoves(job, s, e);
    var t := Next(job, s, e);
    if HasAgent(s.running, h) {
      var a :| a in s.running && s.running[a] == h;
      assert t.running[a] == h;
    } else if h == x {
      assert t.running[e.agent] == h;
    } else {
      MovesKeepsCompleted(job.graph, Initial(job), s.status, t.status, x, h);
    }
  }

  lemma StepKeepsLocks(job: Job, s: State, e: Event)
    requires Inv(job, s) && Enabled(job, s, e)
    ensures LocksSound(job, Next(job, s, e))
  {
    var t := Next(job, s, e);
    forall f | f in t.locks
      ensures f in FilesOf(job, t.locks[f]) && MayHold(job, t, t.locks[f]) && HoldsAll(job, t.locks, t.locks[f])
    {
      var h := t.locks[f];
      if !e.Finish? && h == e.id {
        StepKeepsMayHold(job, s, e, h);
      } else {
        assert f in s.locks && s.locks[f] == h;
        StepKeepsMayHold(job, s, e, h);
        HoldersPersist(job, s, e, h);
      }
    }
    forall a | a in t.running ensures HoldsAll(job, t.locks, t.running[a]) {
      if !(e.Spawn? && a == e.agent) {
        HoldersPersist(job, s, e, s.running[a]);
      }
    }
  }

  lemma {:induction false} SetStatusAt(subtasks: seq<Subtask>, id: Id, s: Status, k: nat)
    requires UniqueIds(subtasks) && k < |subtasks|
    ensures SetStatus(subtasks, id, s)[k] ==
            if subtasks[k].id == id then subtasks[k].(status := s) else subtasks[k]
  {
    if subtasks[0].id != id && k > 0 {
      SetStatusAt(subtasks[1..], id, s, k - 1);
    }
  }

  // The first row with the id shows the status, and no other row has changed.
  predicate Marked(before: seq<Subtask>, after: seq<Subtask>, id: Id, s: Status) {
    && |after| == |before|
    && forall k :: 0 <= k < |before| ==>
         after[k] == if FirstWith(before, id, k) then before[k].(status := s) else before[k]
  }

  lemma {:induction false} SetStatusMarks(subtasks: seq<Subtask>, id: Id, s: Status)
    ensures Marked(subtasks, SetStatus(subtasks, id, s), id, s)
  {
    if subtasks != [] && subtasks[0].id != id {
      var rest := subtasks[1..];
      SetStatusMarks(rest, id, s);
      forall k | 1 <= k < |subtasks| ensures FirstWith(subtasks, id, k) <==> FirstWith(rest, id, k - 1) {
        assert forall j :: 0 < j <= k ==> rest[j - 1] == subtasks[j];
      }
    }
  }

  // A subtask that is skipped while the graph shows it as running was shown so from the start.
  lemma SkippedKeepsColumn(job: Job, s: State, st': Statuses, x: Id, k: nat)
    requires Inv(job, s) && Moves(job.graph, Initial(job), s.status, st', x)
    requires UniqueIds(job.plan) && job.nodes == NodesOf(job.plan) && k < |job.plan| && job.plan[k].id != x
    ensures Shown(job.plan[k].status, StatusOf(st', job.plan[k].id)) ==
            Shown(job.plan[k].status, StatusOf(s.status, job.plan[k].id))
  {
    var id := job.plan[k].id;
    NodesOfUnique(job.plan);
    assert job.plan[k] in job.plan;
    hide NodesOf, LocksSound, PlanSound, DepsCompleted, LosesDependency, Unblocked, Developed, UniqueIds;
    if HasAgent(s.running, id) {
      AgentsKeepRunning(job, s, st', x, id);
    }
  }

  // One cell of the column after subtask `x` moved to status `v`.
  lemma CellMoves(job: Job, s: State, st': Statuses, x: Id, v: Status, k: nat)
    requires Inv(job, s) && Moves(job.graph, Initial(job), s.status, st', x) && StatusOf(st', x) == v
    requires UniqueIds(job.plan) && job.nodes == NodesOf(job.plan) && k < |job.plan| == |s.subtasks|
    ensures SetStatus(s.subtasks, x, v)[k] ==
            job.plan[k].(status := Shown(job.plan[k].status, StatusOf(st', job.plan[k].id)))
  {
    if job.plan[k].id != x {
      SkippedKeepsColumn(job, s, st', x, k);
    }
    hide SetStatus, StatusesSound, LocksSound, RunningSound, NodesOf, Initial;
    assert UniqueIds(s.subtasks);
    SetStatusAt(s.subtasks, x, v, k);
  }

  lemma StepKeepsPlan(job: Job, s: State, e: Event)
    requires Inv(job, s) && Enabled(job, s, e) && job.nodes == NodesOf(job.plan)
    ensures PlanSound(job, Next(job, s, e))
  {
    if e.Refuse? || !UniqueIds(job.plan) { return; }
    var x := StepMoves(job, s, e);
    hide Settle, SetStatus, Startable, StatusesSound, LocksSound, RunningSound, Moves, NodesOf, Initial, Shown;
    var t := Next(job, s, e);
    forall k | 0 <= k < |job.plan|
      ensures t.subtasks[k] ==
        job.plan[k].(status := Shown(job.plan[k].status, StatusOf(t.status, job.plan[k].id)))
    {
      CellMoves(job, s, t.status, x, if e.Spawn? then Running else Verdict(job, x), k);
    }
  }

  lemma StepKeepsInv(job: Job, s: State, e: Event)
    requires Inv(job, s) && Enabled(job, s, e) && job.nodes == NodesOf(job.plan)
    ensures Inv(job, Next(job, s, e))
  {
    StepKeepsStatuses(job, s, e);
    StepKeepsRunning(job, s, e);
    StepKeepsLocks(job, s, e);
    StepKeepsPlan(job, s, e);
  }

  lemma NothingHappened(job: Job, s: State)
    requires s.status == Initial(job) && s.status.Keys == job.graph.Keys && s.running == map[] && s.locks == map[]
    ensures StatusesSound(job, s.status) && RunningSound(job, s) && LocksSound(job, s)
  {
    hide Initial;
    assert forall a: AgentId :: a !in s.running;
    assert forall f: File :: f !in s.locks;
  }

  // Nothing has happened yet, whatever statuses the plan came with.
  lemma InitSound(plan: seq<Subtask>, setting: Setting)
    ensures Inv(JobFor(plan, setting), Init(JobFor(plan, setting)))
  {
    var job := JobFor(plan, setting);
    assert Initial(job).Keys == job.graph.Keys;
    assert PlanSound(job, Init(job)) by {
      if UniqueIds(plan) {
        NodesOfUnique(plan);
      }
    }
    hide Initial, NodesOf, EdgesIn, PlanSound, StatusesSound, RunningSound, LocksSound;
    NothingHappened(job, Init(job));
  }

  // Every reachable state satisfies the invariant.
  lemma {:induction false} ReachableSound(plan: seq<Subtask>, setting: Setting, run: seq<Event>)
    requires Feasible(JobFor(plan, setting), run)
    ensures Inv(JobFor(plan, setting), After(JobFor(plan, setting), run))
  {
    if run == [] {
      InitSound(plan, setting);
    } else {
      ReachableSound(plan, setting, run[..|run| - 1]);
      StepKeepsInv(JobFor(plan, setting), After(JobFor(plan, setting), run[..|run| - 1]), run[|run| - 1]);
    }
  }
}
