// The agent pool under interleaved spawns (internal/agent/pool.go).  Spawn checks the
// limits in one critical section and inserts in another; in between it is in flight.
module AgentPool {
  import opened Basics
  import opened Plans

  type TaskId = nat

  datatype AgentResult = AgentResult(exitCode: int, failed: bool)

  // ---------- the pool as a step system ----------

  datatype Limits = Limits(maxAgents: int, maxPerTask: int)

  // NewPool replaces a limit per task below one by its default.
  type PoolLimits = l: Limits | l.maxPerTask >= 1 witness Limits(0, 1)

  datatype State = State(active: map<AgentId, TaskId>, waiters: set<AgentId>, inFlight: map<AgentId, TaskId>)

  datatype Action =
    | Admit(agent: AgentId, task: TaskId)  // first critical section, limits respected
    | Abort(agent: AgentId)                // creating or starting the container failed
    | Register(agent: AgentId)             // second critical section
    | Exit(agent: AgentId)                 // monitorContainer's removal

  function OfTask(agents: map<AgentId, TaskId>, task: TaskId): set<AgentId> {
    set a | a in agents && agents[a] == task
  }

  predicate Admits(l: Limits, active: map<AgentId, TaskId>, task: TaskId) {
    |active| < l.maxAgents && |OfTask(active, task)| < l.maxPerTask
  }

  // The pool may report a limit to a task whose loop counts `running` agents: an agent leaves
  // the pool before its completion is handled, so the ones still there are among those.
  predicate MayRefuse(l: Limits, active: map<AgentId, TaskId>, task: TaskId, running: set<AgentId>) {
    OfTask(active, task) <= running && !Admits(l, active, task)
  }

  // Or it has room for one more.
  predicate MayAdmit(l: Limits, active: map<AgentId, TaskId>, task: TaskId, running: set<AgentId>) {
    OfTask(active, task) <= running && Admits(l, active, task)
  }

  predicate Enabled(l: Limits, s: State, a: Action) {
    match a
    case Admit(agent, task) => agent !in s.active && agent !in s.inFlight && Admits(l, s.active, task)
    case Abort(agent) => agent in s.inFlight
    case Register(agent) => agent in s.inFlight
    case Exit(agent) => agent in s.active
  }

  function Next(s: State, a: Action): State
    requires a.Abort? || a.Register? ==> a.agent in s.inFlight
  {
    match a
    case Admit(agent, task) => s.(inFlight := s.inFlight[agent := task])
    case Abort(agent) => s.(inFlight := s.inFlight - {agent})
    case Register(agent) =>
      State(s.active[agent := s.inFlight[agent]], s.waiters + {agent}, s.inFlight - {agent})
    case Exit(agent) => State(s.active - {agent}, s.waiters - {agent}, s.inFlight)
  }

  // A run with at most `k` spawns in flight at any time.
  ghost predicate Feasible(l: Limits, k: nat, run: seq<Action>)
    decreases |run|, 1
  {
    run == [] ||
    (&& Feasible(l, k, run[..|run| - 1])
     && Enabled(l, After(l, k, run[..|run| - 1]), run[|run| - 1])
     && |Next(After(l, k, run[..|run| - 1]), run[|run| - 1]).inFlight| <= k)
  }

  ghost function After(l: Limits, k: nat, run: seq<Action>): State
    requires Feasible(l, k, run)
    decreases |run|, 2
  {
    if run == [] then State(map[], {}, map[])
    else Next(After(l, k, run[..|run| - 1]), run[|run| - 1])
  }

  // ---------- the bound ----------

  function Plus(limit: int, k: nat): nat {
    if limit - 1 + k < 0 then 0 else limit - 1 + k
  }

  ghost predicate Sound(l: Limits, k: nat, s: State) {
    && s.waiters == s.active.Keys
    && s.active.Keys !! s.inFlight.Keys
    && |s.inFlight| <= k
    && (l.maxAgents < 1 ==> s.active == map[] && s.inFlight == map[])
    && |s.active| + |s.inFlight| <= Plus(l.maxAgents, k)
    && forall t :: |OfTask(s.active, t)| + |OfTask(s.inFlight, t)| <= Plus(l.maxPerTask, k)
  }

  lemma AddedSize(m: map<AgentId, TaskId>, agent: AgentId, task: TaskId)
    requires agent !in m
    ensures |m[agent := task]| == |m| + 1
    ensures forall t :: |OfTask(m[agent := task], t)| == |OfTask(m, t)| + if t == task then 1 else 0
  {
    assert m[agent := task].Keys == m.Keys + {agent};
    assert |m[agent := task].Keys| == |m[agent := task]|;
    forall t ensures |OfTask(m[agent := task], t)| == |OfTask(m, t)| + if t == task then 1 else 0 {
      AddedOfTask(m, agent, task, t);
    }
  }

  lemma AddedOfTask(m: map<AgentId, TaskId>, agent: AgentId, task: TaskId, t: TaskId)
    requires agent !in m
    ensures |OfTask(m[agent := task], t)| == |OfTask(m, t)| + if t == task then 1 else 0
  {
    if t == task {
      assert OfTask(m[agent := task], t) == OfTask(m, t) + {agent};
    } else {
      assert OfTask(m[agent := task], t) == OfTask(m, t);
    }
  }

  lemma RemovedSize(m: map<AgentId, TaskId>, agent: AgentId)
    requires agent in m
    ensures |m - {agent}| == |m| - 1
    ensures forall t :: |OfTask(m - {agent}, t)| == |OfTask(m, t)| - if t == m[agent] then 1 else 0
  {
    var rest := m - {agent};
    WithoutSize(m, agent);
    assert rest[agent := m[agent]] == m;
    forall t ensures |OfTask(rest, t)| == |OfTask(m, t)| - if t == m[agent] then 1 else 0 {
      AddedOfTask(rest, agent, m[agent], t);
    }
  }

  lemma AdmitKeepsSound(l: Limits, k: nat, s: State, a: Action)
    requires Sound(l, k, s) && Enabled(l, s, a) && a.Admit?
    requires |Next(s, a).inFlight| <= k
    ensures Sound(l, k, Next(s, a))
  {
    var t := Next(s, a);
    AddedSize(s.inFlight, a.agent, a.task);
    forall task ensures |OfTask(t.active, task)| + |OfTask(t.inFlight, task)| <= Plus(l.maxPerTask, k) {
      if task == a.task {
        SubsetSize(OfTask(t.inFlight, task), t.inFlight.Keys);
        assert |t.inFlight.Keys| == |t.inFlight|;
      }
    }
  }

  lemma RegisterKeepsSound(l: Limits, k: nat, s: State, a: Action)
    requires Sound(l, k, s) && Enabled(l, s, a) && a.Register?
    ensures Sound(l, k, Next(s, a))
  {
    RemovedSize(s.inFlight, a.agent);
    AddedSize(s.active, a.agent, s.inFlight[a.agent]);
  }

  lemma LeavingKeepsSound(l: Limits, k: nat, s: State, a: Action)
    requires Sound(l, k, s) && Enabled(l, s, a) && (a.Abort? || a.Exit?)
    ensures Sound(l, k, Next(s, a))
  {
    if a.Abort? {
      RemovedSize(s.inFlight, a.agent);
    } else {
      RemovedSize(s.active, a.agent);
    }
  }

  // With at most k spawns in flight, active and in-flight agents together never exceed
  // maxAgents - 1 + k, nor maxPerTask - 1 + k for any task.
  lemma {:induction false} PoolBound(l: Limits, k: nat, run: seq<Action>)
    requires Feasible(l, k, run)
    ensures Sound(l, k, After(l, k, run))
  {
    if run != [] {
      PoolBound(l, k, run[..|run| - 1]);
      var s, a := After(l, k, run[..|run| - 1]), run[|run| - 1];
      match a
      case Admit(_, _) => AdmitKeepsSound(l, k, s, a);
      case Register(_) => RegisterKeepsSound(l, k, s, a);
      case _ => LeavingKeepsSound(l, k, s, a);
    }
  }

  // Spawning one at a time respects the configured limits.
  lemma LoneSpawnerRespectsLimits(l: Limits, run: seq<Action>, t: TaskId)
    requires l.maxAgents >= 0 && l.maxPerTask >= 0 && Feasible(l, 1, run)
    ensures var s := After(l, 1, run); |s.active| <= l.maxAgents && |OfTask(s.active, t)| <= l.maxPerTask
  {
    PoolBound(l, 1, run);
  }

  // A task with no agent of its own is refused exactly when agents of other tasks fill the pool.
  lemma IdleRefusal(l: Limits, active: map<AgentId, TaskId>, task: TaskId)
    requires OfTask(active, task) == {} && l.maxPerTask >= 1
    ensures !Admits(l, active, task) <==> |set a | a in active && active[a] != task| >= l.maxAgents
  {
    assert (set a | a in active && active[a] != task) == active.Keys - OfTask(active, task);
    assert |active.Keys| == |active|;
  }

  // ---------- the bound is reached ----------

  // The task of an agent: one task for all of them, or each its own.
  function Owner(shared: bool, agent: AgentId): TaskId {
    if shared then 0 else agent
  }

  // Agents 0, ..., n - 1 are active and agents n, ..., m - 1 in flight.
  ghost predicate Shape(s: State, shared: bool, n: nat, m: nat) {
    && (forall a :: a in s.active ==> a < n && s.active[a] == Owner(shared, a))
    && |s.active| == n
    && (forall a :: a in s.inFlight <==> n <= a < m)
    && (forall a :: a in s.inFlight ==> s.inFlight[a] == Owner(shared, a))
    && |s.inFlight| == m - n
  }

  // With `n` agents active one more passes the check.
  predicate RoomFor(l: Limits, shared: bool, n: nat) {
    n < l.maxAgents && (if shared then n else 0) < l.maxPerTask
  }

  lemma AdmitsNext(l: Limits, s: State, shared: bool, n: nat, m: nat)
    requires Shape(s, shared, n, m) && n <= m && RoomFor(l, shared, n)
    ensures Admits(l, s.active, Owner(shared, m))
  {
    if shared {
      assert OfTask(s.active, 0) == s.active.Keys;
      assert |s.active.Keys| == |s.active|;
    } else {
      assert OfTask(s.active, m) == {};
    }
  }

  lemma Extend(l: Limits, k: nat, run: seq<Action>, a: Action)
    requires Feasible(l, k, run) && Enabled(l, After(l, k, run), a) && |Next(After(l, k, run), a).inFlight| <= k
    ensures Feasible(l, k, run + [a]) && After(l, k, run + [a]) == Next(After(l, k, run), a)
  {
    assert (run + [a])[..|run|] == run;
  }

  lemma AdmitNext(l: Limits, k: nat, run: seq<Action>, shared: bool, n: nat, m: nat)
    requires Feasible(l, k, run) && Shape(After(l, k, run), shared, n, m)
    requires n <= m < n + k && RoomFor(l, shared, n)
    ensures var longer := run + [Admit(m, Owner(shared, m))];
      Feasible(l, k, longer) && Shape(After(l, k, longer), shared, n, m + 1)
  {
    hide After, Feasible;
    var s := After(l, k, run);
    AdmitsNext(l, s, shared, n, m);
    AddedSize(s.inFlight, m, Owner(shared, m));
    Extend(l, k, run, Admit(m, Owner(shared, m)));
  }

  lemma RegisterNext(l: Limits, k: nat, run: seq<Action>, shared: bool, n: nat, m: nat)
    requires Feasible(l, k, run) && Shape(After(l, k, run), shared, n, m) && n < m <= n + k
    ensures Feasible(l, k, run + [Register(n)]) && Shape(After(l, k, run + [Register(n)]), shared, n + 1, m)
  {
    hide After, Feasible;
    var s := After(l, k, run);
    RemovedSize(s.inFlight, n);
    AddedSize(s.active, n, Owner(shared, n));
    Extend(l, k, run, Register(n));
  }

  lemma NoneYet(l: Limits, k: nat, shared: bool)
    ensures Feasible(l, k, []) && Shape(After(l, k, []), shared, 0, 0)
  {
  }

  lemma SpawnNext(l: Limits, k: nat, before: seq<Action>, shared: bool, n: nat) returns (run: seq<Action>)
    requires Feasible(l, k, before) && Shape(After(l, k, before), shared, n, n)
    requires RoomFor(l, shared, n) && 1 <= k
    ensures Feasible(l, k, run) && Shape(After(l, k, run), shared, n + 1, n + 1)
  {
    hide After, Feasible, Shape, RoomFor;
    AdmitNext(l, k, before, shared, n, n);
    var admitted := before + [Admit(n, Owner(shared, n))];
    RegisterNext(l, k, admitted, shared, n, n + 1);
    run := admitted + [Register(n)];
  }

  // Agents spawned one after the other.
  lemma {:induction false} FillUp(l: Limits, k: nat, shared: bool, n: nat) returns (run: seq<Action>)
    requires RoomFor(l, shared, n) && 1 <= k
    ensures Feasible(l, k, run) && Shape(After(l, k, run), shared, n, n)
  {
    hide After, Feasible, Shape;
    if n == 0 {
      NoneYet(l, k, shared);
      run := [];
    } else {
      var before := FillUp(l, k, shared, n - 1);
      run := SpawnNext(l, k, before, shared, n - 1);
    }
  }

  // Then more that all pass the check before any is registered.
  lemma {:induction false} Crowd(l: Limits, k: nat, shared: bool, n: nat, m: nat) returns (run: seq<Action>)
    requires n <= m <= n + k && RoomFor(l, shared, n) && 1 <= k
    ensures Feasible(l, k, run) && Shape(After(l, k, run), shared, n, m)
    decreases m
  {
    hide After, Feasible, Shape, RoomFor;
    if n < m {
      var before := Crowd(l, k, shared, n, m - 1);
      AdmitNext(l, k, before, shared, n, m - 1);
      run := before + [Admit(m - 1, Owner(shared, m - 1))];
    } else {
      run := FillUp(l, k, shared, n);
    }
  }

  lemma {:induction false} Land(l: Limits, k: nat, shared: bool, n: nat, m: nat, crowd: seq<Action>) returns (run: seq<Action>)
    requires Feasible(l, k, crowd) && Shape(After(l, k, crowd), shared, n, m) && n <= m <= n + k
    ensures Feasible(l, k, run) && Shape(After(l, k, run), shared, m, m)
    decreases m - n
  {
    hide After, Feasible, Shape;
    run := crowd;
    if n < m {
      RegisterNext(l, k, crowd, shared, n, m);
      run := Land(l, k, shared, n + 1, m, crowd + [Register(n)]);
    }
  }

  // The bound is exact: with k concurrent spawns the pool really can hold
  // maxAgents - 1 + k active agents.
  lemma BoundIsReached(l: Limits, k: nat) returns (run: seq<Action>)
    requires 1 <= l.maxAgents && 1 <= l.maxPerTask && 1 <= k
    ensures Feasible(l, k, run) && |After(l, k, run).active| == l.maxAgents - 1 + k
  {
    var crowd := Crowd(l, k, false, l.maxAgents - 1, l.maxAgents - 1 + k);
    run := Land(l, k, false, l.maxAgents - 1, l.maxAgents - 1 + k, crowd);
  }

  function Min(a: int, b: int): int {
    if a < b then a else b
  }

  // The most agents of one task that k concurrent spawns can bring about.
  lemma TaskBound(l: Limits, k: nat, run: seq<Action>, t: TaskId)
    requires 1 <= l.maxAgents && 1 <= l.maxPerTask && Feasible(l, k, run)
    ensures |OfTask(After(l, k, run).active, t)| <= Min(l.maxAgents, l.maxPerTask) - 1 + k
  {
    PoolBound(l, k, run);
    var active := After(l, k, run).active;
    SubsetSize(OfTask(active, t), active.Keys);
    assert |active.Keys| == |active|;
  }

  // It is reached as well.
  lemma TaskBoundIsReached(l: Limits, k: nat) returns (run: seq<Action>)
    requires 1 <= l.maxAgents && 1 <= l.maxPerTask && 1 <= k
    ensures Feasible(l, k, run)
    ensures |OfTask(After(l, k, run).active, 0)| == Min(l.maxAgents, l.maxPerTask) - 1 + k
  {
    var n := Min(l.maxAgents, l.maxPerTask) - 1;
    var crowd := Crowd(l, k, true, n, n + k);
    run := Land(l, k, true, n, n + k, crowd);
    var active := After(l, k, run).active;
    assert OfTask(active, 0) == active.Keys;
    assert |active.Keys| == |active|;
  }

  ghost predicate RespectsPool(l: Limits, k: nat, run: seq<Action>)
    requires Feasible(l, k, run)
  {
    |After(l, k, run).active| <= l.maxAgents
  }

  ghost predicate RespectsTask(l: Limits, k: nat, run: seq<Action>, t: TaskId)
    requires Feasible(l, k, run)
  {
    |OfTask(After(l, k, run).active, t)| <= l.maxPerTask
  }

  // The pool's limit is safe exactly when spawns never overlap.
  lemma PoolLimitExactlyWhen(l: Limits, k: nat)
    requires 1 <= l.maxAgents && 1 <= l.maxPerTask && 1 <= k
    ensures (forall run :: Feasible(l, k, run) ==> RespectsPool(l, k, run)) <==> k <= 1
  {
    if k <= 1 {
      forall run | Feasible(l, k, run) ensures RespectsPool(l, k, run) {
        PoolBound(l, k, run);
      }
    } else {
      var run := BoundIsReached(l, k);
      assert !RespectsPool(l, k, run);
    }
  }

  // The limit per task is safe exactly when spawns never overlap, or the pool is so small
  // that its own bound keeps within it.
  lemma TaskLimitExactlyWhen(l: Limits, k: nat)
    requires 1 <= l.maxAgents && 1 <= l.maxPerTask && 1 <= k
    ensures (forall run, t :: Feasible(l, k, run) ==> RespectsTask(l, k, run, t)) <==>
            Min(l.maxAgents, l.maxPerTask) - 1 + k <= l.maxPerTask
  {
    if Min(l.maxAgents, l.maxPerTask) - 1 + k <= l.maxPerTask {
      forall run, t | Feasible(l, k, run) ensures RespectsTask(l, k, run, t) {
        TaskBound(l, k, run, t);
      }
    } else {
      var run := TaskBoundIsReached(l, k);
      assert !RespectsTask(l, k, run, 0);
    }
  }

  // ---------- the class ----------

  class ResultChannel {
    var sent: seq<AgentResult>
    var closed: bool

    constructor ()
      ensures sent == [] && !closed
    {
      sent, closed := [], false;
    }

    // Sending on a closed channel, or closing it twice, would panic.
    method SendAndClose(r: AgentResult)
      requires !closed
      modifies this
      ensures sent == old(sent) + [r] && closed
    {
      sent, closed := sent + [r], true;
    }
  }

  datatype Check = PoolFull | TaskLimitReached | Admitted

  class Pool {
    const limits: PoolLimits
    var active: map<AgentId, TaskId>
    var waiters: map<AgentId, ResultChannel>
    ghost var inFlight: map<AgentId, TaskId>

    // Every active agent has a channel of its own on which nothing has been sent.
    ghost predicate Valid()
      reads this, waiters.Values
    {
      && waiters.Keys == active.Keys && active.Keys !! inFlight.Keys
      && (forall a :: a in waiters ==> waiters[a].sent == [] && !waiters[a].closed)
      && (forall a, b :: a in waiters && b in waiters && waiters[a] == waiters[b] ==> a == b)
    }

    ghost function Abstract(): State
      reads this
    {
      State(active, waiters.Keys, inFlight)
    }

    constructor (maxAgents: int, maxPerTask: int)
      ensures Valid() && Abstract() == State(map[], {}, map[])
      ensures limits == Limits(maxAgents, if maxPerTask <= 0 then 3 else maxPerTask)
    {
      limits := Limits(maxAgents, if maxPerTask <= 0 then 3 else maxPerTask);
      active, waiters := map[], map[];
      inFlight := map[];
    }

    // The first critical section of Spawn, then the fresh agent id.
    method BeginSpawn(agent: AgentId, task: TaskId) returns (check: Check)
      requires Valid() && agent !in active && agent !in inFlight
      modifies `inFlight
      ensures Valid()
      ensures check == PoolFull <==> |active| >= limits.maxAgents
      ensures check == Admitted <==> Enabled(limits, old(Abstract()), Admit(agent, task))
      ensures Abstract() ==
              if check == Admitted then Next(old(Abstract()), Admit(agent, task)) else old(Abstract())
    {
      if |active| >= limits.maxAgents {
        return PoolFull;
      }
      var taskCount := CountOf(task);
      if taskCount >= limits.maxPerTask {
        return TaskLimitReached;
      }
      inFlight := inFlight[agent := task];
      return Admitted;
    }

    method CountOf(task: TaskId) returns (taskCount: nat)
      ensures taskCount == |OfTask(active, task)|
    {
      taskCount := 0;
      var todo := active.Keys;
      while todo != {}
        invariant todo <= active.Keys
        invariant taskCount == |OfTask(active, task) - todo|
      {
        var a :| a in todo;
        if active[a] == task {
          assert OfTask(active, task) - (todo - {a}) == (OfTask(active, task) - todo) + {a};
          taskCount := taskCount + 1;
        } else {
          assert OfTask(active, task) - (todo - {a}) == OfTask(active, task) - todo;
        }
        todo := todo - {a};
      }
      assert OfTask(active, task) - {} == OfTask(active, task);
    }

    // The rest of Spawn: the container comes up and the agent is registered with its
    // result channel, or an error is returned.
    method FinishSpawn(agent: AgentId, task: TaskId, started: bool) returns (channel: Option<ResultChannel>)
      requires Valid() && agent in inFlight && inFlight[agent] == task
      modifies this
      ensures Valid()
      ensures Abstract() == Next(old(Abstract()), if started then Register(agent) else Abort(agent))
      ensures started ==> channel.Some? && fresh(channel.value) && channel.value.sent == [] &&
                          waiters == old(waiters)[agent := channel.value]
      ensures !started ==> channel == None && waiters == old(waiters)
    {
      inFlight := inFlight - {agent};
      if !started {
        return None;
      }
      var resultCh := new ResultChannel();
      active := active[agent := task];
      waiters := waiters[agent := resultCh];
      return Some(resultCh);
    }

    // The end of monitorContainer: removal under the lock, then the one result on the
    // agent's own channel.  Whoever waits on it receives exactly that result.
    method ContainerExited(agent: AgentId, channel: ResultChannel, result: AgentResult)
      requires Valid() && agent in active && channel == waiters[agent]
      modifies this, channel
      ensures Valid()
      ensures Abstract() == Next(old(Abstract()), Exit(agent))
      ensures waiters == old(waiters) - {agent}
      ensures channel.sent == [result] && channel.closed
    {
      active := active - {agent};
      waiters := waiters - {agent};
      channel.SendAndClose(result);
    }

    // Waiting for an agent that is already gone yields a failure, not its result.
    method Wait(agent: AgentId) returns (channel: ResultChannel)
      requires Valid()
      ensures Valid()
      ensures agent in waiters ==> channel == waiters[agent]
      ensures agent !in waiters ==>
                fresh(channel) && channel.closed && channel.sent == [AgentResult(-1, true)]
    {
      if agent in waiters {
        return waiters[agent];
      }
      channel := new ResultChannel();
      channel.SendAndClose(AgentResult(-1, true));
    }
  }
}
