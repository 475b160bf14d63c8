// The collaborative manager/worker protocol (internal/task/collaborative.go) as a
// step system: who is running, what the plan shows, what the orchestrator has sent.
module Protocol {
  import AgentPool
  import opened Plans
  import opened Scheduler

  const MANAGER: Id := "manager"

  // Messages the orchestrator sends to the team.
  datatype Signal =
    | ManagerExited
    | WorkerCompleted(id: Id)
    | WorkerFailed(id: Id)
    | AllWorkersDone(summary: seq<Status>)
    | RespawnFailed(id: Id)
    | WorkersRespawned(count: nat)

  // `launched` counts the workers of the first wave.
  datatype Team = Team(subtasks: seq<Subtask>, launched: nat, running: map<AgentId, Id>, signals: seq<Signal>)

  // A pool with its agents, as a task finds it.
  datatype PoolView = PoolView(limits: AgentPool.Limits, task: AgentPool.TaskId, active: map<AgentId, AgentPool.TaskId>)

  datatype Event =
    | ManagerSpawns(agent: AgentId)
    | Launches(agent: AgentId, pool: PoolView) // first wave, next subtask of the plan
    | LaunchRefused(pool: PoolView)            // the next launch, for a limit
    | SpawnFails                               // of the manager or the next worker, for good
    | Respawns(id: Id, agent: AgentId)
    | WorkerEnds(agent: AgentId, success: bool)
    | ManagerEnds(agent: AgentId, told: bool)  // `told`: MANAGER_EXITED is sent
    | Announces                                // ALL_WORKERS_DONE
    | Reports(signal: Signal)                  // RESPAWN_FAILED, WORKERS_RESPAWNED

  predicate OnlyManager(running: map<AgentId, Id>) {
    running != map[] && forall a :: a in running ==> running[a] == MANAGER
  }

  function StatusColumn(subtasks: seq<Subtask>): seq<Status> {
    seq(|subtasks|, i requires 0 <= i < |subtasks| => subtasks[i].status)
  }

  predicate Enabled(t: Team, e: Event) {
    match e
    case ManagerSpawns(_) => t.running == map[] && t.launched == 0 && t.signals == []
    case Launches(agent, pool) =>
      && t.launched < |t.subtasks| && agent !in t.running
      && AgentPool.MayAdmit(pool.limits, pool.active, pool.task, t.running.Keys)
    case LaunchRefused(pool) =>
      t.launched < |t.subtasks| && AgentPool.MayRefuse(pool.limits, pool.active, pool.task, t.running.Keys)
    case SpawnFails => t.launched < |t.subtasks| || t == Init(t.subtasks)
    case Respawns(id, agent) =>
      t.launched == |t.subtasks| && agent !in t.running && exists k :: 0 <= k < |t.subtasks| && t.subtasks[k].id == id
    case WorkerEnds(agent, _) => agent in t.running && t.running[agent] != MANAGER
    case ManagerEnds(agent, _) => agent in t.running && t.running[agent] == MANAGER
    case Announces => t.launched == |t.subtasks| && OnlyManager(t.running)
    case Reports(signal) => signal.RespawnFailed? || signal.WorkersRespawned?
  }

  function Next(t: Team, e: Event): Team
    requires Enabled(t, e)
  {
    match e
    case ManagerSpawns(agent) => t.(running := t.running[agent := MANAGER])
    case Launches(agent, _) =>
      var id := t.subtasks[t.launched].id;
      Team(SetStatus(t.subtasks, id, Running), t.launched + 1, t.running[agent := id], t.signals)
    case LaunchRefused(_) => t
    case SpawnFails => t
    case Respawns(id, agent) =>
      t.(subtasks := SetStatus(t.subtasks, id, Running), running := t.running[agent := id])
    case WorkerEnds(agent, success) =>
      var id := t.running[agent];
      t.(subtasks := SetStatus(t.subtasks, id, if success then Completed else Failed),
         running := t.running - {agent},
         signals := t.signals + [if success then WorkerCompleted(id) else WorkerFailed(id)])
    case ManagerEnds(agent, told) =>
      t.(running := t.running - {agent}, signals := if told then t.signals + [ManagerExited] else t.signals)
    case Announces => t.(signals := t.signals + [AllWorkersDone(StatusColumn(t.subtasks))])
    case Reports(signal) => t.(signals := t.signals + [signal])
  }

  function Init(plan: seq<Subtask>): Team {
    Team(plan, 0, map[], [])
  }

  ghost predicate Feasible(plan: seq<Subtask>, run: seq<Event>)
    decreases |run|, 1
  {
    run == [] ||
    (Feasible(plan, run[..|run| - 1]) && Enabled(After(plan, run[..|run| - 1]), run[|run| - 1]))
  }

  ghost function After(plan: seq<Subtask>, run: seq<Event>): Team
    requires Feasible(plan, run)
    decreases |run|, 2
  {
    if run == [] then Init(plan) else Next(After(plan, run[..|run| - 1]), run[|run| - 1])
  }

  lemma ExtendRun(plan: seq<Subtask>, run: seq<Event>, e: Event)
    requires Feasible(plan, run) && Enabled(After(plan, run), e)
    ensures Feasible(plan, run + [e]) && After(plan, run + [e]) == Next(After(plan, run), e)
  {
    assert (run + [e])[..|run|] == run;
  }

  // The same, for a state given by its parts.
  lemma ExtendTo(plan: seq<Subtask>, run: seq<Event>, t: Team, e: Event)
    requires Feasible(plan, run) && After(plan, run) == t && Enabled(t, e)
    ensures Feasible(plan, run + [e]) && After(plan, run + [e]) == Next(t, e)
  {
    ExtendRun(plan, run, e);
  }

  lemma OneLess(plan: seq<Subtask>, run: seq<Event>, e: Event)
    requires Feasible(plan, run + [e])
    ensures Feasible(plan, run) && Enabled(After(plan, run), e)
  {
    assert (run + [e])[..|run|] == run;
  }

  // ---------- invariants ----------

  // A subtask id called "manager" would be mistaken for the manager.
  predicate Teamable(plan: seq<Subtask>) {
    UniqueIds(plan) && !HasId(plan, MANAGER)
  }

  predicate Ended(s: Status) {
    s == Completed || s == Failed
  }

  predicate SamePlan(plan: seq<Subtask>, subtasks: seq<Subtask>) {
    |subtasks| == |plan| && forall k :: 0 <= k < |plan| ==> subtasks[k].id == plan[k].id
  }

  // A launched worker has ended or has an agent.
  ghost predicate WorkersAccounted(t: Team) {
    && t.launched <= |t.subtasks|
    && (forall k :: 0 <= k < t.launched ==>
          Ended(t.subtasks[k].status) || (t.subtasks[k].status == Running && HasAgent(t.running, t.subtasks[k].id)))
  }

  // Running agents are the manager or workers of the plan.
  ghost predicate RunningKnown(t: Team) {
    && (forall a :: a in t.running ==> t.running[a] == MANAGER || HasId(t.subtasks, t.running[a]))
    && (forall a, b :: a in t.running && b in t.running && t.running[a] == MANAGER && t.running[b] == MANAGER ==> a == b)
  }

  // Every ALL_WORKERS_DONE reported only ended workers.
  ghost predicate AnnouncementsTrue(t: Team) {
    forall k :: 0 <= k < |t.signals| && t.signals[k].AllWorkersDone? ==>
      |t.signals[k].summary| == |t.subtasks| && forall s :: s in t.signals[k].summary ==> Ended(s)
  }

  ghost predicate Inv(plan: seq<Subtask>, t: Team) {
    SamePlan(plan, t.subtasks) && WorkersAccounted(t) && RunningKnown(t) && AnnouncementsTrue(t)
  }

  lemma {:induction false} SetStatusKeepsIds(plan: seq<Subtask>, subtasks: seq<Subtask>, id: Id, s: Status)
    requires SamePlan(plan, subtasks) && UniqueIds(plan)
    ensures SamePlan(plan, SetStatus(subtasks, id, s))
    ensures forall k :: 0 <= k < |subtasks| ==>
              SetStatus(subtasks, id, s)[k] == if subtasks[k].id == id then subtasks[k].(status := s) else subtasks[k]
  {
    forall k | 0 <= k < |subtasks|
      ensures SetStatus(subtasks, id, s)[k] == if subtasks[k].id == id then subtasks[k].(status := s) else subtasks[k]
    {
      SetStatusAt(subtasks, id, s, k);
    }
  }

  lemma SamePlanIds(plan: seq<Subtask>, subtasks: seq<Subtask>, id: Id)
    requires SamePlan(plan, subtasks)
    ensures HasId(plan, id) <==> HasId(subtasks, id)
  {
    if HasId(plan, id) {
      var k :| 0 <= k < |plan| && plan[k].id == id;
      assert subtasks[k].id == id;
    }
  }

  lemma SamePlanUnique(plan: seq<Subtask>, subtasks: seq<Subtask>)
    requires SamePlan(plan, subtasks) && UniqueIds(plan)
    ensures UniqueIds(subtasks)
  {
  }

  lemma LoneManager(t: Team, agent: AgentId)
    requires RunningKnown(t) && OnlyManager(t.running) && agent in t.running
    ensures t.running - {agent} == map[]
  {
  }

  lemma SpawnAccounts(t: Team, u: Team, id: Id, agent: AgentId)
    requires WorkersAccounted(t) && u.launched <= |u.subtasks| == |t.subtasks|
    requires forall k :: 0 <= k < |t.subtasks| ==>
               u.subtasks[k] == if t.subtasks[k].id == id then t.subtasks[k].(status := Running) else t.subtasks[k]
    requires u.launched == t.launched || (u.launched == t.launched + 1 && u.subtasks[t.launched].id == id)
    requires agent !in t.running && u.running == t.running[agent := id]
    ensures WorkersAccounted(u)
  {
    assert u.running[agent] == id;
    forall k | 0 <= k < u.launched && !Ended(u.subtasks[k].status)
      ensures u.subtasks[k].status == Running && HasAgent(u.running, u.subtasks[k].id)
    {
      if u.subtasks[k].id != id {
        var a :| a in t.running && t.running[a] == t.subtasks[k].id;
        assert u.running[a] == u.subtasks[k].id;
      }
    }
  }

  lemma SpawnKnown(plan: seq<Subtask>, t: Team, u: Team, id: Id, agent: AgentId)
    requires Teamable(plan) && SamePlan(plan, t.subtasks) && SamePlan(plan, u.subtasks) && RunningKnown(t)
    requires HasId(t.subtasks, id) && agent !in t.running && u.running == t.running[agent := id]
    ensures RunningKnown(u)
  {
    SamePlanIds(plan, t.subtasks, id);
    forall a | a in u.running && u.running[a] != MANAGER ensures HasId(u.subtasks, u.running[a]) {
      SamePlanIds(plan, t.subtasks, u.running[a]);
      SamePlanIds(plan, u.subtasks, u.running[a]);
    }
  }

  lemma SpawnKeepsInv(plan: seq<Subtask>, t: Team, e: Event)
    requires Teamable(plan) && Inv(plan, t) && Enabled(t, e) && (e.Launches? || e.Respawns?)
    ensures Inv(plan, Next(t, e))
  {
    hide SetStatus, WorkersAccounted, RunningKnown;
    var id := if e.Launches? then t.subtasks[t.launched].id else e.id;
    var u := Next(t, e);
    SetStatusKeepsIds(plan, t.subtasks, id, Running);
    assert HasId(t.subtasks, id);
    SpawnAccounts(t, u, id, e.agent);
    SpawnKnown(plan, t, u, id, e.agent);
  }

  lemma EndKeepsInv(plan: seq<Subtask>, t: Team, e: Event)
    requires Teamable(plan) && Inv(plan, t) && Enabled(t, e) && (e.WorkerEnds? || e.ManagerEnds?)
    ensures Inv(plan, Next(t, e))
  {
    var id := t.running[e.agent];
    var u := Next(t, e);
    if e.WorkerEnds? {
      SetStatusKeepsIds(plan, t.subtasks, id, if e.success then Completed else Failed);
    }
    forall k | 0 <= k < u.launched && !Ended(u.subtasks[k].status)
      ensures u.subtasks[k].status == Running && HasAgent(u.running, u.subtasks[k].id)
    {
      var a :| a in t.running && t.running[a] == t.subtasks[k].id;
      assert HasId(t.subtasks, t.subtasks[k].id);
      SamePlanIds(plan, t.subtasks, t.subtasks[k].id);
      assert a != e.agent;
      assert a in u.running && u.running[a] == u.subtasks[k].id;
    }
    forall a | a in u.running && u.running[a] != MANAGER ensures HasId(u.subtasks, u.running[a]) {
      SamePlanIds(plan, t.subtasks, u.running[a]);
      SamePlanIds(plan, u.subtasks, u.running[a]);
    }
  }

  // ALL_WORKERS_DONE is enabled only with the manager alone; by then every worker has ended.
  lemma ManagerAloneMeansDone(plan: seq<Subtask>, t: Team)
    requires Teamable(plan) && Inv(plan, t) && t.launched == |plan| && OnlyManager(t.running)
    ensures forall s :: s in StatusColumn(t.subtasks) ==> Ended(s)
  {
    forall k | 0 <= k < |plan| ensures Ended(t.subtasks[k].status) {
      assert HasId(t.subtasks, t.subtasks[k].id);
      SamePlanIds(plan, t.subtasks, t.subtasks[k].id);
    }
  }

  lemma StepKeepsInv(plan: seq<Subtask>, t: Team, e: Event)
    requires Teamable(plan) && Inv(plan, t) && Enabled(t, e)
    ensures Inv(plan, Next(t, e))
  {
    match e
    case ManagerSpawns(_) =>
    case Launches(_, _) => SpawnKeepsInv(plan, t, e);
    case LaunchRefused(_) =>
    case SpawnFails =>
    case Respawns(_, _) => SpawnKeepsInv(plan, t, e);
    case WorkerEnds(_, _) => EndKeepsInv(plan, t, e);
    case ManagerEnds(_, _) => EndKeepsInv(plan, t, e);
    case Announces => ManagerAloneMeansDone(plan, t);
    case Reports(_) =>
  }

  // In every reachable state running workers are accounted for and every
  // ALL_WORKERS_DONE sent so far told the truth.
  lemma {:induction false} ReachableSound(plan: seq<Subtask>, run: seq<Event>)
    requires Teamable(plan) && Feasible(plan, run)
    ensures Inv(plan, After(plan, run))
  {
    if run != [] {
      ReachableSound(plan, run[..|run| - 1]);
      StepKeepsInv(plan, After(plan, run[..|run| - 1]), run[|run| - 1]);
    }
  }

  // ---------- what the plan and the messages tell ----------

  // What event `k` says about a subtask, or nothing: its launch, its respawn, or the end
  // of one of its agents.
  ghost function Says(plan: seq<Subtask>, run: seq<Event>, k: nat, id: Id): Status
    requires k < |run|
  {
    if !Feasible(plan, run[..k]) then Unset
    else
      var t := After(plan, run[..k]);
      match run[k]
      case Launches(_, _) => if t.launched < |plan| && plan[t.launched].id == id then Running else Unset
      case Respawns(respawned, _) => if respawned == id then Running else Unset
      case WorkerEnds(agent, success) =>
        if !(agent in t.running && t.running[agent] == id) then Unset else if success then Completed else Failed
      case _ => Unset
  }

  // The status is the last word about the subtask, or the one it had if there was none.
  ghost predicate LastWord(plan: seq<Subtask>, run: seq<Event>, st: Subtask, now: Status) {
    || (now == st.status && forall i :: 0 <= i < |run| ==> Says(plan, run, i, st.id) == Unset)
    || (exists k :: 0 <= k < |run| && LastSaid(plan, run, k, st.id, now))
  }

  ghost predicate LastSaid(plan: seq<Subtask>, run: seq<Event>, k: nat, id: Id, now: Status)
    requires k < |run|
  {
    && now != Unset && Says(plan, run, k, id) == now
    && forall i :: k < i < |run| ==> Says(plan, run, i, id) == Unset
  }

  lemma LastWordNext(plan: seq<Subtask>, before: seq<Event>, e: Event, st: Subtask, was: Status)
    requires LastWord(plan, before, st, was)
    ensures var run := before + [e];
      var said := Says(plan, run, |before|, st.id);
      LastWord(plan, run, st, if said == Unset then was else said)
  {
    var run := before + [e];
    var said := Says(plan, run, |before|, st.id);
    forall i | 0 <= i < |before| ensures Says(plan, run, i, st.id) == Says(plan, before, i, st.id) {
      assert run[..i] == before[..i];
    }
    if said != Unset {
      assert LastSaid(plan, run, |before|, st.id, said);
    } else if k :| 0 <= k < |before| && LastSaid(plan, before, k, st.id, was) {
      assert LastSaid(plan, run, k, st.id, was);
    }
  }

  lemma StepSays(plan: seq<Subtask>, run: seq<Event>, e: Event, j: nat)
    requires Teamable(plan) && Feasible(plan, run) && Enabled(After(plan, run), e) && j < |plan|
    requires Inv(plan, After(plan, run))
    ensures var said, st := Says(plan, run + [e], |run|, plan[j].id), After(plan, run).subtasks[j];
      |Next(After(plan, run), e).subtasks| == |plan| &&
      Next(After(plan, run), e).subtasks[j] == if said == Unset then st else st.(status := said)
  {
    assert (run + [e])[..|run|] == run;
    hide After, Feasible, SetStatus, WorkersAccounted, AnnouncementsTrue;
    var t := After(plan, run);
    match e {
      case Launches(_, _) => SetStatusKeepsIds(plan, t.subtasks, t.subtasks[t.launched].id, Running);
      case Respawns(id, _) => SetStatusKeepsIds(plan, t.subtasks, id, Running);
      case WorkerEnds(agent, success) =>
        SetStatusKeepsIds(plan, t.subtasks, t.running[agent], if success then Completed else Failed);
      case _ =>
    }
  }

  // In every reachable state the plan shows of each subtask what its last event said, and
  // of one that had none what it showed at the start; nothing else of it changes.
  lemma {:induction false} StatusTold(plan: seq<Subtask>, run: seq<Event>, j: nat)
    requires Teamable(plan) && Feasible(plan, run) && j < |plan|
    ensures |After(plan, run).subtasks| == |plan|
    ensures var now := After(plan, run).subtasks[j];
      now == plan[j].(status := now.status) && LastWord(plan, run, plan[j], now.status)
  {
    ReachableSound(plan, run);
    if run != [] {
      var before, e := run[..|run| - 1], run[|run| - 1];
      assert before + [e] == run;
      StatusTold(plan, before, j);
      ReachableSound(plan, before);
      StepSays(plan, before, e, j);
      LastWordNext(plan, before, e, plan[j], After(plan, before).subtasks[j].status);
    }
  }

  // The event calls for this message; for announcements see `AnnouncedWhenDone`.
  predicate Sends(t: Team, e: Event, s: Signal)
    requires !s.AllWorkersDone?
  {
    match s
    case WorkerCompleted(id) => e.WorkerEnds? && e.success && e.agent in t.running && t.running[e.agent] == id
    case WorkerFailed(id) => e.WorkerEnds? && !e.success && e.agent in t.running && t.running[e.agent] == id
    case ManagerExited => e.ManagerEnds? && e.told
    case _ => e == Reports(s)
  }

  // What an event adds to the messages.
  function Added(t: Team, e: Event): seq<Signal>
    requires Enabled(t, e)
  {
    match e
    case WorkerEnds(agent, success) => [if success then WorkerCompleted(t.running[agent]) else WorkerFailed(t.running[agent])]
    case ManagerEnds(_, told) => if told then [ManagerExited] else []
    case Announces => [AllWorkersDone(StatusColumn(t.subtasks))]
    case Reports(signal) => [signal]
    case _ => []
  }

  lemma NextAdds(t: Team, e: Event)
    requires Enabled(t, e)
    ensures Next(t, e).signals == t.signals + Added(t, e)
  {
    hide SetStatus, StatusColumn;
  }

  lemma AddedOnce(t: Team, e: Event, s: Signal)
    requires Enabled(t, e) && !s.AllWorkersDone?
    ensures multiset(Added(t, e))[s] == if Sends(t, e, s) then 1 else 0
  {
    hide StatusColumn, AgentPool.MayAdmit, AgentPool.MayRefuse, OnlyManager;
  }

  lemma StepSends(t: Team, e: Event, s: Signal)
    requires Enabled(t, e) && !s.AllWorkersDone?
    ensures multiset(Next(t, e).signals)[s] == multiset(t.signals)[s] + if Sends(t, e, s) then 1 else 0
  {
    NextAdds(t, e);
    AddedOnce(t, e, s);
    hide Next, Enabled, Added, Sends;
    assert multiset(t.signals + Added(t, e)) == multiset(t.signals) + multiset(Added(t, e));
  }

  // How many events of the run send this message.
  ghost function SendsIn(plan: seq<Subtask>, run: seq<Event>, s: Signal): nat
    requires Feasible(plan, run) && !s.AllWorkersDone?
  {
    if run == [] then 0
    else
      var before := run[..|run| - 1];
      SendsIn(plan, before, s) + if Sends(After(plan, before), run[|run| - 1], s) then 1 else 0
  }

  // Every message has been sent as often as the events of the run call for: so
  // WORKER_COMPLETED once for every agent of the subtask that ended with success.
  lemma {:induction false} SignalsTold(plan: seq<Subtask>, run: seq<Event>, s: Signal)
    requires Feasible(plan, run) && !s.AllWorkersDone?
    ensures multiset(After(plan, run).signals)[s] == SendsIn(plan, run, s)
  {
    if run != [] {
      hide Enabled, Next, Sends;
      var before, e := run[..|run| - 1], run[|run| - 1];
      SignalsTold(plan, before, s);
      StepSends(After(plan, before), e, s);
    }
  }

  // What has been sent stays sent.
  lemma {:induction false} SignalsStay(plan: seq<Subtask>, run: seq<Event>, k: nat)
    requires Feasible(plan, run) && k <= |run|
    ensures Feasible(plan, run[..k]) && After(plan, run[..k]).signals <= After(plan, run).signals
  {
    if k == |run| {
      assert run[..k] == run;
    } else {
      var before := run[..|run| - 1];
      SignalsStay(plan, before, k);
      assert before[..k] == run[..k];
      hide SetStatus, StatusColumn;
    }
  }

  // ---------- conservation ----------

  function Workers(running: map<AgentId, Id>): set<AgentId> {
    set a | a in running && running[a] != MANAGER
  }

  function EndSignals(signals: seq<Signal>): nat {
    if signals == [] then 0
    else EndSignals(signals[..|signals| - 1]) +
         if signals[|signals| - 1].WorkerCompleted? || signals[|signals| - 1].WorkerFailed? then 1 else 0
  }

  ghost function Spawns(run: seq<Event>): nat {
    if run == [] then 0
    else Spawns(run[..|run| - 1]) + if run[|run| - 1].Launches? || run[|run| - 1].Respawns? then 1 else 0
  }

  // Announcements made, and respawn messages answered with WORKERS_RESPAWNED.
  datatype Tally = Tally(announced: nat, answered: nat)

  ghost function TallyOf(run: seq<Event>): Tally {
    if run == [] then Tally(0, 0)
    else
      var t := TallyOf(run[..|run| - 1]);
      var e := run[|run| - 1];
      if e.Announces? then t.(announced := t.announced + 1)
      else if e.Reports? && e.signal.WorkersRespawned? then t.(answered := t.answered + 1)
      else t
  }

  lemma NoTally()
    ensures TallyOf([]) == Tally(0, 0)
  {
  }

  lemma TallyNext(run: seq<Event>, e: Event)
    ensures var t := TallyOf(run);
      TallyOf(run + [e]) ==
      if e.Announces? then t.(announced := t.announced + 1)
      else if e.Reports? && e.signal.WorkersRespawned? then t.(answered := t.answered + 1)
      else t
  {
    assert (run + [e])[..|run|] == run;
  }

  lemma EndSignalsNext(signals: seq<Signal>, s: Signal)
    ensures EndSignals(signals + [s]) == EndSignals(signals) + if s.WorkerCompleted? || s.WorkerFailed? then 1 else 0
  {
    assert (signals + [s])[..|signals|] == signals;
  }

  lemma WorkersAfter(running: map<AgentId, Id>, agent: AgentId, id: Id)
    requires agent !in running
    ensures |Workers(running[agent := id])| == |Workers(running)| + if id != MANAGER then 1 else 0
  {
    assert Workers(running[agent := id]) == if id != MANAGER then Workers(running) + {agent} else Workers(running);
  }

  lemma WorkersWithout(running: map<AgentId, Id>, agent: AgentId)
    requires agent in running
    ensures |Workers(running - {agent})| == |Workers(running)| - if running[agent] != MANAGER then 1 else 0
  {
    assert (running - {agent})[agent := running[agent]] == running;
    WorkersAfter(running - {agent}, agent, running[agent]);
  }

  lemma StepConserves(plan: seq<Subtask>, t: Team, e: Event)
    requires Teamable(plan) && Inv(plan, t) && Enabled(t, e)
    ensures EndSignals(Next(t, e).signals) + |Workers(Next(t, e).running)| ==
            EndSignals(t.signals) + |Workers(t.running)| + if e.Launches? || e.Respawns? then 1 else 0
  {
    match e
    case ManagerSpawns(agent) => WorkersAfter(t.running, agent, MANAGER);
    case Launches(agent, _) =>
      NotManager(plan, t, t.subtasks[t.launched].id);
      WorkersAfter(t.running, agent, t.subtasks[t.launched].id);
    case LaunchRefused(_) =>
    case SpawnFails =>
    case Respawns(id, agent) =>
      NotManager(plan, t, id);
      WorkersAfter(t.running, agent, id);
    case WorkerEnds(agent, success) =>
      WorkersWithout(t.running, agent);
      EndSignalsNext(t.signals, if success then WorkerCompleted(t.running[agent]) else WorkerFailed(t.running[agent]));
    case ManagerEnds(agent, _) =>
      WorkersWithout(t.running, agent);
      EndSignalsNext(t.signals, ManagerExited);
    case Announces => EndSignalsNext(t.signals, AllWorkersDone(StatusColumn(t.subtasks)));
    case Reports(signal) => EndSignalsNext(t.signals, signal);
  }

  lemma NotManager(plan: seq<Subtask>, t: Team, id: Id)
    requires Teamable(plan) && SamePlan(plan, t.subtasks)
    requires exists k :: 0 <= k < |t.subtasks| && t.subtasks[k].id == id
    ensures id != MANAGER
  {
    assert HasId(t.subtasks, id);
    SamePlanIds(plan, t.subtasks, id);
  }

  // Worker spawns always equal completions plus failures reported plus running workers.
  lemma {:induction false} SpawnsConserved(plan: seq<Subtask>, run: seq<Event>)
    requires Teamable(plan) && Feasible(plan, run)
    ensures var t := After(plan, run); Spawns(run) == EndSignals(t.signals) + |Workers(t.running)|
  {
    if run != [] {
      var before := run[..|run| - 1];
      SpawnsConserved(plan, before);
      ReachableSound(plan, before);
      StepConserves(plan, After(plan, before), run[|run| - 1]);
    }
  }

  // Once nothing runs, every worker spawned has been reported, and every launched subtask has ended.
  lemma NothingRunning(plan: seq<Subtask>, run: seq<Event>)
    requires Teamable(plan) && Feasible(plan, run) && After(plan, run).running == map[]
    ensures Spawns(run) == EndSignals(After(plan, run).signals)
    ensures var t := After(plan, run);
      t.launched <= |t.subtasks| && forall k :: 0 <= k < t.launched ==> Ended(t.subtasks[k].status)
  {
    SpawnsConserved(plan, run);
    ReachableSound(plan, run);
    assert Workers(After(plan, run).running) == {};
  }

  // The status column lists the subtasks' statuses, in plan order.
  predicate Lists(summary: seq<Status>, subtasks: seq<Subtask>) {
    |summary| == |subtasks| && forall k :: 0 <= k < |subtasks| ==> summary[k] == subtasks[k].status
  }

  // At every ALL_WORKERS_DONE exactly one agent runs, the manager; every subtask of the
  // plan is completed or failed; and the message lists their statuses.
  lemma AnnouncedWhenDone(plan: seq<Subtask>, run: seq<Event>, k: nat)
    requires Teamable(plan) && Feasible(plan, run) && k < |run| && run[k].Announces?
    ensures Feasible(plan, run[..k])
    ensures var t := After(plan, run[..k]);
      && |t.running| == 1 && OnlyManager(t.running)
      && |t.subtasks| == |plan| && (forall j :: 0 <= j < |plan| ==> Ended(t.subtasks[j].status))
      && |t.signals| < |After(plan, run).signals|
      && var signal := After(plan, run).signals[|t.signals|];
         signal.AllWorkersDone? && Lists(signal.summary, t.subtasks)
  {
    SignalsStay(plan, run, k);
    SignalsStay(plan, run, k + 1);
    assert run[..k + 1][..k] == run[..k];
    ReachableSound(plan, run[..k]);
    hide Feasible, After;
    var t := After(plan, run[..k]);
    ManagerAloneMeansDone(plan, t);
    forall j | 0 <= j < |plan| ensures Ended(t.subtasks[j].status) {
      assert StatusColumn(t.subtasks)[j] in StatusColumn(t.subtasks);
    }
    var a :| a in t.running;
    assert t.running.Keys == {a};
    assert |t.running| == |t.running.Keys|;
  }
}
