// The collaborative orchestration loop (internal/task/collaborative.go): manager,
// first wave of workers, and fix rounds requested through the message log.
module Collaborative {
  import opened Basics
  import opened Plans
  import AgentPool
  import S = Scheduler
  import O = Orchestration
  import opened Comms
  import P = Protocol

  // Suspended: the environment's finite script has run out while the loop would go on.
  datatype Ending = SpawnFailed | Cancelled | Suspended | Finished

  datatype Outlook = NobodyRuns | ManagerAlone | Interrupted

  datatype Decision = NoMoreRounds | Respawn(reqs: seq<RespawnRequest>) | OutOfScript

  // ---------- the environment's script ----------

  // What happens next while the manager's decision is awaited: cancellation, the manager's
  // end, or a tick before which some rows may have been written.
  datatype Turn = Cancels | ManagerGoes | Polls(rows: seq<AgentMessage>, dbOk: bool)

  function Appends(rows: seq<AgentMessage>): seq<Step> {
    seq(|rows|, i requires 0 <= i < |rows| => Append(rows[i]))
  }

  // The polling session that some turns amount to.
  function StepsOf(turns: seq<Turn>): seq<Step> {
    if turns == [] then []
    else
      var before := StepsOf(turns[..|turns| - 1]);
      match turns[|turns| - 1]
      case Polls(rows, dbOk) => before + Appends(rows) + [Poll(dbOk)]
      case _ => before
  }

  // The respawn messages found by then, in order.
  ghost function Found(turns: seq<Turn>): seq<seq<RespawnRequest>> {
    Respawns(Logged(StepsOf(turns))[..Position(StepsOf(turns))])
  }

  // The loop's own variables after the first `at` turns.
  ghost predicate AtTurn(script: seq<Turn>, at: nat, log: seq<AgentMessage>, cursor: nat) {
    at <= |script| && log == Logged(StepsOf(script[..at])) && cursor == Cursor(StepsOf(script[..at]))
  }

  // The loop has taken the turns from `at0` up to `at` and stopped for a reason: until the
  // last of them there were only polls, and none of them found anything.
  ghost predicate WaitedTo(script: seq<Turn>, at0: nat, at: nat, d: Decision, cancelled: bool) {
    && at0 <= at <= |script|
    && (forall k :: at0 <= k < at - 1 ==> script[k].Polls?)
    && (forall k :: at0 <= k < at ==> Found(script[..k]) == Found(script[..at0]))
    && Found(script[..at]) == Found(script[..at0]) + (if d.Respawn? then [d.reqs] else [])
    && match d
       case Respawn(reqs) => at0 < at && script[at - 1].Polls? && reqs != [] && !cancelled
       case NoMoreRounds => at0 < at && script[at - 1] == if cancelled then Cancels else ManagerGoes
       case OutOfScript => at == |script| && (at0 < at ==> script[at - 1].Polls?) && !cancelled
  }

  lemma {:induction false} AppendsLogged(steps: seq<Step>, rows: seq<AgentMessage>)
    ensures Logged(steps + Appends(rows)) == Logged(steps) + rows
    ensures Position(steps + Appends(rows)) == Position(steps)
  {
    hide Logged, Position;
    if rows == [] {
      assert steps + Appends(rows) == steps;
    } else {
      var init, last := rows[..|rows| - 1], rows[|rows| - 1];
      AppendsLogged(steps, init);
      assert steps + Appends(rows) == (steps + Appends(init)) + [Append(last)];
      StepsNext(steps + Appends(init), Append(last));
      assert rows == init + [last];
    }
  }

  lemma TurnTaken(script: seq<Turn>, at: nat)
    requires at < |script|
    ensures var before, after := StepsOf(script[..at]), StepsOf(script[..at + 1]);
      if script[at].Polls? then
        && Logged(after) == Logged(before) + script[at].rows
        && Position(after) == if script[at].dbOk then StopAt(Logged(after), Position(before)) else Position(before)
      else after == before
  {
    hide Logged, Position;
    assert script[..at + 1][..at] == script[..at];
    if script[at].Polls? {
      var before := StepsOf(script[..at]);
      AppendsLogged(before, script[at].rows);
      StepsNext(before + Appends(script[at].rows), Poll(script[at].dbOk));
    }
  }

  lemma {:induction false} ScriptGrows(script: seq<Turn>, at: nat)
    requires at <= |script|
    ensures Logged(StepsOf(script[..at])) <= Logged(StepsOf(script))
    decreases |script| - at
  {
    hide Logged, Position;
    if at < |script| {
      ScriptGrows(script, at + 1);
      TurnTaken(script, at);
    } else {
      assert script[..at] == script;
    }
  }

  // Ids stay in order at every turn.
  lemma ScriptNumbered(script: seq<Turn>, at: nat)
    requires Numbered(Logged(StepsOf(script))) && at <= |script|
    ensures Numbered(Logged(StepsOf(script[..at])))
  {
    hide Logged;
    ScriptGrows(script, at);
    var all := Logged(StepsOf(script));
    forall m | m in Logged(StepsOf(script[..at])) ensures m in all {
      var k :| 0 <= k < |Logged(StepsOf(script[..at]))| && Logged(StepsOf(script[..at]))[k] == m;
      assert all[k] == m;
    }
  }

  lemma TurnsLeft(script: seq<Turn>, at: nat, log: seq<AgentMessage>, cursor: nat)
    requires AtTurn(script, at, log, cursor)
    ensures at <= |script|
  {
  }

  lemma TurnSkipped(script: seq<Turn>, at: nat, log: seq<AgentMessage>, cursor: nat)
    requires at < |script| && !script[at].Polls? && AtTurn(script, at, log, cursor)
    ensures AtTurn(script, at + 1, log, cursor) && Found(script[..at + 1]) == Found(script[..at])
  {
    TurnTaken(script, at);
  }

  lemma SameCursor(log: seq<AgentMessage>, rows: seq<AgentMessage>, n: nat)
    requires n <= |log|
    ensures CursorAt(log, 0, 0, n) == CursorAt(log + rows, 0, 0, n)
  {
  }

  lemma NoTurns(script: seq<Turn>)
    ensures AtTurn(script, 0, [], 0) && Found(script[..0]) == []
  {
    assert script[..0] == [];
  }

  // ---------- what a run looks like ----------

  predicate Completion(e: P.Event) {
    e.WorkerEnds? || (e.ManagerEnds? && e.told)
  }

  predicate Completions(events: seq<P.Event>) {
    forall e :: e in events ==> Completion(e)
  }

  // Between two launches: nothing, a refusal, or a refusal and the completion awaited then;
  // or the next launch has failed.
  datatype Phase = Calm | Full | Waited | Broken

  // The first wave: `launched` launches; only after a refusal, and then exactly one,
  // a completion is awaited before the launch is tried again.
  ghost predicate Wave(setting: S.Setting, events: seq<P.Event>, launched: nat, phase: Phase)
    decreases |events|
  {
    if events == [] then launched == 0 && phase == Calm
    else
      var before, e := events[..|events| - 1], events[|events| - 1];
      if e.Launches? then
        && launched > 0 && phase == Calm && OfPool(setting, e.pool)
        && (Wave(setting, before, launched - 1, Calm) || Wave(setting, before, launched - 1, Waited))
      else if e.LaunchRefused? then
        phase == Full && OfPool(setting, e.pool) && Wave(setting, before, launched, Calm)
      else if e.SpawnFails? then
        phase == Broken && (Wave(setting, before, launched, Calm) || Wave(setting, before, launched, Waited))
      else Completion(e) && phase == Waited && Wave(setting, before, launched, Full)
  }

  // It is the pool this run uses.
  predicate OfPool(setting: S.Setting, pool: P.PoolView) {
    pool.limits == setting.limits && pool.task == setting.task
  }

  function View(setting: S.Setting, active: map<AgentId, AgentPool.TaskId>): P.PoolView {
    P.PoolView(setting.limits, setting.task, active)
  }

  lemma WaveNext(setting: S.Setting, events: seq<P.Event>, e: P.Event, launched: nat, phase: Phase)
    requires Wave(setting, events, launched, phase)
    ensures e.Launches? && OfPool(setting, e.pool) && (phase == Calm || phase == Waited) ==>
              Wave(setting, events + [e], launched + 1, Calm)
    ensures e.SpawnFails? && (phase == Calm || phase == Waited) ==> Wave(setting, events + [e], launched, Broken)
    ensures e.LaunchRefused? && phase == Calm && OfPool(setting, e.pool) ==> Wave(setting, events + [e], launched, Full)
    ensures Completion(e) && phase == Full ==> Wave(setting, events + [e], launched, Waited)
  {
    assert (events + [e])[..|events|] == events;
  }

  ghost predicate InCompany(plan: seq<Subtask>, before: seq<P.Event>, wave: seq<P.Event>, k: nat)
    requires k < |wave|
  {
    P.Feasible(plan, before + wave[..k]) && P.After(plan, before + wave[..k]).running != map[]
  }

  // At every refusal some agent of ours runs, so that the completion awaited then will come.
  ghost predicate RefusedInCompany(plan: seq<Subtask>, before: seq<P.Event>, wave: seq<P.Event>) {
    forall k :: 0 <= k < |wave| && wave[k].LaunchRefused? ==> InCompany(plan, before, wave, k)
  }

  // Completions are handled only after a refusal, and then the launch is tried again: the
  // manager or the worker launched last still runs when the next one is refused.
  lemma {:induction false} SomebodyRuns(plan: seq<Subtask>, setting: S.Setting, before: seq<P.Event>,
                                        wave: seq<P.Event>, launched: nat, phase: Phase)
    requires P.Feasible(plan, before) && P.After(plan, before).running != map[]
    requires P.Feasible(plan, before + wave) && Wave(setting, wave, launched, phase)
    ensures RefusedInCompany(plan, before, wave)
    ensures phase == Calm || phase == Full ==> P.After(plan, before + wave).running != map[]
  {
    if wave == [] {
      assert before + wave == before;
    } else {
      hide P.After, P.Feasible, Wave, RefusedInCompany;
      var init, e := wave[..|wave| - 1], wave[|wave| - 1];
      assert before + wave == before + init + [e];
      P.OneLess(plan, before + init, e);
      var phase', launched' := PhaseBefore(setting, wave, launched, phase);
      SomebodyRuns(plan, setting, before, init, launched', phase');
      CompanyNext(plan, before, init, e);
      assert init + [e] == wave;
      StillRuns(plan, before + init, e);
    }
  }

  lemma CompanyNext(plan: seq<Subtask>, before: seq<P.Event>, init: seq<P.Event>, e: P.Event)
    requires RefusedInCompany(plan, before, init)
    requires e.LaunchRefused? ==> P.Feasible(plan, before + init) && P.After(plan, before + init).running != map[]
    ensures RefusedInCompany(plan, before, init + [e])
  {
    hide P.After, P.Feasible;
    var wave := init + [e];
    assert wave[..|init|] == init;
    forall k | 0 <= k < |wave| && wave[k].LaunchRefused? ensures InCompany(plan, before, wave, k) {
      if k < |init| {
        assert InCompany(plan, before, init, k);
        assert wave[..k] == init[..k];
      }
    }
  }

  // The phase before the last event of a wave.
  lemma PhaseBefore(setting: S.Setting, wave: seq<P.Event>, launched: nat, phase: Phase)
    returns (phase': Phase, launched': nat)
    requires wave != [] && Wave(setting, wave, launched, phase)
    ensures Wave(setting, wave[..|wave| - 1], launched', phase')
    ensures phase == Calm ==> wave[|wave| - 1].Launches?
    ensures wave[|wave| - 1].LaunchRefused? <==> phase == Full
    ensures wave[|wave| - 1].SpawnFails? <==> phase == Broken
    ensures phase == Full ==> phase' == Calm
  {
    var before, e := wave[..|wave| - 1], wave[|wave| - 1];
    launched' := if e.Launches? then launched - 1 else launched;
    if e.Launches? || e.SpawnFails? {
      phase' := if Wave(setting, before, launched', Calm) then Calm else Waited;
    } else {
      phase' := if e.LaunchRefused? then Calm else Full;
    }
  }

  lemma BrokenWave(setting: S.Setting, wave: seq<P.Event>, launched: nat)
    requires Wave(setting, wave, launched, Broken)
    ensures wave != [] && wave[|wave| - 1] == P.SpawnFails
  {
  }

  lemma StillRuns(plan: seq<Subtask>, run: seq<P.Event>, e: P.Event)
    requires P.Feasible(plan, run) && P.Feasible(plan, run + [e])
    ensures e.Launches? ==> P.After(plan, run + [e]).running != map[]
    ensures e.LaunchRefused? ==> P.After(plan, run + [e]).running == P.After(plan, run).running
  {
    assert (run + [e])[..|run|] == run;
    if e.Launches? {
      assert e.agent in P.After(plan, run + [e]).running;
    }
  }

  // A round that ends with fix workers: completions, ALL_WORKERS_DONE, and the answers to
  // the manager's respawn message.
  datatype Round = Round(ends: seq<P.Event>, reqs: seq<RespawnRequest>, answers: seq<P.Event>)

  function RoundEvents(r: Round): seq<P.Event> {
    r.ends + [P.Announces] + r.answers + [P.Reports(P.WorkersRespawned(|r.reqs|))]
  }

  ghost predicate RoundSound(plan: seq<Subtask>, r: Round) {
    Completions(r.ends) && Answers(plan, r.reqs, r.answers)
  }

  ghost predicate RoundsSound(plan: seq<Subtask>, rounds: seq<Round>) {
    forall r :: r in rounds ==> RoundSound(plan, r)
  }

  function Played(rounds: seq<Round>): seq<P.Event> {
    if rounds == [] then [] else Played(rounds[..|rounds| - 1]) + RoundEvents(rounds[|rounds| - 1])
  }

  lemma PlayedNext(rounds: seq<Round>, r: Round)
    ensures Played(rounds + [r]) == Played(rounds) + RoundEvents(r)
  {
    assert (rounds + [r])[..|rounds|] == rounds;
  }

  function Requested(rounds: seq<Round>): seq<seq<RespawnRequest>> {
    seq(|rounds|, i requires 0 <= i < |rounds| => rounds[i].reqs)
  }

  // How the rounds end: nobody is left, or cancellation comes while workers run; or after
  // a last ALL_WORKERS_DONE the manager leaves, or cancellation comes; or it comes while
  // a last respawn message is answered.
  ghost predicate Closes(plan: seq<Subtask>, ending: Ending, cancelled: bool, pending: seq<seq<RespawnRequest>>,
                         ends: seq<P.Event>, rest: seq<P.Event>) {
    && Completions(ends)
    && if pending != [] then
         && ending == Cancelled && |pending| == 1 && rest != [] && rest[0] == P.Announces
         && exists j :: 0 <= j <= |pending[0]| && Answers(plan, pending[0][..j], rest[1..])
       else
         || (rest == [] && (ending == Cancelled || (ending == Finished && !cancelled)))
         || (rest == [P.Announces] && (ending == Suspended || (ending == Finished && cancelled)))
         || (ending == Finished && !cancelled && |rest| == 2 && rest[0] == P.Announces
             && rest[1].ManagerEnds? && !rest[1].told)
  }

  // What follows ALL_WORKERS_DONE when the manager has decided.
  ghost predicate Decided(plan: seq<Subtask>, d: Decision, cancelled: bool, more: seq<P.Event>) {
    match d
    case Respawn(reqs) =>
      if cancelled then exists j :: 0 <= j <= |reqs| && Answers(plan, reqs[..j], more)
      else && more != [] && more[|more| - 1] == P.Reports(P.WorkersRespawned(|reqs|))
           && Answers(plan, reqs, more[..|more| - 1])
    case NoMoreRounds => if cancelled then more == [] else exists agent :: more == [P.ManagerEnds(agent, false)]
    case OutOfScript => more == [] && !cancelled
  }

  // How the rounds end after a decision, unless fix workers were launched.
  function EndingOf(d: Decision): Ending {
    match d
    case NoMoreRounds => Finished
    case OutOfScript => Suspended
    case Respawn(_) => Cancelled
  }

  // Phases 2 and 3.
  datatype Story = Story(wave: seq<P.Event>, rounds: seq<Round>, ends: seq<P.Event>, rest: seq<P.Event>)

  function StoryEvents(story: Story): seq<P.Event> {
    story.wave + Played(story.rounds) + story.ends + story.rest
  }

  // Every respawn message taken up is answered by its own round, in order, request by request.
  ghost predicate RoundsTold(plan: seq<Subtask>, ending: Ending, cancelled: bool,
                             taken: seq<seq<RespawnRequest>>, story: Story) {
    && RoundsSound(plan, story.rounds)
    && Requested(story.rounds) <= taken
    && Closes(plan, ending, cancelled, taken[|story.rounds|..], story.ends, story.rest)
  }

  ghost predicate StoryTold(plan: seq<Subtask>, setting: S.Setting, ending: Ending, cancelled: bool,
                            taken: seq<seq<RespawnRequest>>, story: Story) {
    || (&& ending != SpawnFailed && Wave(setting, story.wave, |plan|, Calm)
        && RoundsTold(plan, ending, cancelled, taken, story))
    || (&& (ending == SpawnFailed || ending == Cancelled)
        && taken == [] && story == Story(story.wave, [], [], [])
        && exists n, phase :: 0 <= n <= |plan| && Wave(setting, story.wave, n, phase)
             && phase == if ending == SpawnFailed then Broken else Calm)
  }

  class CollaborativeRun {
    const plan: O.ExecutionPlan
    const cancellable: bool  // whether the context may be cancelled outside the script
    ghost const plan0: seq<Subtask>
    var running: map<AgentId, Id>
    var signals: seq<P.Signal>
    var agents: nat
    ghost var launched: nat
    ghost var run: seq<P.Event>

    constructor (plan: O.ExecutionPlan, cancellable: bool)
      ensures this.plan == plan && this.cancellable == cancellable && plan0 == plan.subtasks && Valid()
      ensures run == [] && launched == 0 && running == map[] && signals == [] && agents == 0
    {
      this.plan, this.cancellable := plan, cancellable;
      plan0 := plan.subtasks;
      running, signals, agents, launched, run := map[], [], 0, 0, [];
    }

    // The concrete state is where the protocol run leads.
    ghost predicate Valid()
      reads this, plan
    {
      && P.Feasible(plan0, run)
      && P.After(plan0, run) == P.Team(plan.subtasks, launched, running, signals)
      && forall a :: a in running ==> a < agents
    }

    // One protocol event more, mirrored by the concrete state.
    ghost predicate Stepped(before: seq<P.Event>, e: P.Event)
      reads this
    {
      run == before + [e]
    }

    method Send(s: P.Signal)
      requires Valid() && P.Enabled(P.After(plan0, run), P.Reports(s))
      modifies this
      ensures Valid() && Stepped(old(run), P.Reports(s))
      ensures running == old(running) && launched == old(launched) && signals == old(signals) + [s]
      ensures P.TallyOf(run) == if s.WorkersRespawned? then old(P.TallyOf(run)).(answered := old(P.TallyOf(run)).answered + 1)
                                else old(P.TallyOf(run))
    {
      P.TallyNext(run, P.Reports(s));
      P.ExtendRun(plan0, run, P.Reports(s));
      signals := signals + [s];
      run := run + [P.Reports(s)];
    }

    // Phase 1.
    method SpawnManager(started: bool)
      requires Valid() && running == map[] && launched == 0 && signals == []
      modifies this
      ensures Valid() && launched == 0
      ensures Stepped(old(run), if started then P.ManagerSpawns(old(agents)) else P.SpawnFails)
      ensures started ==> running != map[]
      ensures P.TallyOf(run) == old(P.TallyOf(run))
    {
      P.TallyNext(run, P.ManagerSpawns(agents));
      if started {
        P.ExtendRun(plan0, run, P.ManagerSpawns(agents));
        run := run + [P.ManagerSpawns(agents)];
        running := running[agents := P.MANAGER];
        assert agents in running;
        agents := agents + 1;
      } else {
        Break();
      }
    }

    // A spawn has failed for good.
    ghost method Break()
      requires Valid() && P.Enabled(P.After(plan0, run), P.SpawnFails)
      modifies this`run
      ensures Valid() && Stepped(old(run), P.SpawnFails) && P.TallyOf(run) == old(P.TallyOf(run))
    {
      P.TallyNext(run, P.SpawnFails);
      P.ExtendRun(plan0, run, P.SpawnFails);
      run := run + [P.SpawnFails];
    }

    // The first wave, subtask `i` of the plan.
    method Launch(i: nat, ghost pool: P.PoolView)
      requires Valid() && i == launched < |plan.subtasks| && UniqueIds(plan.subtasks)
      requires AgentPool.MayAdmit(pool.limits, pool.active, pool.task, running.Keys)
      modifies this, plan
      ensures Valid() && Stepped(old(run), P.Launches(old(agents), pool))
      ensures launched == i + 1 && |plan.subtasks| == old(|plan.subtasks|) && running != map[]
      ensures running == old(running)[old(agents) := old(plan.subtasks)[i].id] && signals == old(signals)
      ensures S.Marked(old(plan.subtasks), plan.subtasks, old(plan.subtasks)[i].id, Running)
      ensures P.TallyOf(run) == old(P.TallyOf(run))
    {
      hide AgentPool.MayAdmit;
      ghost var e := P.Launches(agents, pool);
      P.TallyNext(run, e);
      ghost var team := P.Team(plan.subtasks, launched, running, signals);
      P.ExtendTo(plan0, run, team, e);
      ghost var longer := run + [e];
      var id := plan.subtasks[i].id;
      plan.MarkAt(i, Running);
      running := running[agents := id];
      assert P.After(plan0, longer) == P.Team(plan.subtasks, launched + 1, running, signals);
      assert agents in running;
      agents := agents + 1;
      launched := launched + 1;
      run := longer;
    }

    method Relaunch(id: Id)
      requires Valid() && launched == |plan.subtasks| && P.Enabled(P.After(plan0, run), P.Respawns(id, agents))
      modifies this, plan
      ensures Valid() && Stepped(old(run), P.Respawns(id, old(agents)))
      ensures launched == old(launched) == |plan.subtasks|
      ensures running == old(running)[old(agents) := id] && signals == old(signals)
      ensures S.Marked(old(plan.subtasks), plan.subtasks, id, Running)
      ensures P.TallyOf(run) == old(P.TallyOf(run))
    {
      P.TallyNext(run, P.Respawns(id, agents));
      P.ExtendRun(plan0, run, P.Respawns(id, agents));
      run := run + [P.Respawns(id, agents)];
      plan.Mark(id, Running);
      running := running[agents := id];
      agents := agents + 1;
    }

    // A completion event, handled as in handleCollaborativeCompletion.
    method HandleCompletion(agent: AgentId, success: bool)
      requires Valid() && agent in running
      modifies this, plan
      ensures Valid() && running == old(running) - {agent}
      ensures Stepped(old(run), if old(running)[agent] == P.MANAGER then P.ManagerEnds(agent, true)
                                else P.WorkerEnds(agent, success))
      ensures old(running)[agent] == P.MANAGER ==>
                signals == old(signals) + [P.ManagerExited] && plan.subtasks == old(plan.subtasks)
      ensures old(running)[agent] != P.MANAGER && success ==>
                && signals == old(signals) + [P.WorkerCompleted(old(running)[agent])]
                && S.Marked(old(plan.subtasks), plan.subtasks, old(running)[agent], Completed)
      ensures old(running)[agent] != P.MANAGER && !success ==>
                && signals == old(signals) + [P.WorkerFailed(old(running)[agent])]
                && S.Marked(old(plan.subtasks), plan.subtasks, old(running)[agent], Failed)
      ensures launched == old(launched) && |plan.subtasks| == old(|plan.subtasks|)
      ensures P.TallyOf(run) == old(P.TallyOf(run))
    {
      P.TallyNext(run, P.ManagerEnds(agent, true));
      P.TallyNext(run, P.WorkerEnds(agent, success));
      var id := running[agent];
      if id == P.MANAGER {
        P.ExtendRun(plan0, run, P.ManagerEnds(agent, true));
        run := run + [P.ManagerEnds(agent, true)];
        running := running - {agent};
        signals := signals + [P.ManagerExited];
        return;
      }
      P.ExtendRun(plan0, run, P.WorkerEnds(agent, success));
      run := run + [P.WorkerEnds(agent, success)];
      running := running - {agent};
      if success {
        plan.Mark(id, Completed);
        signals := signals + [P.WorkerCompleted(id)];
      } else {
        plan.Mark(id, Failed);
        signals := signals + [P.WorkerFailed(id)];
      }
    }

    // The manager ends while its decision is awaited: nobody is told.
    method ManagerLeaves(agent: AgentId)
      requires Valid() && agent in running && running[agent] == P.MANAGER
      modifies this
      ensures Valid() && Stepped(old(run), P.ManagerEnds(agent, false))
      ensures running == old(running) - {agent} && launched == old(launched) && signals == old(signals)
      ensures P.TallyOf(run) == old(P.TallyOf(run))
    {
      P.TallyNext(run, P.ManagerEnds(agent, false));
      P.ExtendRun(plan0, run, P.ManagerEnds(agent, false));
      run := run + [P.ManagerEnds(agent, false)];
      running := running - {agent};
    }

    method Announce()
      requires Valid() && launched == |plan.subtasks| && P.OnlyManager(running)
      modifies this
      ensures Valid() && Stepped(old(run), P.Announces)
      ensures running == old(running) && launched == old(launched)
      ensures |signals| == |old(signals)| + 1 && signals[..|old(signals)|] == old(signals)
      ensures signals[|old(signals)|].AllWorkersDone? && P.Lists(signals[|old(signals)|].summary, plan.subtasks)
      ensures P.TallyOf(run) == old(P.TallyOf(run)).(announced := old(P.TallyOf(run)).announced + 1)
    {
      P.TallyNext(run, P.Announces);
      P.ExtendRun(plan0, run, P.Announces);
      run := run + [P.Announces];
      signals := signals + [P.AllWorkersDone(P.StatusColumn(plan.subtasks))];
    }

    // ---------- the loops ----------

    // Phase 2: one worker per subtask; when the pool is full, one completion is awaited
    // and the spawn tried once more.
    method LaunchAll(setting: S.Setting)
      returns (ok: bool, ending: Ending, ghost wave: seq<P.Event>, ghost phase: Phase)
      requires Valid() && launched == 0 && P.Teamable(plan0) && running != map[]
      modifies this, plan
      ensures run == old(run) + wave && launched <= |plan.subtasks| == |plan0|
      ensures Wave(setting, wave, launched, phase) && (ok ==> phase == Calm)
      ensures Valid() && (ok ==> launched == |plan.subtasks|)
      ensures !ok ==> (ending == SpawnFailed && phase == Broken) || (ending == Cancelled && phase == Calm && cancellable)
      ensures P.TallyOf(run) == old(P.TallyOf(run))
    {
      hide P.TallyOf, P.After, P.Feasible, Wave, AgentPool.MayRefuse;
      wave, phase := [], Calm;
      P.ReachableSound(plan0, run);
      WaveBegins(setting);
      for i := 0 to |plan.subtasks|
        invariant Valid() && launched == i <= |plan.subtasks| == |plan0|
        invariant run == old(run) + wave && Wave(setting, wave, i, phase) && phase == Calm
        invariant running != map[]
        invariant P.TallyOf(run) == old(P.TallyOf(run))
      {
        P.ReachableSound(plan0, run);
        var cancelled: bool := *;
        if cancellable && cancelled {
          return false, Cancelled, wave, phase;
        }
        var started;
        started, wave, phase := LaunchNext(setting, i, wave);
        if !started {
          return false, SpawnFailed, wave, phase;
        }
      }
      return true, Finished, wave, phase;
    }

    // The next subtask of the plan: spawned, at the second try if the pool was full, or not.
    method LaunchNext(setting: S.Setting, i: nat, ghost wave0: seq<P.Event>)
      returns (started: bool, ghost wave: seq<P.Event>, ghost phase: Phase)
      requires Valid() && i == launched < |plan.subtasks| && Wave(setting, wave0, i, Calm)
      requires P.Teamable(plan0) && running != map[]
      modifies this, plan
      ensures Valid() && |plan.subtasks| == old(|plan.subtasks|) && wave0 <= wave && run == old(run) + wave[|wave0|..]
      ensures launched == old(launched) + (if started then 1 else 0) && (started ==> running != map[])
      ensures Wave(setting, wave, launched, phase) && phase == if started then Calm else Broken
      ensures P.TallyOf(run) == old(P.TallyOf(run))
    {
      hide P.TallyOf, P.After, P.Feasible, Wave, AgentPool.Admits, AgentPool.OfTask;
      wave, phase := wave0, Calm;
      var active := O.AgentsNow(setting, running);
      var answer := O.AskPool(setting, active);
      if answer == O.Refused(S.PoolLimit(active)) {
        wave := AwaitSlot(setting, active, wave);
        phase := Waited;
        active := O.AgentsNow(setting, running);
        answer := O.AskPool(setting, active);
      }
      started := answer.Spawned?;
      if started {
        P.ReachableSound(plan0, run);
        P.SamePlanUnique(plan0, plan.subtasks);
        ghost var pool := View(setting, active);
        WaveNext(setting, wave, P.Launches(agents, pool), launched, phase);
        wave, phase := wave + [P.Launches(agents, pool)], Calm;
        Launch(i, pool);
      } else {
        WaveNext(setting, wave, P.SpawnFails, launched, phase);
        wave, phase := wave + [P.SpawnFails], Broken;
        Break();
      }
    }

    // The pool refuses the next launch: a completion is awaited.
    method AwaitSlot(setting: S.Setting, active: map<AgentId, AgentPool.TaskId>, ghost wave0: seq<P.Event>)
      returns (ghost wave: seq<P.Event>)
      requires Valid() && launched < |plan.subtasks| && Wave(setting, wave0, launched, Calm)
      requires AgentPool.MayRefuse(setting.limits, active, setting.task, running.Keys) && running != map[]
      modifies this, plan
      ensures Valid() && launched == old(launched) && |plan.subtasks| == old(|plan.subtasks|)
      ensures Wave(setting, wave, launched, Waited)
      ensures wave0 <= wave && run == old(run) + wave[|wave0|..]
      ensures P.TallyOf(run) == old(P.TallyOf(run))
    {
      hide P.TallyOf, P.After, P.Feasible, Wave, AgentPool.MayRefuse;
      ghost var e := Refuse(setting, active);
      WaveNext(setting, wave0, e, launched, Calm);
      wave := wave0 + [e];
      AwaitOne();
      WaveNext(setting, wave, run[|run| - 1], launched, Full);
      wave := wave + [run[|run| - 1]];
    }

    // The refusal as an event of the run.
    ghost method Refuse(setting: S.Setting, active: map<AgentId, AgentPool.TaskId>) returns (e: P.Event)
      requires Valid() && launched < |plan.subtasks|
      requires AgentPool.MayRefuse(setting.limits, active, setting.task, running.Keys)
      modifies this`run
      ensures e == P.LaunchRefused(View(setting, active))
      ensures Valid() && Stepped(old(run), e) && P.TallyOf(run) == old(P.TallyOf(run))
    {
      e := P.LaunchRefused(View(setting, active));
      P.TallyNext(run, e);
      P.ExtendRun(plan0, run, e);
      run := run + [e];
    }

    // Some completion, whichever comes first.
    method AwaitOne()
      requires Valid() && running != map[]
      modifies this, plan
      ensures Valid() && launched == old(launched) && |plan.subtasks| == old(|plan.subtasks|)
      ensures exists e :: Completion(e) && Stepped(old(run), e)
      ensures exists a :: a in old(running) && running == old(running) - {a}
      ensures P.TallyOf(run) == old(P.TallyOf(run))
    {
      var agent :| agent in running;
      var success: bool := *;
      HandleCompletion(agent, success);
      assert Completion(run[|run| - 1]) && Stepped(old(run), run[|run| - 1]);
    }

    // Completions until nobody runs, or the manager is alone.
    method AwaitWorkers() returns (outlook: Outlook, ghost ends: seq<P.Event>)
      requires Valid() && launched == |plan.subtasks|
      modifies this, plan
      ensures Valid() && launched == |plan.subtasks|
      ensures run == old(run) + ends && Completions(ends)
      ensures outlook == Interrupted ==> cancellable
      ensures outlook == NobodyRuns ==> running == map[]
      ensures outlook == ManagerAlone ==> P.OnlyManager(running)
      ensures P.TallyOf(run) == old(P.TallyOf(run))
    {
      hide P.TallyOf, P.After, P.Feasible;
      ends := [];
      while true
        invariant Valid() && launched == |plan.subtasks|
        invariant run == old(run) + ends && Completions(ends)
        invariant P.TallyOf(run) == old(P.TallyOf(run))
        decreases |running|
      {
        if |running| == 0 {
          return NobodyRuns, ends;
        }
        if P.OnlyManager(running) {
          return ManagerAlone, ends;
        }
        var cancelled: bool := *;
        if cancellable && cancelled {
          return Interrupted, ends;
        }
        ghost var before := running;
        AwaitOne();
        ghost var agent :| agent in before && running == before - {agent};
        WithoutSize(before, agent);
        ends := ends + [run[|run| - 1]];
      }
    }

    // The polling branch: the manager ends, the context is cancelled, or a respawn
    // message is found.  `script` tells what the environment does, from turn `at0` on.
    method WaitForManagerDecision(log0: seq<AgentMessage>, cursor0: nat, script: seq<Turn>, at0: nat)
      returns (d: Decision, cancelled: bool, log: seq<AgentMessage>, cursor: nat, at: nat)
      requires Valid() && P.OnlyManager(running) && P.Teamable(plan0) && launched == |plan.subtasks|
      requires Numbered(Logged(StepsOf(script))) && AtTurn(script, at0, log0, cursor0)
      modifies this
      ensures Valid() && launched == old(launched)
      ensures AtTurn(script, at, log, cursor) && WaitedTo(script, at0, at, d, cancelled)
      ensures log0 <= log && cursor0 <= cursor
      ensures if d == NoMoreRounds && !cancelled then exists agent :: Stepped(old(run), P.ManagerEnds(agent, false))
              else run == old(run)
      ensures !d.NoMoreRounds? ==> running == old(running)
      ensures d == NoMoreRounds && !cancelled ==> running == map[]
      ensures P.TallyOf(run) == old(P.TallyOf(run))
    {
      hide P.TallyOf, P.After, P.Feasible, AtTurn, Found, StepsOf, Numbered;
      log, cursor, at, cancelled := log0, cursor0, at0, false;
      TurnsLeft(script, at0, log0, cursor0);
      while at < |script|
        invariant Valid() && running == old(running) && run == old(run) && launched == old(launched)
        invariant AtTurn(script, at, log, cursor) && at0 <= at <= |script|
        invariant forall k :: at0 <= k < at ==> script[k].Polls?
        invariant forall k :: at0 <= k <= at ==> Found(script[..k]) == Found(script[..at0])
        invariant log0 <= log && cursor0 <= cursor && !cancelled
      {
        match script[at] {
          case Cancels =>
            TurnSkipped(script, at, log, cursor);
            return NoMoreRounds, true, log, cursor, at + 1;
          case ManagerGoes =>
            TurnSkipped(script, at, log, cursor);
            var agent :| agent in running;
            P.ReachableSound(plan0, run);
            P.LoneManager(P.After(plan0, run), agent);
            ManagerLeaves(agent);
            return NoMoreRounds, false, log, cursor, at + 1;
          case Polls(rows, dbOk) =>
            var reqs;
            reqs, log, cursor := PollTurn(log, cursor, script, at);
            at := at + 1;
            if |reqs| > 0 {
              return Respawn(reqs), false, log, cursor, at;
            }
        }
      }
      d := OutOfScript;
    }

    // One tick: rows written meanwhile are in the log, and the log is polled.
    method PollTurn(log0: seq<AgentMessage>, cursor0: nat, script: seq<Turn>, at: nat)
      returns (reqs: seq<RespawnRequest>, log: seq<AgentMessage>, cursor: nat)
      requires at < |script| && script[at].Polls?
      requires Numbered(Logged(StepsOf(script))) && AtTurn(script, at, log0, cursor0)
      ensures AtTurn(script, at + 1, log, cursor) && log0 <= log && cursor0 <= cursor
      ensures Found(script[..at + 1]) == Found(script[..at]) + if reqs == [] then [] else [reqs]
    {
      hide Respawns, StopAt, StepsOf, OfManager, Requests;
      ghost var n := Position(StepsOf(script[..at]));
      TurnTaken(script, at);
      ScriptNumbered(script, at + 1);
      hide Logged, Position;
      log := log0 + script[at].rows;
      CursorReads(log, n);
      SameCursor(log0, script[at].rows, n);
      ghost var n';
      reqs, cursor, n' := CheckRespawnRequests(log, cursor0, script[at].dbOk, n);
      assert log[..n] == log0[..n];
    }

    // Launch the fix workers of one respawn message.
    method RespawnWorkers(reqs: seq<RespawnRequest>) returns (cancelled: bool, ghost answers: seq<P.Event>)
      requires Valid() && launched == |plan.subtasks| && P.Teamable(plan0)
      modifies this, plan
      ensures Valid() && launched == |plan.subtasks|
      ensures cancelled ==> cancellable
      ensures !cancelled ==> run == old(run) + answers + [P.Reports(P.WorkersRespawned(|reqs|))]
      ensures !cancelled ==> Answers(plan0, reqs, answers)
      ensures cancelled ==> run == old(run) + answers && exists j :: 0 <= j <= |reqs| && Answers(plan0, reqs[..j], answers)
      ensures cancelled ==> P.TallyOf(run) == old(P.TallyOf(run))
      ensures !cancelled ==> P.TallyOf(run) == old(P.TallyOf(run)).(answered := old(P.TallyOf(run)).answered + 1)
    {
      hide P.TallyOf, P.After, P.Feasible;
      answers := [];
      for i := 0 to |reqs|
        invariant Valid() && launched == |plan.subtasks|
        invariant run == old(run) + answers && Answers(plan0, reqs[..i], answers)
        invariant P.TallyOf(run) == old(P.TallyOf(run))
      {
        var now: bool := *;
        cancelled := cancellable && now;
        if cancelled {
          return;
        }
        P.ReachableSound(plan0, run);
        P.SamePlanIds(plan0, plan.subtasks, reqs[i].subtaskId);
        var k := FindSubtask(plan.subtasks, reqs[i].subtaskId);
        AnswersNext(plan0, reqs, i, answers);
        if k < 0 {
          continue;
        }
        var started: bool := *;
        if started {
          answers := answers + [P.Respawns(reqs[i].subtaskId, agents)];
          Relaunch(plan.subtasks[k].id);
        } else {
          answers := answers + [P.Reports(P.RespawnFailed(reqs[i].subtaskId))];
          Send(P.RespawnFailed(reqs[i].subtaskId));
        }
      }
      cancelled := false;
      assert reqs[..|reqs|] == reqs;
      Send(P.WorkersRespawned(|reqs|));
    }

    // The manager is told that all workers are done, and what it decides is carried out.
    method Consult(log0: seq<AgentMessage>, cursor0: nat, script: seq<Turn>, at0: nat)
      returns (d: Decision, cancelled: bool, log: seq<AgentMessage>, cursor: nat, at: nat, ghost more: seq<P.Event>)
      requires Valid() && P.OnlyManager(running) && P.Teamable(plan0) && launched == |plan.subtasks|
      requires Numbered(Logged(StepsOf(script))) && AtTurn(script, at0, log0, cursor0)
      modifies this, plan
      ensures Valid() && launched == |plan.subtasks|
      ensures AtTurn(script, at, log, cursor) && WaitedTo(script, at0, at, d, cancelled && !d.Respawn?) && log0 <= log
      ensures d == NoMoreRounds && !cancelled ==> running == map[]
      ensures d.Respawn? && cancelled ==> cancellable
      ensures P.TallyOf(run) == P.Tally(old(P.TallyOf(run)).announced + 1,
                old(P.TallyOf(run)).answered + if d.Respawn? && !cancelled then 1 else 0)
      ensures run == old(run) + [P.Announces] + more
      ensures Decided(plan0, d, cancelled, more)
    {
      hide P.TallyOf, P.After, P.Feasible, Answers, AtTurn, WaitedTo, StepsOf, Numbered;
      Announce();
      d, cancelled, log, cursor, at := WaitForManagerDecision(log0, cursor0, script, at0);
      more := run[|old(run)| + 1..];
      WaitTells(script, at0, at, d, cancelled);
      if d.Respawn? {
        cancelled, more := RespawnWorkers(d.reqs);
        if !cancelled {
          more := more + [P.Reports(P.WorkersRespawned(|d.reqs|))];
        }
      }
    }

    // Phase 3: rounds of waiting, announcing and respawning.
    method Rounds(script: seq<Turn>, ghost wave: seq<P.Event>)
      returns (ending: Ending, cancelled: bool, round: nat, log: seq<AgentMessage>, used: nat, ghost story: Story)
      requires Valid() && launched == |plan.subtasks| && P.Teamable(plan0) && P.TallyOf(run) == P.Tally(0, 0)
      requires Numbered(Logged(StepsOf(script)))
      modifies this, plan
      ensures Valid() && launched == |plan.subtasks|
      ensures ending == Finished && !cancelled ==> running == map[]
      ensures ending == Finished || ending == Suspended || (ending == Cancelled && cancellable)
      ensures used <= |script| && log == Logged(StepsOf(script[..used]))
      ensures ending == Suspended ==> used == |script|
      ensures ending == Finished && cancelled ==> used > 0 && script[used - 1] == Cancels
      ensures ending == Finished && !cancelled && story.rest != [] ==> used > 0 && script[used - 1] == ManagerGoes
      ensures RoundsKept(ending, round, P.TallyOf(run), |Found(script[..used])|)
      ensures story.wave == wave && run == old(run) + Played(story.rounds) + story.ends + story.rest
      ensures RoundsTold(plan0, ending, cancelled, Found(script[..used]), story)
    {
      hide P.TallyOf, P.After, P.Feasible, Answers, Played, Requested, RoundsSound, RoundsTold, Closes, AtTurn, WaitedTo,
           Completions, Decided, StepsOf, Found, Numbered;
      round, log, used, cancelled := 0, [], 0, false;
      story := Story(wave, [], [], []);
      Nothing(plan0);
      NoTurns(script);
      var cursor: nat := 0;
      while true
        invariant Valid() && launched == |plan.subtasks|
        invariant AtTurn(script, used, log, cursor) && used <= |script|
        invariant P.TallyOf(run) == P.Tally(round, round) && round == |Found(script[..used])| && !cancelled
        invariant story.wave == wave && run == old(run) + Played(story.rounds)
        invariant Requested(story.rounds) == Found(script[..used]) && RoundsSound(plan0, story.rounds)
        decreases |script| - used
      {
        var outlook;
        ghost var ends;
        TurnTells(script, used, log, cursor);
        RequestedSize(story.rounds);
        outlook, ends := AwaitWorkers();
        if outlook != ManagerAlone {
          ending := if outlook == Interrupted then Cancelled else Finished;
          cancelled := outlook == Interrupted;
          ClosesBetween(plan0, ending, cancelled, ends);
          story := Over(plan0, ending, cancelled, Found(script[..used]), story, ends, []);
          return;
        }
        round := round + 1;
        var d;
        ghost var more, at0 := [], used;
        d, cancelled, log, cursor, used, more := Consult(log, cursor, script, used);
        WaitTells(script, at0, used, d, cancelled && !d.Respawn?);
        TurnTells(script, used, log, cursor);
        if !d.Respawn? || cancelled {
          ending := EndingOf(d);
          story := OverAfter(plan0, d, cancelled, story, ends, more);
          return;
        }
        RoundDecided(plan0, d.reqs, more);
        story := Told(plan0, story, Round(ends, d.reqs, more[..|more| - 1]));
      }
    }
  }

  lemma WaitTells(script: seq<Turn>, at0: nat, at: nat, d: Decision, cancelled: bool)
    requires WaitedTo(script, at0, at, d, cancelled)
    ensures at0 <= at <= |script| && Found(script[..at]) == Found(script[..at0]) + (if d.Respawn? then [d.reqs] else [])
    ensures d.Respawn? ==> at0 < at && !cancelled
    ensures d == OutOfScript ==> at == |script| && !cancelled
    ensures d == NoMoreRounds ==> at > 0 && script[at - 1] == if cancelled then Cancels else ManagerGoes
  {
    hide Found;
  }

  lemma TurnTells(script: seq<Turn>, at: nat, log: seq<AgentMessage>, cursor: nat)
    requires AtTurn(script, at, log, cursor)
    ensures at <= |script| && log == Logged(StepsOf(script[..at]))
  {
  }

  lemma RequestedSize(rounds: seq<Round>)
    ensures |Requested(rounds)| == |rounds|
  {
  }

  lemma Nothing(plan: seq<Subtask>)
    ensures RoundsSound(plan, []) && Played([]) == [] && Requested([]) == []
  {
  }

  lemma WaveBegins(setting: S.Setting)
    ensures Wave(setting, [], 0, Calm)
  {
  }

  // The story with one more round.
  lemma Told(plan: seq<Subtask>, before: Story, r: Round) returns (story: Story)
    requires RoundsSound(plan, before.rounds) && RoundSound(plan, r)
    ensures story == before.(rounds := before.rounds + [r]) && RoundsSound(plan, story.rounds)
    ensures Played(story.rounds) == Played(before.rounds) + RoundEvents(r)
    ensures Requested(story.rounds) == Requested(before.rounds) + [r.reqs]
  {
    story := before.(rounds := before.rounds + [r]);
    PlayedNext(before.rounds, r);
  }

  lemma ClosesBetween(plan: seq<Subtask>, ending: Ending, cancelled: bool, ends: seq<P.Event>)
    requires Completions(ends) && (ending == Cancelled || (ending == Finished && !cancelled))
    ensures Closes(plan, ending, cancelled, [], ends, [])
  {
  }

  lemma ClosesAfter(plan: seq<Subtask>, d: Decision, cancelled: bool, ends: seq<P.Event>, more: seq<P.Event>)
    requires Completions(ends) && Decided(plan, d, cancelled, more) && (d.Respawn? ==> cancelled)
    ensures Closes(plan, EndingOf(d), cancelled, if d.Respawn? then [d.reqs] else [], ends, [P.Announces] + more)
  {
    hide Answers, Completions;
    assert ([P.Announces] + more)[1..] == more;
    if d.Respawn? {
      var j :| 0 <= j <= |d.reqs| && Answers(plan, d.reqs[..j], more);
      assert Answers(plan, [d.reqs][0][..j], ([P.Announces] + more)[1..]);
    }
  }

  // The story with its end after a last decision.
  lemma OverAfter(plan: seq<Subtask>, d: Decision, cancelled: bool, before: Story, ends: seq<P.Event>, more: seq<P.Event>)
    returns (story: Story)
    requires RoundsSound(plan, before.rounds)
    requires Completions(ends) && Decided(plan, d, cancelled, more) && (d.Respawn? ==> cancelled)
    ensures story == before.(ends := ends, rest := [P.Announces] + more)
    ensures RoundsTold(plan, EndingOf(d), cancelled, Requested(before.rounds) + (if d.Respawn? then [d.reqs] else []), story)
  {
    ClosesAfter(plan, d, cancelled, ends, more);
    hide Closes, Decided;
    var taken := Requested(before.rounds) + if d.Respawn? then [d.reqs] else [];
    assert taken[|before.rounds|..] == if d.Respawn? then [d.reqs] else [];
    story := Over(plan, EndingOf(d), cancelled, taken, before, ends, [P.Announces] + more);
  }

  lemma RoundDecided(plan: seq<Subtask>, reqs: seq<RespawnRequest>, more: seq<P.Event>)
    requires Decided(plan, Respawn(reqs), false, more)
    ensures more != [] && more == more[..|more| - 1] + [P.Reports(P.WorkersRespawned(|reqs|))]
    ensures Answers(plan, reqs, more[..|more| - 1])
  {
  }

  lemma StoryJoins(first: P.Event, story: Story)
    ensures [first] + story.wave + Played(story.rounds) + story.ends + story.rest == [first] + StoryEvents(story)
  {
  }

  lemma OnlyWave(wave: seq<P.Event>)
    ensures StoryEvents(Story(wave, [], [], [])) == wave
  {
  }

  // The story with its end.
  lemma Over(plan: seq<Subtask>, ending: Ending, cancelled: bool, taken: seq<seq<RespawnRequest>>,
             rounds: Story, ends: seq<P.Event>, rest: seq<P.Event>) returns (story: Story)
    requires RoundsSound(plan, rounds.rounds) && Requested(rounds.rounds) <= taken
    requires Closes(plan, ending, cancelled, taken[|rounds.rounds|..], ends, rest)
    ensures story == rounds.(ends := ends, rest := rest) && RoundsTold(plan, ending, cancelled, taken, story)
  {
    story := rounds.(ends := ends, rest := rest);
  }

  // One announcement per round; every respawn message taken up has been answered, but
  // for the last when cancellation came first; the last round may end without one.
  predicate RoundsKept(ending: Ending, round: nat, tally: P.Tally, taken: nat) {
    && round == tally.announced
    && (round == taken || round == taken + 1)
    && (tally.answered == taken || (ending == Cancelled && tally.answered + 1 == taken))
  }

  // One event per request that names a subtask of the plan: a fix worker, or RESPAWN_FAILED.
  ghost predicate Answers(plan: seq<Subtask>, reqs: seq<RespawnRequest>, answers: seq<P.Event>)
    decreases |reqs|
  {
    if reqs == [] then answers == []
    else
      var id := reqs[|reqs| - 1].subtaskId;
      var rest := reqs[..|reqs| - 1];
      if !HasId(plan, id) then Answers(plan, rest, answers)
      else
        && answers != []
        && Answers(plan, rest, answers[..|answers| - 1])
        && var e := answers[|answers| - 1];
           (e.Respawns? && e.id == id) || e == P.Reports(P.RespawnFailed(id))
  }

  lemma AnswersNext(plan: seq<Subtask>, reqs: seq<RespawnRequest>, i: nat, answers: seq<P.Event>)
    requires i < |reqs| && Answers(plan, reqs[..i], answers)
    ensures !HasId(plan, reqs[i].subtaskId) ==> Answers(plan, reqs[..i + 1], answers)
    ensures HasId(plan, reqs[i].subtaskId) ==>
              forall e: P.Event ::
                (e.Respawns? && e.id == reqs[i].subtaskId) || e == P.Reports(P.RespawnFailed(reqs[i].subtaskId)) ==>
                Answers(plan, reqs[..i + 1], answers + [e])
  {
    assert reqs[..i + 1][..i] == reqs[..i];
    forall e: P.Event ensures (answers + [e])[..|answers|] == answers { }
  }

  method FindSubtask(subtasks: seq<Subtask>, id: Id) returns (k: int)
    ensures k >= 0 ==> k < |subtasks| && subtasks[k].id == id
    ensures k < 0 <==> !HasId(subtasks, id)
  {
    k := 0;
    while k < |subtasks|
      invariant 0 <= k <= |subtasks|
      invariant forall j :: 0 <= j < k ==> subtasks[j].id != id
    {
      if subtasks[k].id == id {
        return;
      }
      k := k + 1;
    }
    k := -1;
  }

  // A whole collaborative run.  Whatever happens, it is a run of the protocol that ends
  // in the statuses the plan shows: the manager, a first wave, and rounds.  Each respawn
  // message is taken up exactly once, in order, and answered in its own round; there is
  // one announcement per round and at most one round more than respawn messages; and
  // finishing without cancellation leaves no agent running.
  method RunCollaborative(plan: O.ExecutionPlan, setting: S.Setting, script: seq<Turn>, cancellable: bool)
    returns (ending: Ending, cancelled: bool, round: nat, log: seq<AgentMessage>, used: nat,
             ghost run: seq<P.Event>, ghost story: Story)
    requires P.Teamable(plan.subtasks) && Numbered(Logged(StepsOf(script)))
    modifies plan
    ensures P.Feasible(old(plan.subtasks), run)
    ensures plan.subtasks == P.After(old(plan.subtasks), run).subtasks
    ensures used <= |script| && log == Logged(StepsOf(script[..used]))
    ensures (ending == Suspended ==> used == |script|) && (ending == Cancelled ==> cancellable)
    ensures ending == Finished && cancelled ==> used > 0 && script[used - 1] == Cancels
    ensures ending == Finished && !cancelled && story.rest != [] ==> used > 0 && script[used - 1] == ManagerGoes
    ensures RoundsKept(ending, round, P.TallyOf(run), |Found(script[..used])|)
    ensures run == [P.SpawnFails] ==> ending == SpawnFailed && Found(script[..used]) == []
    ensures run != [P.SpawnFails] ==>
              && run == [P.ManagerSpawns(0)] + StoryEvents(story)
              && StoryTold(old(plan.subtasks), setting, ending, cancelled, Found(script[..used]), story)
              && RefusedInCompany(old(plan.subtasks), [P.ManagerSpawns(0)], story.wave)
    ensures ending == SpawnFailed ==> run != [] && run[|run| - 1] == P.SpawnFails
    ensures ending == Finished && !cancelled ==>
              var t := P.After(old(plan.subtasks), run);
              && t.running == map[]
              && P.Spawns(run) == P.EndSignals(t.signals)
              && forall st :: st in plan.subtasks ==> P.Ended(st.status)
  {
    hide Wave, RoundsTold, P.TallyOf, P.Feasible, P.After, StoryEvents, Found, StepsOf, Numbered,
         P.Ended, P.Spawns, P.EndSignals, RefusedInCompany;
    ghost var plan0 := plan.subtasks;
    var c := new CollaborativeRun(plan, cancellable);
    cancelled, round, log, used := false, 0, [], 0;
    story := Story([], [], [], []);
    Nothing(plan0);
    NoTurns(script);
    WaveBegins(setting);
    P.NoTally();
    var managerStarted: bool := *;
    c.SpawnManager(managerStarted);
    run := c.run;
    if !managerStarted {
      ending := SpawnFailed;
      return;
    }
    ghost var first := c.run;
    assert first == [P.ManagerSpawns(0)];
    assert P.Feasible(plan0, first) && P.After(plan0, first).running == c.running;
    var ok;
    ghost var wave, phase;
    ok, ending, wave, phase := c.LaunchAll(setting);
    run := c.run;
    story := Story(wave, [], [], []);
    OnlyWave(wave);
    assert [P.ManagerSpawns(0)] + wave == run && run[0] == P.ManagerSpawns(0);
    SomebodyRuns(plan0, setting, first, wave, c.launched, phase);
    if !ok {
      if ending == SpawnFailed {
        BrokenWave(setting, wave, c.launched);
      }
      return;
    }
    ending, cancelled, round, log, used, story := c.Rounds(script, wave);
    run := c.run;
    StoryJoins(P.ManagerSpawns(0), story);
    assert run[0] == P.ManagerSpawns(0);
    if ending == Finished && !cancelled {
      P.NothingRunning(plan0, run);
    }
  }
}
