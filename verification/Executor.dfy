// Sequential execution with cancellation and resume from persisted statuses
// (internal/task/executor.go).
module Execution {
  import opened Plans

  // ---------- what an execution may leave in the plan row ----------

  // The first `k` subtasks completed, the rest untouched.
  function Done(plan: seq<Subtask>, k: nat): (r: seq<Subtask>)
    requires k <= |plan|
    ensures |r| == |plan|
  {
    seq(|plan|, i requires 0 <= i < |plan| => if i < k then plan[i].(status := Completed) else plan[i])
  }

  predicate DepsEarlier(plan: seq<Subtask>, k: nat)
    requires k < |plan|
  {
    forall dep :: dep in plan[k].dependsOn ==> HasId(plan[..k], dep)
  }

  // The first `k` subtasks can be completed in list order.
  predicate Achievable(plan: seq<Subtask>, ok: set<Id>, k: nat) {
    k <= |plan| && forall j :: 0 <= j < k ==> plan[j].id in ok && DepsEarlier(plan, j)
  }

  ghost predicate FreshList(plan: seq<Subtask>) {
    UniqueIds(plan) && forall st :: st in plan ==> st.status == Unset || st.status == Pending
  }

  // `s` shows exactly `k` completed subtasks, the first ones, and at most the next
  // one started: running or failed.
  predicate Shows(plan: seq<Subtask>, ok: set<Id>, s: seq<Subtask>, k: nat) {
    && Achievable(plan, ok, k)
    && (s == Done(plan, k) ||
        (k < |plan| && DepsEarlier(plan, k) && (s == Started(plan, k, Running) || s == Started(plan, k, Failed))))
  }

  function Started(plan: seq<Subtask>, k: nat, v: Status): seq<Subtask>
    requires k < |plan|
  {
    Done(plan, k)[k := plan[k].(status := v)]
  }

  // Where an execution with these outcomes ends, told from the plan alone.
  function Final(plan: seq<Subtask>, ok: set<Id>, k: nat): seq<Subtask>
    requires k <= |plan|
    decreases |plan| - k
  {
    if k == |plan| || !DepsEarlier(plan, k) then Done(plan, k)
    else if plan[k].id !in ok then Started(plan, k, Failed)
    else Final(plan, ok, k + 1)
  }

  // Starting further along an achievable prefix makes no difference.
  lemma {:induction false} FinalFromAnywhere(plan: seq<Subtask>, ok: set<Id>, k: nat)
    requires Achievable(plan, ok, k)
    ensures Final(plan, ok, 0) == Final(plan, ok, k)
  {
    if k > 0 {
      FinalFromAnywhere(plan, ok, k - 1);
    }
  }

  // The final statuses in closed form: everything before the first subtask that fails
  // or has a dependency that is not listed earlier is completed, everything after it is untouched.
  lemma {:induction false} FinalStops(plan: seq<Subtask>, ok: set<Id>, k: nat) returns (m: nat)
    requires Achievable(plan, ok, k)
    ensures k <= m <= |plan| && Achievable(plan, ok, m)
    ensures m < |plan| ==> !(plan[m].id in ok && DepsEarlier(plan, m))
    ensures Final(plan, ok, k) ==
            if m < |plan| && DepsEarlier(plan, m) then Started(plan, m, Failed) else Done(plan, m)
    decreases |plan| - k
  {
    if k == |plan| || !DepsEarlier(plan, k) || plan[k].id !in ok {
      m := k;
    } else {
      m := FinalStops(plan, ok, k + 1);
    }
  }

  // ---------- dependency checks on a snapshot ----------

  // The first subtask with the id decides.
  predicate DepMet(subtasks: seq<Subtask>, dep: Id) {
    if subtasks == [] then false
    else if subtasks[0].id == dep then subtasks[0].status == Completed
    else DepMet(subtasks[1..], dep)
  }

  lemma {:induction false} DepMetFirst(subtasks: seq<Subtask>, dep: Id)
    ensures DepMet(subtasks, dep) <==>
            exists k :: 0 <= k < |subtasks| && FirstWith(subtasks, dep, k) && subtasks[k].status == Completed
  {
    if subtasks != [] && subtasks[0].id != dep {
      var rest := subtasks[1..];
      DepMetFirst(rest, dep);
      forall k | 1 <= k < |subtasks| ensures FirstWith(subtasks, dep, k) <==> FirstWith(rest, dep, k - 1) {
        assert forall j :: 0 < j <= k ==> rest[j - 1] == subtasks[j];
      }
      if k :| 0 <= k < |rest| && FirstWith(rest, dep, k) && rest[k].status == Completed {
        assert FirstWith(subtasks, dep, k + 1);
      }
    } else if subtasks != [] {
      assert FirstWith(subtasks, dep, 0);
    }
  }

  lemma DepMetUnique(subtasks: seq<Subtask>, dep: Id)
    requires UniqueIds(subtasks)
    ensures DepMet(subtasks, dep) <==>
            exists k :: 0 <= k < |subtasks| && subtasks[k].id == dep && subtasks[k].status == Completed
  {
    DepMetFirst(subtasks, dep);
    if k :| 0 <= k < |subtasks| && subtasks[k].id == dep && subtasks[k].status == Completed {
      assert FirstWith(subtasks, dep, k);
    }
  }

  lemma SnapshotIds(plan: seq<Subtask>, ok: set<Id>, s: seq<Subtask>, k: nat)
    requires FreshList(plan) && Shows(plan, ok, s, k)
    ensures |s| == |plan| && UniqueIds(s) && k <= |plan|
    ensures forall i :: 0 <= i < |plan| ==> s[i].id == plan[i].id && s[i].dependsOn == plan[i].dependsOn
    ensures forall i :: 0 <= i < |plan| ==> (s[i].status == Completed <==> i < k)
  {
    assert forall i :: 0 <= i < |plan| ==> plan[i] in plan;
  }

  // On a snapshot the check is about the order of the list.
  lemma SnapshotDeps(plan: seq<Subtask>, ok: set<Id>, s: seq<Subtask>, k: nat)
    requires FreshList(plan) && Shows(plan, ok, s, k) && k < |plan|
    ensures (forall dep :: dep in s[k].dependsOn ==> DepMet(s, dep)) <==> DepsEarlier(plan, k)
  {
    SnapshotIds(plan, ok, s, k);
    forall dep ensures DepMet(s, dep) <==> HasId(plan[..k], dep) {
      DepMetUnique(s, dep);
      if DepMet(s, dep) {
        var i :| 0 <= i < |s| && s[i].id == dep && s[i].status == Completed;
        assert plan[..k][i].id == dep;
      }
      if HasId(plan[..k], dep) {
        var i :| 0 <= i < k && plan[..k][i].id == dep;
        assert s[i].id == dep;
      }
    }
  }

  // ---------- the executor ----------

  // The plan's row in the database, and the subtasks executed on its behalf so far.
  class PlanRow {
    var subtasks: seq<Subtask>
    ghost var executed: seq<Id>

    constructor (subtasks: seq<Subtask>)
      ensures this.subtasks == subtasks && executed == []
    {
      this.subtasks := subtasks;
      executed := [];
    }
  }

  datatype ExecutionResult = ExecutionResult(completed: seq<Id>, failed: seq<Id>, error: bool)

  function Ids(subtasks: seq<Subtask>): seq<Id> {
    seq(|subtasks|, i requires 0 <= i < |subtasks| => subtasks[i].id)
  }

  method DependenciesMet(subtasks: seq<Subtask>, subtask: Subtask) returns (met: bool)
    ensures met <==> forall dep :: dep in subtask.dependsOn ==> DepMet(subtasks, dep)
  {
    for d := 0 to |subtask.dependsOn|
      invariant forall dep :: dep in subtask.dependsOn[..d] ==> DepMet(subtasks, dep)
    {
      var depId := subtask.dependsOn[d];
      assert subtask.dependsOn[..d + 1] == subtask.dependsOn[..d] + [depId];
      var found := false;
      var i := 0;
      while i < |subtasks|
        invariant 0 <= i <= |subtasks| && !found
        invariant DepMet(subtasks, depId) == DepMet(subtasks[i..], depId)
      {
        if subtasks[i].id == depId {
          found := true;
          if subtasks[i].status != Completed {
            return false;
          }
          break;
        }
        assert subtasks[i..][1..] == subtasks[i + 1..];
        i := i + 1;
      }
      if !found {
        assert subtasks[i..] == [];
        return false;
      }
    }
    assert subtask.dependsOn[..|subtask.dependsOn|] == subtask.dependsOn;
    return true;
  }

  // What the environment does during one turn of the loop: whether the context is
  // cancelled before the check, by the first write, or while the container runs; whether a
  // cancelled container fails; and which writes on a cancelled context are lost.
  datatype Weather = Weather(before: bool, atStart: bool, startLost: bool, during: bool, cutShort: bool, endLost: bool)

  // After the turns it is told for, nothing more happens.
  function WeatherAt(env: seq<Weather>, i: nat): Weather {
    if i < |env| then env[i] else Weather(false, false, false, false, false, false)
  }

  // The UPDATE runs on the task's context: once that is cancelled it may not happen.
  method UpdatePlanSubtasks(row: PlanRow, subtasks: seq<Subtask>, cancelled: bool, lost: bool)
    modifies row`subtasks
    ensures row.subtasks == if cancelled && lost then old(row.subtasks) else subtasks
  {
    if !(cancelled && lost) {
      row.subtasks := subtasks;
    }
  }

  // A container runs for the subtask; cancellation may end it early.
  method ExecuteSubtask(row: PlanRow, id: Id, ok: set<Id>, cancelled0: bool, w: Weather)
    returns (failed: bool, cancelled: bool)
    modifies row`executed
    ensures row.executed == old(row.executed) + [id]
    ensures cancelled == (cancelled0 || w.during)
    ensures failed == (id !in ok || (cancelled && w.cutShort))
  {
    row.executed := row.executed + [id];
    cancelled := cancelled0 || w.during;
    failed := id !in ok || (cancelled && w.cutShort);
  }

  // What is left after subtask `i` was executed in some weather.
  datatype Turnout = Turnout(row: seq<Subtask>, failed: bool, cancelled: bool)

  function Ran(plan: seq<Subtask>, ok: set<Id>, row: seq<Subtask>, i: nat, w: Weather): Turnout
    requires i < |plan|
  {
    var cancelled := w.atStart || w.during;
    var failed := plan[i].id !in ok || (cancelled && w.cutShort);
    var started := if w.atStart && w.startLost then row else Started(plan, i, Running);
    var ended := if failed then Started(plan, i, Failed) else Done(plan, i + 1);
    Turnout(if cancelled && w.endLost then started else ended, failed, cancelled)
  }

  // What is left after an execution that has come to position `i`; the row it found shows
  // `k0` subtasks as completed.
  datatype Outcome = Outcome(row: seq<Subtask>, cancelled: bool, reached: nat)

  function Executed(plan: seq<Subtask>, ok: set<Id>, env: seq<Weather>, row: seq<Subtask>, k0: nat, i: nat): Outcome
    requires i <= |plan|
    decreases |plan| - i
  {
    if i == |plan| then Outcome(row, false, if i < k0 then k0 else i)
    else if WeatherAt(env, i).before then Outcome(row, true, if i < k0 then k0 else i)
    else if i < k0 then Executed(plan, ok, env, row, k0, i + 1)
    else if !DepsEarlier(plan, i) then Outcome(row, false, i)
    else
      var t := Ran(plan, ok, row, i, WeatherAt(env, i));
      if t.failed || t.cancelled then Outcome(t.row, t.cancelled, i + 1)
      else Executed(plan, ok, env, t.row, k0, i + 1)
  }

  lemma StartedShows(plan: seq<Subtask>, ok: set<Id>, k: nat, v: Status)
    requires Achievable(plan, ok, k) && k < |plan| && DepsEarlier(plan, k) && (v == Running || v == Failed)
    ensures Shows(plan, ok, Started(plan, k, v), k)
  {
  }

  lemma WriteStatus(plan: seq<Subtask>, ok: set<Id>, s: seq<Subtask>, k: nat, v: Status)
    requires FreshList(plan) && Shows(plan, ok, s, k) && k < |plan|
    ensures |s| == |plan|
    ensures s[k := s[k].(status := v)] == if v == Completed then Done(plan, k + 1) else Started(plan, k, v)
  {
  }

  // Execute one subtask whose dependencies are met.
  method RunSubtask(row: PlanRow, subtasks0: seq<Subtask>, i: nat, ok: set<Id>, w: Weather,
                    ghost plan: seq<Subtask>, ghost k0: nat)
    returns (subtasks: seq<Subtask>, failed: bool, cancelled: bool, ghost k: nat)
    requires FreshList(plan) && Shows(plan, ok, subtasks0, i) && i < |plan| == |subtasks0| && DepsEarlier(plan, i)
    requires k0 <= i && Shows(plan, ok, row.subtasks, k0)
    modifies row
    ensures row.executed == old(row.executed) + [plan[i].id]
    ensures Turnout(row.subtasks, failed, cancelled) == Ran(plan, ok, old(row.subtasks), i, w)
    ensures subtasks == if failed then Started(plan, i, Failed) else Done(plan, i + 1)
    ensures k0 <= k <= (if failed then i else i + 1) && Shows(plan, ok, row.subtasks, k)
    ensures !cancelled ==> row.subtasks == subtasks && k == if failed then i else i + 1
  {
    hide DepsEarlier, FreshList;
    k := k0;
    subtasks := subtasks0;
    WriteStatus(plan, ok, subtasks, i, Running);
    StartedShows(plan, ok, i, Running);
    subtasks := subtasks[i := subtasks[i].(status := Running)];
    k := UpdateRow(row, subtasks, w.atStart, w.startLost, plan, ok, k, i);
    failed, cancelled := ExecuteSubtask(row, subtasks[i].id, ok, w.atStart, w);
    if failed {
      WriteStatus(plan, ok, subtasks, i, Failed);
      StartedShows(plan, ok, i, Failed);
      subtasks := subtasks[i := subtasks[i].(status := Failed)];
      k := UpdateRow(row, subtasks, cancelled, w.endLost, plan, ok, k, i);
    } else {
      WriteStatus(plan, ok, subtasks, i, Completed);
      DoneShows(plan, ok, i);
      subtasks := subtasks[i := subtasks[i].(status := Completed)];
      k := UpdateRow(row, subtasks, cancelled, w.endLost, plan, ok, k, i + 1);
    }
  }

  lemma DoneShows(plan: seq<Subtask>, ok: set<Id>, i: nat)
    requires i < |plan|
    ensures Achievable(plan, ok, i) && plan[i].id in ok && DepsEarlier(plan, i) ==>
              Shows(plan, ok, Done(plan, i + 1), i + 1)
  {
  }

  method UpdateRow(row: PlanRow, subtasks: seq<Subtask>, cancelled: bool, lost: bool,
                   ghost plan: seq<Subtask>, ghost ok: set<Id>, ghost k0: nat, ghost i: nat)
    returns (ghost k: nat)
    requires k0 <= i && Shows(plan, ok, row.subtasks, k0) && Shows(plan, ok, subtasks, i)
    modifies row`subtasks
    ensures row.subtasks == if cancelled && lost then old(row.subtasks) else subtasks
    ensures k0 <= k <= i && Shows(plan, ok, row.subtasks, k)
    ensures !cancelled ==> k == i
  {
    UpdatePlanSubtasks(row, subtasks, cancelled, lost);
    k := if cancelled && lost then k0 else i;
  }

  datatype Turn = AlreadyCompleted | Unmet | Broke | Succeeded

  // What the loop does with one subtask, while the context is not yet cancelled.
  method TakeTurn(row: PlanRow, subtasks0: seq<Subtask>, i: nat, ok: set<Id>, w: Weather,
                  ghost plan: seq<Subtask>, ghost reached: nat)
    returns (turn: Turn, subtasks: seq<Subtask>, cancelled: bool, ghost k: nat)
    requires FreshList(plan) && Shows(plan, ok, subtasks0, reached) && i <= reached && i < |plan| == |subtasks0|
    requires row.subtasks == subtasks0
    modifies row
    ensures turn == AlreadyCompleted <==> i < reached
    ensures row.executed == old(row.executed) + if turn == Broke || turn == Succeeded then [plan[i].id] else []
    ensures turn == AlreadyCompleted || turn == Unmet ==>
              subtasks == subtasks0 && row.subtasks == subtasks && !cancelled && k == reached
    ensures turn == Broke || turn == Succeeded ==>
              Turnout(row.subtasks, turn == Broke, cancelled) == Ran(plan, ok, old(row.subtasks), i, w)
    ensures turn == Unmet ==> !DepsEarlier(plan, i)
    ensures turn == Broke || turn == Succeeded ==> DepsEarlier(plan, i)
    ensures turn == Broke ==> k == i && (!cancelled ==> subtasks == Started(plan, i, Failed) && plan[i].id !in ok)
    ensures turn == Succeeded ==> i <= k <= i + 1 && subtasks == Done(plan, i + 1) && Achievable(plan, ok, i + 1)
    ensures turn == Succeeded && !cancelled ==> k == i + 1
    ensures turn == Succeeded ==> Shows(plan, ok, subtasks, i + 1)
    ensures |subtasks| == |plan|
    ensures Shows(plan, ok, row.subtasks, k)
    ensures !cancelled ==> row.subtasks == subtasks
  {
    SnapshotIds(plan, ok, subtasks0, reached);
    subtasks, cancelled, k := subtasks0, false, reached;
    if subtasks[i].status == Completed {
      turn := AlreadyCompleted;
      return;
    }
    SnapshotDeps(plan, ok, subtasks, i);
    var met := DependenciesMet(subtasks, subtasks[i]);
    if !met {
      turn := Unmet;
      return;
    }
    var failed;
    subtasks, failed, cancelled, k := RunSubtask(row, subtasks, i, ok, w, plan, reached);
    turn := if failed then Broke else Succeeded;
  }

  // The subtasks from position `a` up to, not including, `b`.
  function IdsFrom(plan: seq<Subtask>, a: nat, b: nat): seq<Id>
    requires a <= b <= |plan|
  {
    Ids(plan[a..b])
  }

  lemma IdsNext(plan: seq<Subtask>, a: nat, b: nat)
    requires a <= b < |plan|
    ensures IdsFrom(plan, a, b + 1) == IdsFrom(plan, a, b) + [plan[b].id]
  {
  }

  // What the result of a call tells, however it ended: the first subtasks are listed as
  // completed.  Without a failure these are all that were executed or found completed, and
  // the whole plan unless the call was cancelled; a failure names the next subtask, which
  // was executed last or has a dependency that is not listed earlier.
  ghost predicate Reports(plan: seq<Subtask>, ok: set<Id>, k0: nat, reached: nat, cancelled: bool, r: ExecutionResult) {
    var n := |r.completed|;
    && n <= |plan| && (forall j :: 0 <= j < n ==> r.completed[j] == plan[j].id)
    && (r.error <==> r.failed != [])
    && (r.failed == [] ==> reached == (if n < k0 then k0 else n) && (n < |plan| ==> cancelled))
    && (r.failed != [] ==>
          && k0 <= n < |plan| && r.failed == [plan[n].id]
          && ((reached == n && !DepsEarlier(plan, n)) || (reached == n + 1 && (plan[n].id in ok ==> cancelled))))
  }

  lemma NothingFailed(plan: seq<Subtask>, ok: set<Id>, k0: nat, reached: nat, cancelled: bool, i: nat)
    requires i <= |plan| && reached == (if i < k0 then k0 else i) && (i < |plan| ==> cancelled)
    ensures Reports(plan, ok, k0, reached, cancelled, ExecutionResult(IdsFrom(plan, 0, i), [], false))
  {
  }

  lemma NextFailed(plan: seq<Subtask>, ok: set<Id>, k0: nat, reached: nat, cancelled: bool, i: nat)
    requires k0 <= i < |plan|
    requires (reached == i && !DepsEarlier(plan, i)) || (reached == i + 1 && (plan[i].id in ok ==> cancelled))
    ensures Reports(plan, ok, k0, reached, cancelled, ExecutionResult(IdsFrom(plan, 0, i), [plan[i].id], true))
  {
  }

  // One call of Execute on a row left by earlier calls for the same plan.  It executes the
  // subtasks from position `k0`, the first the row did not show as completed, up to
  // `reached`, each with its dependencies completed.  The outcome is told by the plan, the
  // row it finds, and what the environment does; in calm weather nothing is cancelled.
  method Execute(row: PlanRow, ok: set<Id>, env: seq<Weather>, ghost plan: seq<Subtask>, ghost k0: nat)
    returns (result: ExecutionResult, cancelled: bool, ghost k: nat, ghost reached: nat)
    requires FreshList(plan) && Shows(plan, ok, row.subtasks, k0)
    modifies row
    ensures k0 <= k <= reached <= |plan| && reached <= k + 1 && Shows(plan, ok, row.subtasks, k)
    ensures row.executed == old(row.executed) + IdsFrom(plan, k0, reached)
    ensures forall j :: k0 <= j < reached ==> DepsEarlier(plan, j)
    ensures Outcome(row.subtasks, cancelled, reached) == Executed(plan, ok, env, old(row.subtasks), k0, 0)
    ensures env == [] ==> !cancelled
    ensures !cancelled ==> row.subtasks == Final(plan, ok, 0)
    ensures !cancelled ==> reached == if k < |plan| && DepsEarlier(plan, k) then k + 1 else k
    ensures !cancelled ==>
              result == ExecutionResult(Ids(plan[..k]), if k < |plan| then [plan[k].id] else [], k < |plan|)
    ensures Reports(plan, ok, k0, reached, cancelled, result)
  {
    hide Shows, Achievable, Started, Done, Final, IdsFrom, DepsEarlier, FreshList, Ran, Executed, Reports;
    cancelled, k, reached := false, k0, k0;
    SnapshotIds(plan, ok, row.subtasks, k0);
    EmptyRange(plan, k0);
    EmptyRange(plan, 0);
    result := ExecutionResult([], [], false);
    var subtasks := row.subtasks;
    var i := 0;
    while i < |subtasks|
      invariant 0 <= i <= |subtasks| == |plan|
      invariant k0 <= k <= reached <= k + 1 && Shows(plan, ok, row.subtasks, k)
      invariant Shows(plan, ok, subtasks, reached)
      invariant reached == if i <= k0 then k0 else i
      invariant row.executed == old(row.executed) + IdsFrom(plan, k0, reached)
      invariant forall j :: k0 <= j < reached ==> DepsEarlier(plan, j)
      invariant !cancelled ==> row.subtasks == subtasks && k == reached
      invariant env == [] ==> !cancelled
      invariant Executed(plan, ok, env, old(row.subtasks), k0, 0) ==
                if cancelled then Outcome(row.subtasks, true, reached)
                else Executed(plan, ok, env, row.subtasks, k0, i)
      invariant result == ExecutionResult(IdsFrom(plan, 0, i), [], false)
    {
      IdsNext(plan, 0, i);
      var w := WeatherAt(env, i);
      ExecutedStep(plan, ok, env, row.subtasks, k0, i);
      CalmRuns(plan, ok, row.subtasks, i);
      cancelled := cancelled || w.before;
      if cancelled {
        NothingFailed(plan, ok, k0, reached, cancelled, i);
        return;
      }
      SnapshotIds(plan, ok, subtasks, reached);
      var id, turn := subtasks[i].id, Unmet;
      turn, subtasks, cancelled, k := TakeTurn(row, subtasks, i, ok, w, plan, reached);
      if turn == Unmet || turn == Broke {
        if turn == Broke {
          IdsNext(plan, k0, i);
          reached := i + 1;
        }
        if !cancelled {
          PrefixRange(plan, i);
          StopsHere(plan, ok, i);
        }
        result := ExecutionResult(result.completed, result.failed + [id], true);
        assert result == ExecutionResult(IdsFrom(plan, 0, i), [plan[i].id], true);
        NextFailed(plan, ok, k0, reached, cancelled, i);
        return;
      }
      if turn == Succeeded {
        IdsNext(plan, k0, i);
        reached := i + 1;
      }
      result := result.(completed := result.completed + [id]);
      i := i + 1;
    }
    if !cancelled {
      AtTheEnd(plan, ok, subtasks);
    }
    ExecutedEnd(plan, ok, env, row.subtasks, k0);
    PrefixRange(plan, |plan|);
    NothingFailed(plan, ok, k0, reached, cancelled, |plan|);
  }

  lemma CalmRuns(plan: seq<Subtask>, ok: set<Id>, row: seq<Subtask>, i: nat)
    requires i < |plan|
    ensures !Ran(plan, ok, row, i, WeatherAt([], i)).cancelled
  {
  }

  // One turn of an execution.
  lemma ExecutedStep(plan: seq<Subtask>, ok: set<Id>, env: seq<Weather>, row: seq<Subtask>, k0: nat, i: nat)
    requires i < |plan|
    ensures Executed(plan, ok, env, row, k0, i) ==
            if WeatherAt(env, i).before then Outcome(row, true, if i < k0 then k0 else i)
            else if i < k0 then Executed(plan, ok, env, row, k0, i + 1)
            else if !DepsEarlier(plan, i) then Outcome(row, false, i)
            else
              var t := Ran(plan, ok, row, i, WeatherAt(env, i));
              if t.failed || t.cancelled then Outcome(t.row, t.cancelled, i + 1)
              else Executed(plan, ok, env, t.row, k0, i + 1)
  {
  }

  lemma ExecutedEnd(plan: seq<Subtask>, ok: set<Id>, env: seq<Weather>, row: seq<Subtask>, k0: nat)
    ensures Executed(plan, ok, env, row, k0, |plan|) == Outcome(row, false, if |plan| < k0 then k0 else |plan|)
  {
  }

  lemma EmptyRange(plan: seq<Subtask>, k: nat)
    requires k <= |plan|
    ensures IdsFrom(plan, k, k) == []
  {
  }

  lemma PrefixRange(plan: seq<Subtask>, k: nat)
    requires k <= |plan|
    ensures IdsFrom(plan, 0, k) == Ids(plan[..k])
  {
    assert plan[0..k] == plan[..k];
  }

  lemma AtTheEnd(plan: seq<Subtask>, ok: set<Id>, s: seq<Subtask>)
    requires Shows(plan, ok, s, |plan|)
    ensures Final(plan, ok, 0) == s
  {
    FinalFromAnywhere(plan, ok, |plan|);
  }

  lemma StopsHere(plan: seq<Subtask>, ok: set<Id>, k: nat)
    requires Achievable(plan, ok, k) && k < |plan| && !(plan[k].id in ok && DepsEarlier(plan, k))
    ensures Final(plan, ok, 0) == if DepsEarlier(plan, k) then Started(plan, k, Failed) else Done(plan, k)
  {
    FinalFromAnywhere(plan, ok, k);
  }

  // ---------- pause and resume ----------

  // One call of Execute: the row it found, the subtasks it executed, the row it left,
  // and whether it was cancelled.
  datatype Call = Call(before: seq<Subtask>, executed: seq<Id>, after: seq<Subtask>, paused: bool)

  // Each call takes up the row the one before it left.
  predicate Chained(calls: seq<Call>, first: seq<Subtask>, last: seq<Subtask>) {
    && calls != [] && calls[0].before == first && calls[|calls| - 1].after == last
    && forall c :: 0 <= c < |calls| - 1 ==> calls[c].after == calls[c + 1].before
  }

  predicate ShownCompleted(subtasks: seq<Subtask>, id: Id) {
    exists j :: 0 <= j < |subtasks| && subtasks[j].id == id && subtasks[j].status == Completed
  }

  // What any row found or left showed as completed stays so and is executed in no later call.
  ghost predicate NeverAgain(calls: seq<Call>) {
    forall c, d, id :: 0 <= c <= d < |calls| && ShownCompleted(calls[c].before, id) ==>
      id !in calls[d].executed && ShownCompleted(calls[d].after, id)
  }

  // A call executes, in list order and each with its dependencies completed, the subtasks
  // from the first one not shown as completed on; at most the last of them is not shown as
  // completed afterwards; and it stops early only when cancelled.
  ghost predicate Explains(plan: seq<Subtask>, ok: set<Id>, call: Call, k0: nat, k: nat, reached: nat) {
    && k0 <= k <= reached <= |plan| && reached <= k + 1
    && Shows(plan, ok, call.before, k0) && Shows(plan, ok, call.after, k)
    && call.executed == IdsFrom(plan, k0, reached)
    && (forall j :: k0 <= j < reached ==> DepsEarlier(plan, j))
    && (!call.paused ==> call.after == Final(plan, ok, 0) &&
                         reached == if k < |plan| && DepsEarlier(plan, k) then k + 1 else k)
  }

  ghost predicate Explained(plan: seq<Subtask>, ok: set<Id>, call: Call) {
    exists k0, k, reached :: Explains(plan, ok, call, k0, k, reached)
  }

  lemma ShownIsBelow(plan: seq<Subtask>, ok: set<Id>, s: seq<Subtask>, k: nat, id: Id)
    requires FreshList(plan) && Shows(plan, ok, s, k)
    ensures ShownCompleted(s, id) <==> exists j :: 0 <= j < k && plan[j].id == id
  {
    SnapshotIds(plan, ok, s, k);
    if j :| 0 <= j < k && plan[j].id == id {
      assert s[j].id == id;
    }
  }

  // What was shown as completed before a call is not executed by it and still shown after it.
  lemma CallKeeps(plan: seq<Subtask>, ok: set<Id>, call: Call, k0: nat, k: nat, reached: nat, id: Id)
    requires FreshList(plan) && Explains(plan, ok, call, k0, k, reached) && ShownCompleted(call.before, id)
    ensures id !in call.executed && ShownCompleted(call.after, id)
  {
    ShownIsBelow(plan, ok, call.before, k0, id);
    ShownIsBelow(plan, ok, call.after, k, id);
    assert forall m :: 0 <= m < reached - k0 ==> call.executed[m] == plan[k0 + m].id;
  }

  // The ids executed in all calls.
  function AllExecuted(calls: seq<Call>): seq<Id> {
    if calls == [] then [] else AllExecuted(calls[..|calls| - 1]) + calls[|calls| - 1].executed
  }

  // What any call found shown as completed, the row still shows.
  ghost predicate Persists(calls: seq<Call>, row: seq<Subtask>) {
    forall c, id :: 0 <= c < |calls| && ShownCompleted(calls[c].before, id) ==> ShownCompleted(row, id)
  }

  // The state of a lifecycle: `k` subtasks shown as completed after the calls so far.
  ghost predicate Living(plan: seq<Subtask>, ok: set<Id>, calls: seq<Call>, row: seq<Subtask>, k: nat) {
    && Shows(plan, ok, row, k)
    && (if calls == [] then row == plan else Chained(calls, plan, row))
    && NeverAgain(calls) && Persists(calls, row)
    && (forall c :: c in calls ==> Explained(plan, ok, c))
    && |AllExecuted(calls)| <= k + |calls|
  }

  lemma NeverAgainNext(calls: seq<Call>, call: Call)
    requires NeverAgain(calls) && Persists(calls, call.before)
    requires forall id :: ShownCompleted(call.before, id) ==> id !in call.executed && ShownCompleted(call.after, id)
    ensures NeverAgain(calls + [call]) && Persists(calls + [call], call.after)
  {
    hide ShownCompleted;
  }

  lemma LivesOn(plan: seq<Subtask>, ok: set<Id>, calls: seq<Call>, call: Call, k0: nat, k: nat, reached: nat)
    requires FreshList(plan) && Living(plan, ok, calls, call.before, k0) && Explains(plan, ok, call, k0, k, reached)
    ensures Living(plan, ok, calls + [call], call.after, k)
    ensures |AllExecuted(calls + [call])| <= reached + |calls|
    ensures AllExecuted(calls + [call]) == AllExecuted(calls) + call.executed
  {
    hide Shows, ShownCompleted, Final, DepsEarlier, NeverAgain, Persists, FreshList;
    var longer := calls + [call];
    assert longer[..|calls|] == calls;
    forall id | ShownCompleted(call.before, id) ensures id !in call.executed && ShownCompleted(call.after, id) {
      CallKeeps(plan, ok, call, k0, k, reached, id);
    }
    NeverAgainNext(calls, call);
    assert Explained(plan, ok, call);
  }

  // Any number of calls in any weather, then one in calm weather, end as one uninterrupted
  // execution with the same outcomes does.  Nothing shown as completed is executed again,
  // and each pause costs at most one repeated subtask.
  method Lifecycle(row: PlanRow, ok: set<Id>, envs: seq<seq<Weather>>)
    returns (result: ExecutionResult, ghost calls: seq<Call>, ghost k: nat)
    requires FreshList(row.subtasks)
    modifies row
    ensures row.subtasks == Final(old(row.subtasks), ok, 0)
    ensures |calls| == |envs| + 1 && Chained(calls, old(row.subtasks), row.subtasks)
    ensures row.executed == old(row.executed) + AllExecuted(calls)
    ensures NeverAgain(calls) && !calls[|envs|].paused
    ensures forall c :: c in calls ==> Explained(old(row.subtasks), ok, c)
    ensures |AllExecuted(calls)| <= |row.subtasks| + |envs|
    ensures Shows(old(row.subtasks), ok, row.subtasks, k) && |row.subtasks| == |old(row.subtasks)|
    ensures result == ExecutionResult(Ids(old(row.subtasks)[..k]),
                                      if k < |row.subtasks| then [old(row.subtasks)[k].id] else [], k < |row.subtasks|)
  {
    hide Living, Chained, NeverAgain, Shows, Final, Explained, DepsEarlier, FreshList, AllExecuted;
    ghost var plan := row.subtasks;
    k := 0;
    ghost var reached;
    var cancelled;
    calls := [];
    LivesFirst(plan, ok);
    for n := 0 to |envs|
      invariant FreshList(plan) && Shows(plan, ok, row.subtasks, k) && |calls| == n
      invariant Living(plan, ok, calls, row.subtasks, k)
      invariant row.executed == old(row.executed) + AllExecuted(calls)
    {
      ghost var before, k0 := row.subtasks, k;
      result, cancelled, k, reached := Execute(row, ok, envs[n], plan, k0);
      ghost var call := Call(before, IdsFrom(plan, k0, reached), row.subtasks, cancelled);
      LivesOn(plan, ok, calls, call, k0, k, reached);
      calls := calls + [call];
    }
    ghost var before, k0 := row.subtasks, k;
    result, cancelled, k, reached := Execute(row, ok, [], plan, k0);
    ghost var call := Call(before, IdsFrom(plan, k0, reached), row.subtasks, cancelled);
    LivesOn(plan, ok, calls, call, k0, k, reached);
    calls := calls + [call];
    LivedOnce(plan, ok, calls, row.subtasks, k);
    ShowsWithin(plan, ok, row.subtasks, k);
  }

  // Of two calls that follow each other the second repeats a subtask exactly if the first
  // left one started that the row does not show as completed, and the second gets to it.
  lemma RepeatsExactlyWhen(plan: seq<Subtask>, ok: set<Id>, call: Call, next: Call,
                           k0: nat, k: nat, reached: nat, k': nat, reached': nat)
    requires FreshList(plan) && call.after == next.before
    requires Explains(plan, ok, call, k0, k, reached) && Explains(plan, ok, next, k, k', reached')
    ensures (exists id :: id in call.executed && id in next.executed) <==> reached == k + 1 && reached' > k
    ensures forall id :: id in call.executed && id in next.executed ==> id == plan[k].id
  {
    hide Shows, Final, DepsEarlier;
    assert forall m :: 0 <= m < reached - k0 ==> call.executed[m] == plan[k0 + m].id;
    assert forall m :: 0 <= m < reached' - k ==> next.executed[m] == plan[k + m].id;
    if reached == k + 1 && reached' > k {
      assert call.executed[k - k0] == plan[k].id && next.executed[0] == plan[k].id;
      assert plan[k].id in call.executed && plan[k].id in next.executed;
    }
  }

  // The bound on repetitions is reached: a pause while the only subtask runs, whose last
  // write is lost, costs one.
  const ONE_PLAN: seq<Subtask> := [Subtask("a", "a", "a", [], [], Pending)]
  const PAUSE: Weather := Weather(false, false, false, true, false, true)

  method OnePauseRepeats() returns (row: PlanRow)
    ensures fresh(row) && row.executed == ["a", "a"]
    ensures row.subtasks == Final(ONE_PLAN, {"a"}, 0)
  {
    row := new PlanRow(ONE_PLAN);
    PausedExecution();
    var _, _, k, reached := Execute(row, {"a"}, [PAUSE], ONE_PLAN, 0);
    var _, _, _, _ := Execute(row, {"a"}, [], ONE_PLAN, 0);
  }

  lemma PausedExecution()
    ensures FreshList(ONE_PLAN) && Shows(ONE_PLAN, {"a"}, ONE_PLAN, 0)
    ensures Executed(ONE_PLAN, {"a"}, [PAUSE], ONE_PLAN, 0, 0) == Outcome(Started(ONE_PLAN, 0, Running), true, 1)
    ensures Shows(ONE_PLAN, {"a"}, Started(ONE_PLAN, 0, Running), 0)
    ensures Executed(ONE_PLAN, {"a"}, [], Started(ONE_PLAN, 0, Running), 0, 0) == Outcome(Done(ONE_PLAN, 1), false, 1)
    ensures IdsFrom(ONE_PLAN, 0, 1) == ["a"]
  {
    var plan := ONE_PLAN;
    assert Done(plan, 0) == plan && DepsEarlier(plan, 0);
    ExecutedStep(plan, {"a"}, [PAUSE], plan, 0, 0);
    ExecutedStep(plan, {"a"}, [], Started(plan, 0, Running), 0, 0);
    ExecutedEnd(plan, {"a"}, [], Done(plan, 1), 0);
  }

  lemma ShowsWithin(plan: seq<Subtask>, ok: set<Id>, s: seq<Subtask>, k: nat)
    requires Shows(plan, ok, s, k)
    ensures k <= |plan| == |s|
  {
  }

  lemma LivesFirst(plan: seq<Subtask>, ok: set<Id>)
    requires FreshList(plan)
    ensures Shows(plan, ok, plan, 0) && Living(plan, ok, [], plan, 0) && AllExecuted([]) == []
  {
    assert Done(plan, 0) == plan;
  }

  lemma LivedOnce(plan: seq<Subtask>, ok: set<Id>, calls: seq<Call>, row: seq<Subtask>, k: nat)
    requires Living(plan, ok, calls, row, k) && calls != []
    ensures Chained(calls, plan, row) && NeverAgain(calls) && |row| == |plan|
    ensures forall c :: c in calls ==> Explained(plan, ok, c)
  {
  }
}
