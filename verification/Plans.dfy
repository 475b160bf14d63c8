// The plan of subtasks (internal/task/plan.go, internal/db/models.go) and its validation.
module Plans {

  type Id = string
  type File = string
  type AgentId = nat

  // `Unset` is the empty status string a planner leaves behind.
  datatype Status = Unset | Pending | Running | Completed | Failed | Skipped

  datatype Subtask = Subtask(
    id: Id,
    name: string,
    prompt: string,
    dependsOn: seq<Id>,
    filesInvolved: seq<File>,
    status: Status)

  datatype PlanOutput = PlanOutput(strategy: string, subtasks: seq<Subtask>)

  datatype PlanError =
    | InvalidStrategy
    | NoSubtasks
    | MissingId
    | DuplicateId(id: Id)
    | MissingName(id: Id)
    | MissingPrompt(id: Id)
    | UnknownDependency(id: Id, dep: Id)

  datatype Validation = Accepted | Rejected(error: PlanError)

  // Position `k` is the first with the id.
  predicate FirstWith(subtasks: seq<Subtask>, id: Id, k: nat)
    requires k < |subtasks|
  {
    subtasks[k].id == id && forall j :: 0 <= j < k ==> subtasks[j].id != id
  }

  predicate HasId(subtasks: seq<Subtask>, id: Id) {
    exists k :: 0 <= k < |subtasks| && subtasks[k].id == id
  }

  predicate UniqueIds(subtasks: seq<Subtask>) {
    forall j, k :: 0 <= j < k < |subtasks| ==> subtasks[j].id != subtasks[k].id
  }

  predicate ClosedDependencies(subtasks: seq<Subtask>) {
    forall k, dep :: 0 <= k < |subtasks| && dep in subtasks[k].dependsOn ==> HasId(subtasks, dep)
  }

  predicate WellFormed(st: Subtask) {
    st.id != "" && st.name != "" && st.prompt != ""
  }

  // What a caller may rely on once a plan has been accepted.
  predicate ValidSubtasks(subtasks: seq<Subtask>) {
    && UniqueIds(subtasks)
    && ClosedDependencies(subtasks)
  }

  predicate ValidPlan(plan: PlanOutput) {
    && plan.strategy in ["parallel", "sequential"]
    && plan.subtasks != []
    && (forall k :: 0 <= k < |plan.subtasks| ==> WellFormed(plan.subtasks[k]))
    && ValidSubtasks(plan.subtasks)
  }

  // The defect an error reports is really in the plan.
  ghost predicate Witnesses(plan: PlanOutput, error: PlanError) {
    match error
    case InvalidStrategy => plan.strategy !in ["parallel", "sequential"]
    case NoSubtasks => plan.subtasks == []
    case MissingId => HasId(plan.subtasks, "")
    case DuplicateId(id) =>
      exists j, k :: 0 <= j < k < |plan.subtasks| && plan.subtasks[j].id == plan.subtasks[k].id == id
    case MissingName(id) =>
      exists k :: 0 <= k < |plan.subtasks| && plan.subtasks[k].id == id && plan.subtasks[k].name == ""
    case MissingPrompt(id) =>
      exists k :: 0 <= k < |plan.subtasks| && plan.subtasks[k].id == id && plan.subtasks[k].prompt == ""
    case UnknownDependency(id, dep) =>
      && !HasId(plan.subtasks, dep)
      && exists k :: 0 <= k < |plan.subtasks| && plan.subtasks[k].id == id && dep in plan.subtasks[k].dependsOn
  }

  // A valid plan is one without any of these defects.
  lemma ValidMeansFlawless(plan: PlanOutput)
    ensures ValidPlan(plan) <==> forall error :: !Witnesses(plan, error)
  {
    hide ClosedDependencies, UniqueIds;
    SubtasksFlawless(plan);
    if forall error :: !Witnesses(plan, error) {
      assert !Witnesses(plan, InvalidStrategy) && !Witnesses(plan, NoSubtasks) && !Witnesses(plan, MissingId);
      forall k | 0 <= k < |plan.subtasks| ensures WellFormed(plan.subtasks[k]) {
        var id := plan.subtasks[k].id;
        assert !Witnesses(plan, MissingName(id)) && !Witnesses(plan, MissingPrompt(id));
      }
    }
    if ValidPlan(plan) {
      forall error ensures !Witnesses(plan, error) {
      }
    }
  }

  lemma SubtasksFlawless(plan: PlanOutput)
    ensures UniqueIds(plan.subtasks) <==> forall id :: !Witnesses(plan, DuplicateId(id))
    ensures ClosedDependencies(plan.subtasks) <==> forall id, dep :: !Witnesses(plan, UnknownDependency(id, dep))
  {
    hide HasId;
    if !UniqueIds(plan.subtasks) {
      var j, k :| 0 <= j < k < |plan.subtasks| && plan.subtasks[j].id == plan.subtasks[k].id;
      assert Witnesses(plan, DuplicateId(plan.subtasks[j].id));
    }
    if !ClosedDependencies(plan.subtasks) {
      var k, dep :| 0 <= k < |plan.subtasks| && dep in plan.subtasks[k].dependsOn && !HasId(plan.subtasks, dep);
      assert Witnesses(plan, UnknownDependency(plan.subtasks[k].id, dep));
    }
  }

  method ValidatePlan(plan: PlanOutput) returns (r: Validation)
    ensures r.Accepted? <==> ValidPlan(plan)
    ensures r.Rejected? ==> Witnesses(plan, r.error)
  {
    if plan.strategy != "parallel" && plan.strategy != "sequential" {
      return Rejected(InvalidStrategy);
    }
    if |plan.subtasks| == 0 {
      return Rejected(NoSubtasks);
    }
    var ids: set<Id> := {};
    for i := 0 to |plan.subtasks|
      invariant forall id :: id in ids <==> HasId(plan.subtasks[..i], id)
      invariant UniqueIds(plan.subtasks[..i])
      invariant forall k :: 0 <= k < i ==> WellFormed(plan.subtasks[k])
    {
      var st := plan.subtasks[i];
      assert plan.subtasks[..i + 1] == plan.subtasks[..i] + [st];
      if st.id == "" {
        return Rejected(MissingId);
      }
      if st.id in ids {
        ghost var j :| 0 <= j < i && plan.subtasks[..i][j].id == st.id;
        assert plan.subtasks[j].id == plan.subtasks[i].id;
        return Rejected(DuplicateId(st.id));
      }
      ids := ids + {st.id};
      if st.name == "" {
        return Rejected(MissingName(st.id));
      }
      if st.prompt == "" {
        return Rejected(MissingPrompt(st.id));
      }
      assert plan.subtasks[..i + 1][i].id == st.id;
      forall id ensures id in ids <==> HasId(plan.subtasks[..i + 1], id) {
        if HasId(plan.subtasks[..i], id) {
          var k :| 0 <= k < i && plan.subtasks[..i][k].id == id;
          assert plan.subtasks[..i + 1][k].id == id;
        }
      }
    }
    assert plan.subtasks[..|plan.subtasks|] == plan.subtasks;
    for i := 0 to |plan.subtasks|
      invariant forall k, dep :: 0 <= k < i && dep in plan.subtasks[k].dependsOn ==> HasId(plan.subtasks, dep)
    {
      var st := plan.subtasks[i];
      for j := 0 to |st.dependsOn|
        invariant forall dep :: dep in st.dependsOn[..j] ==> HasId(plan.subtasks, dep)
      {
        if st.dependsOn[j] !in ids {
          return Rejected(UnknownDependency(st.id, st.dependsOn[j]));
        }
        assert st.dependsOn[..j + 1] == st.dependsOn[..j] + [st.dependsOn[j]];
      }
      assert st.dependsOn[..|st.dependsOn|] == st.dependsOn;
    }
    return Accepted;
  }
}
