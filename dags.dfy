/**
 * The generated project's DAG checks, over DAGs given as plain records: tags drawn from
 * an approved list, an owner on every task with catch-up off, at least one task or task
 * group with every trigger rule "all_success", and DAG ids unique across the bag.
 */
module DagValidation {
  import opened Wrappers
  import opened Seqs

  datatype Task = Task(taskId: string, owner: string, triggerRule: string)

  /** What the checks read of a DAG. An absent owner is the empty string: both are falsy. */
  datatype Dag = Dag(dagId: string, tags: seq<string>, catchup: bool, tasks: seq<Task>, hasTaskGroup: bool)

  const ApprovedTags: set<string> := {"maintainance"}

  // ---------------------------------------------------------------------------
  // Tags
  // ---------------------------------------------------------------------------

  /** The tag test: the DAG has at least one tag and, unless the approved set is empty,
      no tag outside it. */
  predicate TagsPass(dag: Dag, approved: set<string>) {
    |dag.tags| > 0 && (approved != {} ==> SetOf(dag.tags) - approved == {})
  }

  /** The tag check passes exactly when the DAG has a tag and, if anything is approved,
      every tag is approved. */
  lemma TagsPassIff(dag: Dag, approved: set<string>)
    ensures TagsPass(dag, approved) <==>
              |dag.tags| > 0
              && (approved != {} ==> forall i :: 0 <= i < |dag.tags| ==> dag.tags[i] in approved)
  {
    if approved != {} && SetOf(dag.tags) - approved == {} {
      forall i | 0 <= i < |dag.tags| ensures dag.tags[i] in approved {
        assert dag.tags[i] in SetOf(dag.tags);
        assert dag.tags[i] !in SetOf(dag.tags) - approved;
      }
    }
  }

  /** With the project's approved set, "maintainance" is the only tag allowed. */
  lemma OnlyMaintainanceTag(dag: Dag)
    ensures TagsPass(dag, ApprovedTags) <==>
              |dag.tags| > 0 && forall i :: 0 <= i < |dag.tags| ==> dag.tags[i] == "maintainance"
  {
    TagsPassIff(dag, ApprovedTags);
  }

  /** With nothing approved, only the presence of a tag is checked. */
  lemma EmptyApprovedSet(dag: Dag)
    ensures TagsPass(dag, {}) <==> |dag.tags| > 0
  {
  }

  // ---------------------------------------------------------------------------
  // Owner and catch-up, for every task of every DAG in the bag
  // ---------------------------------------------------------------------------

  datatype ParameterFailure =
    | NoOwner(dagId: string, taskId: string)
    | CatchupNotFalse(dagId: string, taskId: string)

  /** The two assertions made for one task, in order. */
  function ParameterCheck(dag: Dag, task: Task): Option<ParameterFailure> {
    if task.owner == "" then Some(NoOwner(dag.dagId, task.taskId))
    else if dag.catchup then Some(CatchupNotFalse(dag.dagId, task.taskId))
    else None
  }

  predicate TaskParametersOk(dag: Dag) {
    forall j :: 0 <= j < |dag.tasks| ==> ParameterCheck(dag, dag.tasks[j]).None?
  }

  /** A DAG passes exactly when every task has an owner and, if it has any task at all,
      catch-up is off: a DAG without tasks passes whatever its catch-up setting. */
  lemma TaskParametersOkIff(dag: Dag)
    ensures TaskParametersOk(dag) <==>
              (forall j :: 0 <= j < |dag.tasks| ==> dag.tasks[j].owner != "")
              && (|dag.tasks| > 0 ==> !dag.catchup)
  {
    if |dag.tasks| > 0 && TaskParametersOk(dag) {
      assert ParameterCheck(dag, dag.tasks[0]).None?;
    }
  }

  /** The task-parameter test: every task of every DAG, in bag order; the first failed
      assertion is reported. */
  method CheckTaskParameters(bag: seq<Dag>) returns (failure: Option<ParameterFailure>)
    ensures failure.None? <==> forall i :: 0 <= i < |bag| ==> TaskParametersOk(bag[i])
    ensures failure.Some? ==>
              exists i, j :: 0 <= i < |bag| && 0 <= j < |bag[i].tasks|
                && (forall k :: 0 <= k < i ==> TaskParametersOk(bag[k]))
                && (forall k :: 0 <= k < j ==> ParameterCheck(bag[i], bag[i].tasks[k]).None?)
                && failure == ParameterCheck(bag[i], bag[i].tasks[j])
  {
    var i := 0;
    while i < |bag|
      invariant 0 <= i <= |bag|
      invariant forall k :: 0 <= k < i ==> TaskParametersOk(bag[k])
    {
      var dag := bag[i];
      var j := 0;
      while j < |dag.tasks|
        invariant 0 <= j <= |dag.tasks|
        invariant forall k :: 0 <= k < j ==> ParameterCheck(dag, dag.tasks[k]).None?
      {
        var task := dag.tasks[j];
        if task.owner == "" {
          return Some(NoOwner(dag.dagId, task.taskId));
        }
        if dag.catchup {
          return Some(CatchupNotFalse(dag.dagId, task.taskId));
        }
        j := j + 1;
      }
      i := i + 1;
    }
    return None;
  }

  // ---------------------------------------------------------------------------
  // Tasks and trigger rules, per DAG
  // ---------------------------------------------------------------------------

  datatype TaskFailure =
    | NoTasksOrGroups(dagId: string)
    | WrongTriggerRule(dagId: string, taskId: string, rule: string)

  predicate DagTaskOk(dag: Dag) {
    (|dag.tasks| > 0 || dag.hasTaskGroup)
    && forall j :: 0 <= j < |dag.tasks| ==> dag.tasks[j].triggerRule == "all_success"
  }

  /** The task test: a task or a task group must exist, then every task's trigger rule
      must be "all_success"; the first failed assertion is reported. */
  method CheckDagTask(dag: Dag) returns (failure: Option<TaskFailure>)
    ensures failure.None? <==> DagTaskOk(dag)
    ensures failure == Some(NoTasksOrGroups(dag.dagId)) <==> |dag.tasks| == 0 && !dag.hasTaskGroup
    ensures failure.Some? && failure.value.WrongTriggerRule? ==>
              exists j :: 0 <= j < |dag.tasks|
                && (forall k :: 0 <= k < j ==> dag.tasks[k].triggerRule == "all_success")
                && dag.tasks[j].triggerRule != "all_success"
                && failure.value == WrongTriggerRule(dag.dagId, dag.tasks[j].taskId, dag.tasks[j].triggerRule)
    ensures failure.Some? && (|dag.tasks| > 0 || dag.hasTaskGroup) ==> failure.value.WrongTriggerRule?
  {
    var hasTask := |dag.tasks| > 0;
    if !(hasTask || dag.hasTaskGroup) {
      return Some(NoTasksOrGroups(dag.dagId));
    }
    var j := 0;
    while j < |dag.tasks|
      invariant 0 <= j <= |dag.tasks|
      invariant forall k :: 0 <= k < j ==> dag.tasks[k].triggerRule == "all_success"
    {
      var rule := dag.tasks[j].triggerRule;
      if rule != "all_success" {
        return Some(WrongTriggerRule(dag.dagId, dag.tasks[j].taskId, rule));
      }
      j := j + 1;
    }
    return None;
  }

  // ---------------------------------------------------------------------------
  // Unique DAG ids across the bag
  // ---------------------------------------------------------------------------

  /** The ids of the bag's DAGs, in bag order. */
  function DagIds(bag: seq<Dag>): seq<string> {
    seq(|bag|, i requires 0 <= i < |bag| => bag[i].dagId)
  }

  /** The uniqueness test: the list of ids is as long as the set of ids. */
  predicate IdsUniquePass(bag: seq<Dag>) {
    |DagIds(bag)| == |SetOf(DagIds(bag))|
  }

  /** A list has as many elements as its set exactly when no element repeats; otherwise
      the set is strictly smaller. */
  lemma {:induction false} SetSizeIffDistinct(s: seq<string>)
    ensures |SetOf(s)| <= |s|
    ensures |SetOf(s)| == |s| <==> Distinct(s)
  {
    if s != [] {
      var tail := s[1..];
      SetSizeIffDistinct(tail);
      assert SetOf(s) == {s[0]} + SetOf(tail);
      if s[0] in tail {
        assert SetOf(s) == SetOf(tail);
        var k :| 0 <= k < |tail| && tail[k] == s[0];
        assert s[k + 1] == s[0];
      } else {
        assert |SetOf(s)| == |SetOf(tail)| + 1;
        if Distinct(tail) {
          forall i, j | 0 <= i < j < |s| ensures s[i] != s[j] {
            if i > 0 { assert s[i] == tail[i - 1] && s[j] == tail[j - 1]; }
            else { assert s[j] == tail[j - 1]; }
          }
        }
        if Distinct(s) {
          forall i, j | 0 <= i < j < |tail| ensures tail[i] != tail[j] {
            assert tail[i] == s[i + 1] && tail[j] == s[j + 1];
          }
        }
      }
    }
  }

  /** The uniqueness check passes exactly when no two DAGs of the bag share an id. */
  lemma IdsUniqueIff(bag: seq<Dag>)
    ensures IdsUniquePass(bag) <==> forall i, j :: 0 <= i < j < |bag| ==> bag[i].dagId != bag[j].dagId
  {
    var ids := DagIds(bag);
    SetSizeIffDistinct(ids);
    assert forall i :: 0 <= i < |bag| ==> ids[i] == bag[i].dagId;
  }

  // ---------------------------------------------------------------------------
  // The DAG the template ships
  // ---------------------------------------------------------------------------

  /** The canary DAG: id "canary_dag", tag "maintainance", owner "airflow" through its
      default arguments, catch-up off, one task with Airflow's default trigger rule. */
  const Canary: Dag := Dag("canary_dag", ["maintainance"], false,
                           [Task("canary", "airflow", "all_success")], false)

  /** The canary DAG passes every check, alone in its bag. */
  lemma CanaryPasses()
    ensures TagsPass(Canary, ApprovedTags)
    ensures TaskParametersOk(Canary)
    ensures DagTaskOk(Canary)
    ensures IdsUniquePass([Canary])
  {
    OnlyMaintainanceTag(Canary);
    IdsUniqueIff([Canary]);
  }
}
