/** The dashboard's summary counters. */
module Dashboard {
  import opened JsValue
  import opened Seqs
  import opened StatusBoard

  datatype Stats = Stats(totalProjects: nat, totalTasks: nat, completedTasks: nat, inProgressTasks: nat)

  /** The number of tasks whose status is exactly `status`. */
  function CountStatus(tasks: seq<Record>, status: string): nat {
    |Filter(tasks, HasStatus(status))|
  }

  /** `stats`. */
  function DashboardStats(projects: seq<Record>, tasks: seq<Record>): (st: Stats)
    ensures st.completedTasks + st.inProgressTasks <= st.totalTasks
  {
    FilterDisjoint(tasks, HasStatus("done"), HasStatus("inProgress"));
    Stats(|projects|, |tasks|, CountStatus(tasks, "done"), CountStatus(tasks, "inProgress"))
  }

  /** The counters count the lists and the tasks marked exactly `done` / `inProgress`;
      tasks marked `completed` count as neither. */
  lemma StatsMeaning(projects: seq<Record>, tasks: seq<Record>)
    ensures DashboardStats(projects, tasks).totalProjects == |projects|
    ensures DashboardStats(projects, tasks).totalTasks == |tasks|
    ensures (forall i :: 0 <= i < |tasks| ==> Field(tasks[i], "status") == Str("completed")) ==>
      DashboardStats(projects, tasks).completedTasks == 0 && DashboardStats(projects, tasks).inProgressTasks == 0
    ensures (forall i :: 0 <= i < |tasks| ==> Field(tasks[i], "status") == Str("done")) ==>
      DashboardStats(projects, tasks).completedTasks == |tasks|
  {
    if forall i :: 0 <= i < |tasks| ==> Field(tasks[i], "status") == Str("completed") {
      FilterNone(tasks, HasStatus("done"));
      FilterNone(tasks, HasStatus("inProgress"));
    }
    if forall i :: 0 <= i < |tasks| ==> Field(tasks[i], "status") == Str("done") {
      FilterKeepsAll(tasks, HasStatus("done"));
    }
  }

  /** One more task adds one to the total, one to `completedTasks` exactly when its
      status is `done` and one to `inProgressTasks` exactly when it is `inProgress`; a
      `completed` task changes only the total. */
  lemma StatsAppend(projects: seq<Record>, tasks: seq<Record>, t: Record)
    ensures var before := DashboardStats(projects, tasks);
      DashboardStats(projects, tasks + [t]) == before.(
        totalTasks := |tasks| + 1,
        completedTasks := before.completedTasks + (if Field(t, "status") == Str("done") then 1 else 0),
        inProgressTasks := before.inProgressTasks + (if Field(t, "status") == Str("inProgress") then 1 else 0))
    ensures Field(t, "status") == Str("completed") ==>
      DashboardStats(projects, tasks + [t]) == DashboardStats(projects, tasks).(totalTasks := |tasks| + 1)
  {
    FilterConcat(tasks, [t], HasStatus("done"));
    FilterConcat(tasks, [t], HasStatus("inProgress"));
  }
}
