/** The kanban board component's grouping of tasks by workflow status. */
module StatusBoard {
  import opened JsValue
  import opened Seqs

  datatype StatusColumn = StatusColumn(labelText: string, color: string)

  /** `Object.keys(TASK_STATUS)`, in declaration order. */
  const STATUS_KEYS: seq<string> := ["todo", "inProgress", "review", "done"]

  /** `TASK_STATUS`. */
  const TASK_STATUS: map<string, StatusColumn> := map[
    "todo" := StatusColumn("Por Hacer", "bg-gray-100"),
    "inProgress" := StatusColumn("En Progreso", "bg-blue-100"),
    "review" := StatusColumn("En Revisión", "bg-purple-100"),
    "done" := StatusColumn("Completado", "bg-green-100")]

  lemma StatusTable()
    ensures TASK_STATUS.Keys == set s | s in STATUS_KEYS
    ensures forall i, j :: 0 <= i < j < |STATUS_KEYS| ==> STATUS_KEYS[i] != STATUS_KEYS[j]
  {
  }

  /** `t => t.status === status`. */
  function HasStatus(status: string): Record -> bool {
    (t: Record) => Field(t, "status") == Str(status)
  }

  /** `tasksByStatus`: the key fold, with each key's `filter`. */
  function TasksByStatus(tasks: seq<Record>): map<string, seq<Record>> {
    map status | status in STATUS_KEYS :: Filter(tasks, HasStatus(status))
  }

  /** The board has exactly the four status columns; each holds, in input order, the tasks
      whose status is that key exactly; no task sits in two columns; a task with any other
      status sits in none. */
  lemma TasksByStatusSpec(tasks: seq<Record>)
    ensures TasksByStatus(tasks).Keys == TASK_STATUS.Keys
    ensures forall s, t :: s in STATUS_KEYS ==>
      (t in TasksByStatus(tasks)[s] <==> t in tasks && Field(t, "status") == Str(s))
    ensures forall s :: s in STATUS_KEYS ==> IsSubsequence(TasksByStatus(tasks)[s], tasks)
    ensures forall s, t :: s in STATUS_KEYS ==>
      multiset(TasksByStatus(tasks)[s])[t] == if Field(t, "status") == Str(s) then multiset(tasks)[t] else 0
    ensures forall s1, s2, t ::
      s1 in STATUS_KEYS && s2 in STATUS_KEYS && s1 != s2 && t in TasksByStatus(tasks)[s1] ==>
        t !in TasksByStatus(tasks)[s2]
    ensures forall t, s ::
      s in STATUS_KEYS && !(Field(t, "status").Str? && Field(t, "status").s in STATUS_KEYS) ==>
        t !in TasksByStatus(tasks)[s]
  {
    forall s, t | s in STATUS_KEYS
      ensures t in TasksByStatus(tasks)[s] <==> t in tasks && Field(t, "status") == Str(s)
    {
      FilterMembers(tasks, HasStatus(s), t);
    }
    forall s | s in STATUS_KEYS ensures IsSubsequence(TasksByStatus(tasks)[s], tasks) {
      FilterIsSubsequence(tasks, HasStatus(s));
    }
    forall s, t | s in STATUS_KEYS
      ensures multiset(TasksByStatus(tasks)[s])[t] == if Field(t, "status") == Str(s) then multiset(tasks)[t] else 0
    {
      FilterMultiset(tasks, HasStatus(s), t);
    }
  }

  /** The form defaults `backlog` (EditTaskModal) and `pending` (TaskForm) are statuses no
      column shows, so a task created or edited with them is on no column of the board. */
  lemma UnboardedStatuses(tasks: seq<Record>, t: Record)
    requires Field(t, "status") == Str("backlog") || Field(t, "status") == Str("pending")
    ensures forall s :: s in STATUS_KEYS ==> t !in TasksByStatus(tasks)[s]
  {
    TasksByStatusSpec(tasks);
  }

  /** A status none of the columns shows. */
  predicate Unboarded(t: Record) {
    !(Field(t, "status").Str? && Field(t, "status").s in STATUS_KEYS)
  }

  /** The number of columns a task is on: one, or none when it is unboarded. */
  function Hits(t: Record): nat {
    (if HasStatus("todo")(t) then 1 else 0) + (if HasStatus("inProgress")(t) then 1 else 0)
    + (if HasStatus("review")(t) then 1 else 0) + (if HasStatus("done")(t) then 1 else 0)
    + (if Unboarded(t) then 1 else 0)
  }

  lemma HitsOne(t: Record)
    ensures Hits(t) == 1
  {
  }

  /** The column filters and the unboarded filter together count every task once. */
  lemma {:induction false} StatusCounts(tasks: seq<Record>)
    ensures |Filter(tasks, HasStatus("todo"))| + |Filter(tasks, HasStatus("inProgress"))|
      + |Filter(tasks, HasStatus("review"))| + |Filter(tasks, HasStatus("done"))|
      + |Filter(tasks, Unboarded)| == |tasks|
  {
    if tasks != [] {
      var t, rest := tasks[0], tasks[1..];
      StatusCounts(rest);
      assert |Filter(tasks, HasStatus("todo"))| == (if HasStatus("todo")(t) then 1 else 0) + |Filter(rest, HasStatus("todo"))|;
      assert |Filter(tasks, HasStatus("inProgress"))| == (if HasStatus("inProgress")(t) then 1 else 0) + |Filter(rest, HasStatus("inProgress"))|;
      assert |Filter(tasks, HasStatus("review"))| == (if HasStatus("review")(t) then 1 else 0) + |Filter(rest, HasStatus("review"))|;
      assert |Filter(tasks, HasStatus("done"))| == (if HasStatus("done")(t) then 1 else 0) + |Filter(rest, HasStatus("done"))|;
      assert |Filter(tasks, Unboarded)| == (if Unboarded(t) then 1 else 0) + |Filter(rest, Unboarded)|;
      HitsOne(t);
    }
  }

  /** The four columns together with the unboarded tasks account for every task once. */
  lemma StatusColumnSizes(tasks: seq<Record>)
    ensures |TasksByStatus(tasks)["todo"]| + |TasksByStatus(tasks)["inProgress"]|
      + |TasksByStatus(tasks)["review"]| + |TasksByStatus(tasks)["done"]|
      + |Filter(tasks, Unboarded)| == |tasks|
  {
    StatusCounts(tasks);
  }
}
