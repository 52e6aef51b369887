/**
 * The action vocabulary of the global store: the `ACTIONS` constant table, the
 * actions the reducer distinguishes, and the `{type, payload}` records that the
 * action creators build.
 */
module Actions {
  import opened JsValue

  /** The type strings, one constant per action kind. */
  const SET_USER: string := "SET_USER"
  const SET_TOKEN: string := "SET_TOKEN"
  const LOGOUT: string := "LOGOUT"
  const SET_TASKS: string := "SET_TASKS"
  const ADD_TASK: string := "ADD_TASK"
  const UPDATE_TASK: string := "UPDATE_TASK"
  const DELETE_TASK: string := "DELETE_TASK"
  const CLEAR_TASKS: string := "CLEAR_TASKS"
  const SET_PROJECTS: string := "SET_PROJECTS"
  const ADD_PROJECT: string := "ADD_PROJECT"
  const UPDATE_PROJECT: string := "UPDATE_PROJECT"
  const DELETE_PROJECT: string := "DELETE_PROJECT"
  const CLEAR_PROJECTS: string := "CLEAR_PROJECTS"
  const SET_LOADING: string := "SET_LOADING"
  const SET_ERROR: string := "SET_ERROR"
  const CLEAR_ERROR: string := "CLEAR_ERROR"

  /** The action names in the order the table declares them. */
  const ACTION_NAMES: seq<string> := [
    "SET_USER", "SET_TOKEN", "LOGOUT",
    "SET_TASKS", "ADD_TASK", "UPDATE_TASK", "DELETE_TASK", "CLEAR_TASKS",
    "SET_PROJECTS", "ADD_PROJECT", "UPDATE_PROJECT", "DELETE_PROJECT", "CLEAR_PROJECTS",
    "SET_LOADING", "SET_ERROR", "CLEAR_ERROR"
  ]

  /** The `ACTIONS` table: constant name to the type string it stands for. */
  const ACTIONS: map<string, string> := map[
    "SET_USER" := SET_USER,
    "SET_TOKEN" := SET_TOKEN,
    "LOGOUT" := LOGOUT,
    "SET_TASKS" := SET_TASKS,
    "ADD_TASK" := ADD_TASK,
    "UPDATE_TASK" := UPDATE_TASK,
    "DELETE_TASK" := DELETE_TASK,
    "CLEAR_TASKS" := CLEAR_TASKS,
    "SET_PROJECTS" := SET_PROJECTS,
    "ADD_PROJECT" := ADD_PROJECT,
    "UPDATE_PROJECT" := UPDATE_PROJECT,
    "DELETE_PROJECT" := DELETE_PROJECT,
    "CLEAR_PROJECTS" := CLEAR_PROJECTS,
    "SET_LOADING" := SET_LOADING,
    "SET_ERROR" := SET_ERROR,
    "CLEAR_ERROR" := CLEAR_ERROR
  ]

  /** `k` is the value of one of the `ACTIONS` constants. */
  predicate IsActionType(k: string) {
    || k == SET_USER
    || k == SET_TOKEN
    || k == LOGOUT
    || k == SET_TASKS
    || k == ADD_TASK
    || k == UPDATE_TASK
    || k == DELETE_TASK
    || k == CLEAR_TASKS
    || k == SET_PROJECTS
    || k == ADD_PROJECT
    || k == UPDATE_PROJECT
    || k == DELETE_PROJECT
    || k == CLEAR_PROJECTS
    || k == SET_LOADING
    || k == SET_ERROR
    || k == CLEAR_ERROR
  }

  /** There are sixteen distinct action names. */
  lemma ActionNames()
    ensures |ACTION_NAMES| == 16
    ensures forall i, j :: 0 <= i < j < |ACTION_NAMES| ==> ACTION_NAMES[i] != ACTION_NAMES[j]
  {
  }

  /** The table holds exactly the sixteen names, and every constant's value is its own
      name, so the type strings are exactly the table's values. */
  lemma ActionTable()
    ensures ACTIONS.Keys == set n | n in ACTION_NAMES
    ensures forall k :: k in ACTIONS ==> ACTIONS[k] == k
  {
  }

  /** The reducer's type strings are exactly the values of the table. */
  lemma ActionTypes()
    ensures forall k :: IsActionType(k) <==> k in ACTIONS.Values
  {
    forall k ensures IsActionType(k) <==> k in ACTIONS.Values {
      if IsActionType(k) {
        assert k in ACTIONS && ACTIONS[k] == k;
      }
      if k in ACTIONS.Values {
        var n :| n in ACTIONS && ACTIONS[n] == k;
      }
    }
  }

  /** An action as the reducer sees it: one constructor per kind, with the payload the
      reducer reads, and `Unrecognized` for a type string that no case matches. */
  datatype Action =
    | SetUser(user: Value)
    | SetToken(token: Value)
    | Logout
    | SetTasks(tasks: seq<Record>)
    | AddTask(task: Record)
    | UpdateTask(taskId: Value, taskUpdates: Record)
    | DeleteTask(deletedTaskId: Value)
    | ClearTasks
    | SetProjects(projects: seq<Record>)
    | AddProject(project: Record)
    | UpdateProject(projectId: Value, projectUpdates: Record)
    | DeleteProject(deletedProjectId: Value)
    | ClearProjects
    | SetLoading(loading: Value)
    | SetError(error: Value)
    | ClearError
    | Unrecognized(kind: string, payload: Value)

  /** `Unrecognized` is kept for type strings outside the table. */
  predicate WellTagged(a: Action) {
    a.Unrecognized? ==> !IsActionType(a.kind)
  }

  /** The `{type, payload}` object dispatched to the store; no payload reads as undefined. */
  datatype Message = Message(kind: string, payload: Value)

  /** A list of records as the array value a creator puts in its payload. */
  function ArrayOf(rs: seq<Record>): Value {
    Arr(seq(|rs|, i requires 0 <= i < |rs| => Obj(rs[i])))
  }

  /** The action creators: `setUser(user)`, `updateTask(id, updates)`, `logout()`, ...
      Each one tags its result with its own `ACTIONS` constant; `updateTask` and
      `updateProject` pack `{id, updates}`, the deletes carry the bare id, and
      `logout`, `clearTasks`, `clearProjects` and `clearError` carry no payload. */
  function ToMessage(a: Action): (m: Message)
    ensures a.Unrecognized? || IsActionType(m.kind)
    ensures a.SetUser? ==> m.kind == ACTIONS["SET_USER"]
    ensures a.SetToken? ==> m.kind == ACTIONS["SET_TOKEN"]
    ensures a.Logout? ==> m.kind == ACTIONS["LOGOUT"] && m.payload == Undefined
    ensures a.SetTasks? ==> m.kind == ACTIONS["SET_TASKS"]
    ensures a.AddTask? ==> m.kind == ACTIONS["ADD_TASK"]
    ensures a.UpdateTask? ==> m.kind == ACTIONS["UPDATE_TASK"]
    ensures a.DeleteTask? ==> m.kind == ACTIONS["DELETE_TASK"] && m.payload == a.deletedTaskId
    ensures a.ClearTasks? ==> m.kind == ACTIONS["CLEAR_TASKS"] && m.payload == Undefined
    ensures a.SetProjects? ==> m.kind == ACTIONS["SET_PROJECTS"]
    ensures a.AddProject? ==> m.kind == ACTIONS["ADD_PROJECT"]
    ensures a.UpdateProject? ==> m.kind == ACTIONS["UPDATE_PROJECT"]
    ensures a.DeleteProject? ==> m.kind == ACTIONS["DELETE_PROJECT"] && m.payload == a.deletedProjectId
    ensures a.ClearProjects? ==> m.kind == ACTIONS["CLEAR_PROJECTS"] && m.payload == Undefined
    ensures a.SetLoading? ==> m.kind == ACTIONS["SET_LOADING"]
    ensures a.SetError? ==> m.kind == ACTIONS["SET_ERROR"]
    ensures a.ClearError? ==> m.kind == ACTIONS["CLEAR_ERROR"] && m.payload == Undefined
  {
    match a
    case SetUser(u) => Message(SET_USER, u)
    case SetToken(t) => Message(SET_TOKEN, t)
    case Logout => Message(LOGOUT, Undefined)
    case SetTasks(ts) => Message(SET_TASKS, ArrayOf(ts))
    case AddTask(t) => Message(ADD_TASK, Obj(t))
    case UpdateTask(id, u) => Message(UPDATE_TASK, Obj(map["id" := id, "updates" := Obj(u)]))
    case DeleteTask(id) => Message(DELETE_TASK, id)
    case ClearTasks => Message(CLEAR_TASKS, Undefined)
    case SetProjects(ps) => Message(SET_PROJECTS, ArrayOf(ps))
    case AddProject(p) => Message(ADD_PROJECT, Obj(p))
    case UpdateProject(id, u) => Message(UPDATE_PROJECT, Obj(map["id" := id, "updates" := Obj(u)]))
    case DeleteProject(id) => Message(DELETE_PROJECT, id)
    case ClearProjects => Message(CLEAR_PROJECTS, Undefined)
    case SetLoading(l) => Message(SET_LOADING, l)
    case SetError(e) => Message(SET_ERROR, e)
    case ClearError => Message(CLEAR_ERROR, Undefined)
    case Unrecognized(k, p) => Message(k, p)
  }
}
