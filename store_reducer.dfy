/**
 * `appReducer`: the pure transition function of the global store, the reducer's
 * reading of a dispatched `{type, payload}` object, and what the transitions keep.
 */
module Reducer {
  import opened Wrappers
  import opened JsValue
  import opened Seqs
  import opened Actions
  import opened Store

  /** `x.id`. */
  function IdOf(r: Record): Value {
    Field(r, "id")
  }

  /** The shallow merge `{...x, ...updates}`: every field of `updates` wins. */
  function Merge(x: Record, updates: Record): Record {
    x + updates
  }

  /** `list.map(x => x.id === id ? {...x, ...updates} : x)`. */
  function UpdateById(xs: seq<Record>, id: Value, updates: Record): seq<Record> {
    Map(xs, (x: Record) => if IdOf(x) == id then Merge(x, updates) else x)
  }

  /** The filter predicate `x => x.id !== id`. */
  function KeepsId(id: Value): Record -> bool {
    (x: Record) => IdOf(x) != id
  }

  /** `list.filter(x => x.id !== id)`. */
  function RemoveById(xs: seq<Record>, id: Value): seq<Record> {
    Filter(xs, KeepsId(id))
  }

  /** `appReducer(state, action)`. */
  function Reduce(s: State, a: Action): State {
    match a
    case SetUser(u) => s.(user := u, isAuthenticated := Truthy(u), error := Null)
    case SetToken(t) => s.(token := t, isAuthenticated := Truthy(t), error := Null)
    case Logout =>
      s.(user := Null, token := Null, isAuthenticated := false, tasks := [], projects := [], error := Null)
    case SetTasks(ts) => s.(tasks := ts, loading := Bool(false), error := Null)
    case AddTask(t) => s.(tasks := s.tasks + [t], error := Null)
    case UpdateTask(id, u) => s.(tasks := UpdateById(s.tasks, id, u), error := Null)
    case DeleteTask(id) => s.(tasks := RemoveById(s.tasks, id), error := Null)
    case ClearTasks => s.(tasks := [])
    case SetProjects(ps) => s.(projects := ps, loading := Bool(false), error := Null)
    case AddProject(p) => s.(projects := s.projects + [p], error := Null)
    case UpdateProject(id, u) => s.(projects := UpdateById(s.projects, id, u), error := Null)
    case DeleteProject(id) => s.(projects := RemoveById(s.projects, id), error := Null)
    case ClearProjects => s.(projects := [])
    case SetLoading(l) => s.(loading := l)
    case SetError(e) => s.(error := e, loading := Bool(false))
    case ClearError => s.(error := Null)
    case Unrecognized(_, _) => s
  }

  /** A payload that is an array of plain objects, as the list-replacing cases store it. */
  function RecordsOf(p: Value): Option<seq<Record>> {
    if p.Arr? && forall i :: 0 <= i < |p.items| ==> p.items[i].Obj? then
      Some(seq(|p.items|, i requires 0 <= i < |p.items| && p.items[i].Obj? => p.items[i].props))
    else None
  }

  /** `const { id, updates } = action.payload`, then spreading `updates`. Destructuring
      null or undefined throws a TypeError. */
  function IdAndUpdates(p: Value): Result<(Value, Record), Exception> {
    if IsNullish(p) then Err(TypeError(NullishReadMessage(p, "id")))
    else Ok((Get(p, "id"), SpreadOf(Get(p, "updates"))))
  }

  /** A record-valued payload. */
  function RecordOf(p: Value): Option<Record> {
    if p.Obj? then Some(p.props) else None
  }

  /** The `switch (action.type)` of the reducer together with what each case reads of
      `action.payload`: the action it performs, or `None` where the case throws (an
      update without payload) or would store something other than a record (a list
      payload that is not an array of objects, a non-object added entry). */
  function Decode(m: Message): Option<Action> {
    var k := m.kind;
    var p := m.payload;
    if k == SET_USER then Some(SetUser(p))
    else if k == SET_TOKEN then Some(SetToken(p))
    else if k == LOGOUT then Some(Logout)
    else if k == SET_TASKS then
      (match RecordsOf(p) case Some(ts) => Some(SetTasks(ts)) case None => None)
    else if k == ADD_TASK then
      (match RecordOf(p) case Some(t) => Some(AddTask(t)) case None => None)
    else if k == UPDATE_TASK then
      (match IdAndUpdates(p) case Ok(iu) => Some(UpdateTask(iu.0, iu.1)) case Err(_) => None)
    else if k == DELETE_TASK then Some(DeleteTask(p))
    else if k == CLEAR_TASKS then Some(ClearTasks)
    else if k == SET_PROJECTS then
      (match RecordsOf(p) case Some(ps) => Some(SetProjects(ps)) case None => None)
    else if k == ADD_PROJECT then
      (match RecordOf(p) case Some(r) => Some(AddProject(r)) case None => None)
    else if k == UPDATE_PROJECT then
      (match IdAndUpdates(p) case Ok(iu) => Some(UpdateProject(iu.0, iu.1)) case Err(_) => None)
    else if k == DELETE_PROJECT then Some(DeleteProject(p))
    else if k == CLEAR_PROJECTS then Some(ClearProjects)
    else if k == SET_LOADING then Some(SetLoading(p))
    else if k == SET_ERROR then Some(SetError(p))
    else if k == CLEAR_ERROR then Some(ClearError)
    else Some(Unrecognized(k, p))
  }

  /** The payload each creator builds is the one the reducer reads back: the creators
      and the reducer agree on every action shape, `{id, updates}` included. */
  lemma DecodeToMessage(a: Action)
    requires WellTagged(a)
    ensures Decode(ToMessage(a)) == Some(a)
  {
    match a
    case SetTasks(ts) =>
      assert RecordsOf(ArrayOf(ts)).value == ts;
    case SetProjects(ps) =>
      assert RecordsOf(ArrayOf(ps)).value == ps;
    case _ =>
  }

  /** A type string matching no case is read as `Unrecognized`, and the reducer returns
      the input state unchanged for it. */
  lemma UnknownTypeUnchanged(s: State, m: Message)
    requires !IsActionType(m.kind)
    ensures Decode(m) == Some(Unrecognized(m.kind, m.payload))
    ensures Reduce(s, Unrecognized(m.kind, m.payload)) == s
  {
  }

  // ----- What each transition writes -----

  datatype Slot = UserSlot | TokenSlot | AuthSlot | TasksSlot | ProjectsSlot | LoadingSlot | ErrorSlot

  /** The fields named in each case's object literal, after `...state`. */
  function Written(a: Action): set<Slot> {
    match a
    case SetUser(_) => {UserSlot, AuthSlot, ErrorSlot}
    case SetToken(_) => {TokenSlot, AuthSlot, ErrorSlot}
    case Logout => {UserSlot, TokenSlot, AuthSlot, TasksSlot, ProjectsSlot, ErrorSlot}
    case SetTasks(_) => {TasksSlot, LoadingSlot, ErrorSlot}
    case AddTask(_) => {TasksSlot, ErrorSlot}
    case UpdateTask(_, _) => {TasksSlot, ErrorSlot}
    case DeleteTask(_) => {TasksSlot, ErrorSlot}
    case ClearTasks => {TasksSlot}
    case SetProjects(_) => {ProjectsSlot, LoadingSlot, ErrorSlot}
    case AddProject(_) => {ProjectsSlot, ErrorSlot}
    case UpdateProject(_, _) => {ProjectsSlot, ErrorSlot}
    case DeleteProject(_) => {ProjectsSlot, ErrorSlot}
    case ClearProjects => {ProjectsSlot}
    case SetLoading(_) => {LoadingSlot}
    case SetError(_) => {ErrorSlot, LoadingSlot}
    case ClearError => {ErrorSlot}
    case Unrecognized(_, _) => {}
  }

  predicate SameAt(s: State, t: State, f: Slot) {
    match f
    case UserSlot => s.user == t.user
    case TokenSlot => s.token == t.token
    case AuthSlot => s.isAuthenticated == t.isAuthenticated
    case TasksSlot => s.tasks == t.tasks
    case ProjectsSlot => s.projects == t.projects
    case LoadingSlot => s.loading == t.loading
    case ErrorSlot => s.error == t.error
  }

  /** Every field that a case does not name keeps its value. */
  lemma ReduceFrame(s: State, a: Action)
    ensures forall f :: f !in Written(a) ==> SameAt(s, Reduce(s, a), f)
  {
  }

  /** `SET_USER` and `SET_TOKEN` recompute `isAuthenticated` from their own payload
      alone, whatever the other credential holds, and clear the error. */
  lemma CredentialCases(s: State, v: Value)
    ensures var r := Reduce(s, SetUser(v));
      r.user == v && r.isAuthenticated == Truthy(v) && r.error == Null && r.token == s.token
    ensures var r := Reduce(s, SetToken(v));
      r.token == v && r.isAuthenticated == Truthy(v) && r.error == Null && r.user == s.user
  {
  }

  /** `LOGOUT` signs out and discards the data, but keeps `loading`. */
  lemma LogoutCase(s: State)
    ensures SignedOut(Reduce(s, Logout))
    ensures Reduce(s, Logout).loading == s.loading
    ensures Reduce(Reduce(s, Logout), Logout) == Reduce(s, Logout)
  {
  }

  /** The initial state holds no session and no data, and it is a fixed point of `LOGOUT`. */
  lemma InitialState()
    ensures SignedOut(INITIAL_STATE)
    ensures INITIAL_STATE.loading == Bool(false)
    ensures Reduce(INITIAL_STATE, Logout) == INITIAL_STATE
  {
  }

  /** The list-replacing cases store the new list and end loading with no error;
      `SET_ERROR` ends loading too. */
  lemma ReplaceCases(s: State, rs: seq<Record>, v: Value)
    ensures var r := Reduce(s, SetTasks(rs)); r.tasks == rs && r.loading == Bool(false) && r.error == Null
    ensures var r := Reduce(s, SetProjects(rs)); r.projects == rs && r.loading == Bool(false) && r.error == Null
    ensures var r := Reduce(s, SetError(v)); r.error == v && r.loading == Bool(false)
  {
  }

  /** The flag-setting and clearing cases touch only their own field. */
  lemma UiCases(s: State, v: Value)
    ensures Reduce(s, SetLoading(v)) == s.(loading := v)
    ensures Reduce(s, ClearError) == s.(error := Null)
    ensures Reduce(s, ClearTasks) == s.(tasks := [])
    ensures Reduce(s, ClearProjects) == s.(projects := [])
  {
  }

  // ----- Lists keyed by id -----

  /** The number of entries carrying a given id. */
  function CountId(xs: seq<Record>, id: Value): nat {
    |Filter(xs, (x: Record) => IdOf(x) == id)|
  }

  /** Adding a task or a project appends the payload at the end of its list, clears the
      error and changes nothing else. There is no duplicate check: an entry whose id is
      already present is added once more. */
  lemma AddAppends(s: State, r: Record)
    ensures Reduce(s, AddTask(r)) == s.(tasks := s.tasks + [r], error := Null)
    ensures Reduce(s, AddProject(r)) == s.(projects := s.projects + [r], error := Null)
    ensures |Reduce(s, AddTask(r)).tasks| == |s.tasks| + 1
    ensures |Reduce(s, AddProject(r)).projects| == |s.projects| + 1
    ensures CountId(Reduce(s, AddTask(r)).tasks, IdOf(r)) == CountId(s.tasks, IdOf(r)) + 1
    ensures CountId(Reduce(s, AddProject(r)).projects, IdOf(r)) == CountId(s.projects, IdOf(r)) + 1
  {
    FilterConcat(s.tasks, [r], (x: Record) => IdOf(x) == IdOf(r));
    FilterConcat(s.projects, [r], (x: Record) => IdOf(x) == IdOf(r));
  }

  /** A project added to the initial store is its only project, with no error. */
  lemma AddProjectToInitial(p: Record)
    ensures var t := Reduce(INITIAL_STATE, AddProject(p));
      t.projects == [p] && t.error == Null && t.tasks == [] && !t.isAuthenticated
  {
  }

  /** Updating by id keeps the length and order; an entry with another id is unchanged;
      a matching entry keeps its own fields and takes every field of `updates`; an id no
      entry carries changes nothing. */
  lemma UpdateByIdSpec(xs: seq<Record>, id: Value, u: Record)
    ensures |UpdateById(xs, id, u)| == |xs|
    ensures forall i :: 0 <= i < |xs| && IdOf(xs[i]) != id ==> UpdateById(xs, id, u)[i] == xs[i]
    ensures forall i :: 0 <= i < |xs| && IdOf(xs[i]) == id ==>
      && UpdateById(xs, id, u)[i].Keys == xs[i].Keys + u.Keys
      && (forall k :: k in u ==> UpdateById(xs, id, u)[i][k] == u[k])
      && (forall k :: k in xs[i] && k !in u ==> UpdateById(xs, id, u)[i][k] == xs[i][k])
    ensures (forall i :: 0 <= i < |xs| ==> IdOf(xs[i]) != id) ==> UpdateById(xs, id, u) == xs
  {
  }

  /** An update does change an entry's id when `updates` carries one. */
  lemma UpdateCanChangeId()
    ensures var xs := [map["id" := Num(1)]];
      IdOf(UpdateById(xs, Num(1), map["id" := Num(2)])[0]) == Num(2)
  {
  }

  /** Without an `id` field in `updates`, every entry keeps its id. */
  lemma UpdateKeepsIds(xs: seq<Record>, id: Value, u: Record)
    requires "id" !in u
    ensures forall i :: 0 <= i < |xs| ==> IdOf(UpdateById(xs, id, u)[i]) == IdOf(xs[i])
  {
  }

  /** Deleting by id keeps exactly the entries with another id, every copy of each, in
      their order, and drops exactly the entries with that id; an absent id changes
      nothing; deleting again changes nothing more. */
  lemma RemoveByIdSpec(xs: seq<Record>, id: Value)
    ensures forall x :: x in RemoveById(xs, id) <==> x in xs && IdOf(x) != id
    ensures forall x :: multiset(RemoveById(xs, id))[x] == if IdOf(x) != id then multiset(xs)[x] else 0
    ensures |RemoveById(xs, id)| + CountId(xs, id) == |xs|
    ensures IsSubsequence(RemoveById(xs, id), xs)
    ensures (forall i :: 0 <= i < |xs| ==> IdOf(xs[i]) != id) ==> RemoveById(xs, id) == xs
    ensures RemoveById(RemoveById(xs, id), id) == RemoveById(xs, id)
  {
    forall x ensures x in RemoveById(xs, id) <==> x in xs && IdOf(x) != id {
      FilterMembers(xs, KeepsId(id), x);
    }
    forall x ensures multiset(RemoveById(xs, id))[x] == if IdOf(x) != id then multiset(xs)[x] else 0 {
      FilterMultiset(xs, KeepsId(id), x);
    }
    FilterComplement(xs, KeepsId(id), (x: Record) => IdOf(x) == id);
    FilterIsSubsequence(xs, KeepsId(id));
    if forall i :: 0 <= i < |xs| ==> IdOf(xs[i]) != id {
      FilterKeepsAll(xs, KeepsId(id));
    }
    FilterIdempotent(xs, KeepsId(id));
  }

  /** The same delete dispatched twice leaves the store as one does. */
  lemma DeleteTwice(s: State, id: Value)
    ensures Reduce(Reduce(s, DeleteTask(id)), DeleteTask(id)) == Reduce(s, DeleteTask(id))
    ensures Reduce(Reduce(s, DeleteProject(id)), DeleteProject(id)) == Reduce(s, DeleteProject(id))
  {
    FilterIdempotent(s.tasks, KeepsId(id));
    FilterIdempotent(s.projects, KeepsId(id));
  }

  // ----- The session flag -----

  /** The store's state after a sequence of dispatches, applied first to last. */
  function ReduceAll(s: State, acts: seq<Action>): State
    decreases |acts|
  {
    if acts == [] then s else ReduceAll(Reduce(s, acts[0]), acts[1..])
  }

  lemma {:induction false} ReduceAllAppend(s: State, acts: seq<Action>, a: Action)
    ensures ReduceAll(s, acts + [a]) == Reduce(ReduceAll(s, acts), a)
    decreases |acts|
  {
    if acts != [] {
      assert (acts + [a])[1..] == acts[1..] + [a];
      ReduceAllAppend(Reduce(s, acts[0]), acts[1..], a);
    }
  }

  /** An action that sets the session flag. */
  predicate SetsAuth(a: Action) {
    a.SetUser? || a.SetToken? || a.Logout?
  }

  /** The value the last action that sets the session flag gives it, if there is one. */
  function LastAuth(acts: seq<Action>): Option<bool>
    decreases |acts|
  {
    if acts == [] then None
    else
      var last := acts[|acts| - 1];
      match last
      case SetUser(u) => Some(Truthy(u))
      case SetToken(t) => Some(Truthy(t))
      case Logout => Some(false)
      case _ => LastAuth(acts[..|acts| - 1])
  }

  /** `isAuthenticated` is decided by whichever of `SET_USER`, `SET_TOKEN` and `LOGOUT`
      was dispatched last, and is untouched by every other action. */
  lemma {:induction false} AuthFollowsLast(s: State, acts: seq<Action>)
    ensures ReduceAll(s, acts).isAuthenticated ==
      (match LastAuth(acts) case Some(b) => b case None => s.isAuthenticated)
    decreases |acts|
  {
    if acts != [] {
      var init := acts[..|acts| - 1];
      var last := acts[|acts| - 1];
      assert acts == init + [last];
      ReduceAllAppend(s, init, last);
      AuthFollowsLast(s, init);
    }
  }

  /** A signed-in flag is always backed by a truthy user or a truthy token. */
  predicate AuthBacked(s: State) {
    s.isAuthenticated ==> Truthy(s.user) || Truthy(s.token)
  }

  lemma {:induction false} AuthBackedPreserved(s: State, acts: seq<Action>)
    requires AuthBacked(s)
    ensures AuthBacked(ReduceAll(s, acts))
    decreases |acts|
  {
    if acts != [] {
      AuthBackedPreserved(Reduce(s, acts[0]), acts[1..]);
    }
  }

  /** The flag does not always track the token: a user set after sign-out makes the
      store authenticated with no token at all. */
  lemma AuthWithoutToken()
    ensures var r := ReduceAll(INITIAL_STATE, [SetUser(Obj(map["id" := Num(1)]))]);
      r.isAuthenticated && r.token == Null
  {
  }

  /** A task list replaced and then updated by id: the matching task takes the new
      status and the other keeps its fields. */
  lemma UpdateAfterReplace()
    ensures var t1 := map["id" := Num(1), "status" := Str("todo")];
      var t2 := map["id" := Num(2), "status" := Str("todo")];
      var r := ReduceAll(INITIAL_STATE, [SetTasks([t1, t2]), UpdateTask(Num(1), map["status" := Str("done")])]);
      r.tasks == [map["id" := Num(1), "status" := Str("done")], t2] && r.loading == Bool(false)
  {
    var t1 := map["id" := Num(1), "status" := Str("todo")];
    var t2 := map["id" := Num(2), "status" := Str("todo")];
    var s1 := Reduce(INITIAL_STATE, SetTasks([t1, t2]));
    assert s1.tasks == [t1, t2] && s1.loading == Bool(false);
    var s2 := Reduce(s1, UpdateTask(Num(1), map["status" := Str("done")]));
    assert Merge(t1, map["status" := Str("done")]) == map["id" := Num(1), "status" := Str("done")];
    assert s2.tasks == [map["id" := Num(1), "status" := Str("done")], t2];
    assert ReduceAll(s2, []) == s2;
    assert ReduceAll(s1, [UpdateTask(Num(1), map["status" := Str("done")])]) == s2;
  }
}
