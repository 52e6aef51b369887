/** The single state record of the global store and its initial value. */
module Store {
  import opened JsValue

  datatype State = State(
    user: Value,
    token: Value,
    isAuthenticated: bool,
    tasks: seq<Record>,
    projects: seq<Record>,
    loading: Value,
    error: Value)

  /** `INITIAL_STATE`: nobody signed in, no data, not loading, no error. */
  const INITIAL_STATE: State := State(Null, Null, false, [], [], Bool(false), Null)

  /** No session and no data: what the store holds before sign-in and after sign-out. */
  predicate SignedOut(s: State) {
    && s.user == Null && s.token == Null && !s.isAuthenticated
    && s.tasks == [] && s.projects == [] && s.error == Null
  }
}
