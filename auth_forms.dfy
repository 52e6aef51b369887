/**
 * The register and login forms' submit handlers: the validation chain with its first
 * failure, and the store actions dispatched around the API call, whose outcome is an
 * input.
 */
module AuthForms {
  import opened Wrappers
  import opened Text
  import opened JsValue
  import opened Helpers
  import opened Actions
  import opened Store
  import opened Reducer
  import Api

  const FIELDS_MISSING: string := "Por favor completa todos los campos"
  const EMAIL_INVALID: string := "Email inválido"
  const PASSWORD_SHORT: string := "La contraseña debe tener al menos 6 caracteres"
  const PASSWORDS_DIFFER: string := "Las contraseñas no coinciden"

  /** The register form's checks, in order; the first that fails gives the message. */
  function RegisterCheck(name: string, email: string, password: string, confirm: string): Option<string> {
    if name == "" || email == "" || password == "" || confirm == "" then Some(FIELDS_MISSING)
    else if !IsValidEmailText(email) then Some(EMAIL_INVALID)
    else if Utf16Length(password) < 6 then Some(PASSWORD_SHORT)
    else if password != confirm then Some(PASSWORDS_DIFFER)
    else None
  }

  /** The login form's checks: both fields present and a valid e-mail; the password
      length is not checked. */
  function LoginCheck(email: string, password: string): Option<string> {
    if email == "" || password == "" then Some(FIELDS_MISSING)
    else if !IsValidEmailText(email) then Some(EMAIL_INVALID)
    else None
  }

  /** Each register message is produced exactly when its check is the first to fail,
      and the form passes exactly when all four hold. */
  lemma RegisterCheckOrder(name: string, email: string, password: string, confirm: string)
    ensures var r := RegisterCheck(name, email, password, confirm);
      && (r == Some(FIELDS_MISSING) <==> name == "" || email == "" || password == "" || confirm == "")
      && (r == Some(EMAIL_INVALID) <==>
            name != "" && email != "" && password != "" && confirm != "" && !IsValidEmailText(email))
      && (r == Some(PASSWORD_SHORT) <==>
            name != "" && email != "" && password != "" && confirm != "" && IsValidEmailText(email)
            && Utf16Length(password) < 6)
      && (r == Some(PASSWORDS_DIFFER) <==>
            name != "" && email != "" && confirm != "" && IsValidEmailText(email)
            && Utf16Length(password) >= 6 && password != confirm)
      && (r == None <==>
            name != "" && email != "" && IsValidEmailText(email) && Utf16Length(password) >= 6 && password == confirm)
  {
  }

  /** A login passes with any non-empty password, however short. */
  lemma LoginCheckSpec(email: string, password: string)
    ensures LoginCheck(email, password) == None <==> email != "" && password != "" && IsValidEmailText(email)
    ensures LoginCheck(email, password) == Some(FIELDS_MISSING) <==> email == "" || password == ""
    ensures email != "" && IsValidEmailText(email) ==> LoginCheck(email, "a") == None
  {
  }

  /** What one submit does: the store actions dispatched, in order, the local
      validation message, whether the API was called and whether it navigated to the
      dashboard. */
  datatype Submission = Submission(actions: seq<Action>, validationError: string, apiCalled: bool, navigated: bool)

  /** The part after validation passed: loading on, then `setUser` and `setToken` and the
      navigation on success or the error recorded globally and locally on failure, and
      loading off in every case. */
  function AfterCall(result: Result<(Value, Value), Exception>): (sub: Submission)
    ensures sub.apiCalled && |sub.actions| >= 3
    ensures sub.actions[0] == SetLoading(Bool(true)) && sub.actions[|sub.actions| - 1] == SetLoading(Bool(false))
  {
    match result
    case Ok((user, token)) =>
      Submission([SetLoading(Bool(true)), SetUser(user), SetToken(token), SetLoading(Bool(false))], "", true, true)
    case Err(e) =>
      Submission([SetLoading(Bool(true)), SetError(Str(e.message)), SetLoading(Bool(false))], e.message, true, false)
  }

  /** `result.user` and `result.token` on what the API call returned; a null result throws. */
  function UserAndToken(result: Result<Value, Exception>): Result<(Value, Value), Exception> {
    match result
    case Err(e) => Err(e)
    case Ok(v) =>
      if IsNullish(v) then Err(TypeError(NullishReadMessage(v, "user")))
      else Ok((Get(v, "user"), Get(v, "token")))
  }

  /** The register form's `handleSubmit`, given what `auth.register` returns. */
  function RegisterSubmit(name: string, email: string, password: string, confirm: string,
                          registered: Result<Value, Exception>): Submission {
    match RegisterCheck(name, email, password, confirm)
    case Some(message) => Submission([], message, false, false)
    case None => AfterCall(UserAndToken(registered))
  }

  /** The login form's `handleSubmit`, given what `auth.login` returns. */
  function LoginSubmit(email: string, password: string, loggedIn: Result<Api.Credentials, Exception>): Submission {
    match LoginCheck(email, password)
    case Some(message) => Submission([], message, false, false)
    case None =>
      match loggedIn
      case Ok(c) => AfterCall(Ok((c.user, c.token)))
      case Err(e) => AfterCall(Err(e))
  }

  /** A failed check dispatches nothing and calls nothing. */
  lemma ValidationFailureIsLocal(name: string, email: string, password: string, confirm: string,
                                 registered: Result<Value, Exception>, loggedIn: Result<Api.Credentials, Exception>)
    ensures RegisterCheck(name, email, password, confirm).Some? ==>
      var sub := RegisterSubmit(name, email, password, confirm, registered);
      sub.actions == [] && !sub.apiCalled && !sub.navigated
      && sub.validationError == RegisterCheck(name, email, password, confirm).value
    ensures LoginCheck(email, password).Some? ==>
      var sub := LoginSubmit(email, password, loggedIn);
      sub.actions == [] && !sub.apiCalled && !sub.navigated && sub.validationError == LoginCheck(email, password).value
  {
  }

  /** After a successful call the store holds the user and the token, is authenticated
      exactly when the token is truthy, has no error and is not loading; the lists are
      untouched. */
  lemma SuccessState(s: State, user: Value, token: Value)
    ensures var t := ReduceAll(s, AfterCall(Ok((user, token))).actions);
      && t.user == user && t.token == token && t.isAuthenticated == Truthy(token)
      && t.error == Null && t.loading == Bool(false)
      && t.tasks == s.tasks && t.projects == s.projects
  {
    var acts := AfterCall(Ok((user, token))).actions;
    var s1 := Reduce(s, acts[0]);
    var s2 := Reduce(s1, acts[1]);
    var s3 := Reduce(s2, acts[2]);
    var s4 := Reduce(s3, acts[3]);
    assert ReduceAll(s4, acts[4..]) == s4;
    assert ReduceAll(s3, acts[3..]) == s4;
    assert ReduceAll(s2, acts[2..]) == s4;
    assert ReduceAll(s1, acts[1..]) == s4;
  }

  /** After a failed call the store records the message, is not loading, and keeps its
      session and lists. */
  lemma FailureState(s: State, e: Exception)
    ensures var t := ReduceAll(s, AfterCall(Err(e)).actions);
      t == s.(error := Str(e.message), loading := Bool(false))
  {
    var acts := AfterCall(Err(e)).actions;
    var s1 := Reduce(s, acts[0]);
    var s2 := Reduce(s1, acts[1]);
    var s3 := Reduce(s2, acts[2]);
    assert ReduceAll(s3, acts[3..]) == s3;
    assert ReduceAll(s2, acts[2..]) == s3;
    assert ReduceAll(s1, acts[1..]) == s3;
  }

  /** A successful register leaves the store signed out of the session flag, because the
      register result carries no token, even though it navigates to the dashboard. */
  lemma RegisterLeavesUnauthenticated(s: State, name: string, email: string, password: string,
                                      confirm: string, data: Value)
    requires RegisterCheck(name, email, password, confirm) == None
    requires Api.RegisteredUser(data).Ok?
    ensures var sub := RegisterSubmit(name, email, password, confirm, Api.RegisteredUser(data));
      var t := ReduceAll(s, sub.actions);
      sub.navigated && !t.isAuthenticated && t.token == Undefined && t.loading == Bool(false)
  {
    Api.RegisteredUserHasNoToken(data);
    var v := Api.RegisteredUser(data).value;
    SuccessState(s, Get(v, "user"), Get(v, "token"));
  }

  /** A successful login leaves `isAuthenticated` equal to the truthiness of the token
      it returned. */
  lemma LoginAuthFollowsToken(s: State, email: string, password: string, c: Api.Credentials)
    requires LoginCheck(email, password) == None
    ensures var t := ReduceAll(s, LoginSubmit(email, password, Ok(c)).actions);
      t.isAuthenticated == Truthy(c.token) && t.user == c.user && t.token == c.token
  {
    SuccessState(s, c.user, c.token);
  }

  /** Whatever the outcome, once validation passes the loading flag ends false. */
  lemma LoadingEndsFalse(s: State, email: string, password: string, loggedIn: Result<Api.Credentials, Exception>)
    requires LoginCheck(email, password) == None
    ensures ReduceAll(s, LoginSubmit(email, password, loggedIn).actions).loading == Bool(false)
  {
    match loggedIn
    case Ok(c) => SuccessState(s, c.user, c.token);
    case Err(e) => FailureState(s, e);
  }
}
