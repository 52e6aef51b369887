/**
 * The API client's decisions: the stored token and the session clean-up, the request
 * configuration (headers, token, body), the status-to-error table, the outcome of a
 * call for a given response, the login, register and logout steps and the task-list
 * query. The HTTP exchange itself is not modelled: each call takes the response it
 * receives as an input.
 */
module Api {
  import opened Wrappers
  import opened Text
  import opened JsValue
  import opened WebStorage
  import opened FormEncoding

  const DEFAULT_BASE_URL: string := "http://localhost:5000/api"
  const JSON_TYPE: string := "application/json"

  /** `API_BASE_URL`: the configured `VITE_API_URL` when it is truthy. */
  function BaseUrl(configured: Value): (url: string)
    ensures Truthy(configured) ==> url == ToString(configured)
    ensures !Truthy(configured) ==> url == DEFAULT_BASE_URL
  {
    ToString(Or(configured, Str(DEFAULT_BASE_URL)))
  }

  // ----- Session -----

  /** `getToken()`: the stored token, or null when it is missing or storage throws. */
  function GetToken(st: Storage): (token: Option<string>)
    reads st
    ensures token.Some? <==> st.available && "token" in st.items
    ensures token.Some? ==> token.value == st.items["token"]
  {
    match st.GetItem("token")
    case Ok(t) => t
    case Err(_) => None
  }

  /** `clearSession()`: removes `token` and `user`; a storage error is swallowed. */
  method ClearSession(st: Storage)
    modifies st
    ensures st.available == old(st.available)
    ensures st.items == if old(st.available) then old(st.items) - {"token", "user"} else old(st.items)
  {
    var r := st.RemoveItem("token");
    if r.Ok? {
      r := st.RemoveItem("user");
    }
  }

  // ----- Errors -----

  /** A fetch response: its status code, its status text (empty under HTTP/2) and its
      body parsed as JSON, or null when the body is not JSON. */
  datatype Response = Response(status: int, statusText: string, data: Value)

  /** `response.ok`. */
  predicate IsOk(r: Response) {
    200 <= r.status <= 299
  }

  const INVALID_REQUEST: string := "Solicitud inválida: "
  const SESSION_EXPIRED: string := "Sesión expirada. Por favor, inicia sesión de nuevo."
  const FORBIDDEN: string := "No tienes permisos para esta acción."
  const NOT_FOUND: string := "Recurso no encontrado."
  const SERVER_ERROR: string := "Error del servidor. Intenta más tarde."
  const SERVER_UNAVAILABLE: string := "Servidor no disponible. Intenta más tarde."
  const REQUEST_FAILED: string := "Error en la solicitud"
  const UNKNOWN_ERROR: string := "Error desconocido"

  /** The `switch (status)` of `handleError`: the error each case throws. The cases
      compare with `===`, so only numbers match them. */
  function StatusError(status: Value, message: Value): (e: Exception)
    ensures e.Error?
  {
    if status == Num(400) then Error(INVALID_REQUEST + ToString(message))
    else if status == Num(401) then Error(SESSION_EXPIRED)
    else if status == Num(403) then Error(FORBIDDEN)
    else if status == Num(404) then Error(NOT_FOUND)
    else if status == Num(500) then Error(SERVER_ERROR)
    else if status == Num(503) then Error(SERVER_UNAVAILABLE)
    else Error(ToString(Or(message, Str(REQUEST_FAILED))))
  }

  /** The status and message `handleError(data, response)` reads as written, with the
      parsed body in the `error` position: when the response has no status or no
      status text it reads a property of the body, which throws when the body is null. */
  function ErrorInputsAsWritten(data: Value, r: Response): Result<(Value, Value), Exception> {
    if r.status == 0 && IsNullish(data) then Err(TypeError(NullishReadMessage(data, "status")))
    else
      var status := if r.status != 0 then Num(r.status) else Get(data, "status");
      if r.statusText != "" then Ok((status, Str(r.statusText)))
      else if IsNullish(data) then Err(TypeError(NullishReadMessage(data, "message")))
      else Ok((status, Or(Get(data, "message"), Str(UNKNOWN_ERROR))))
  }

  /** What `handleError` throws as written. */
  function ThrownAsWritten(data: Value, r: Response): Exception {
    match ErrorInputsAsWritten(data, r)
    case Err(e) => e
    case Ok((status, message)) => StatusError(status, message)
  }

  /** The status `handleError` reads with the evident intent, `error?.status`. */
  function ErrorStatus(data: Value, r: Response): Value {
    if r.status != 0 then Num(r.status) else Get(data, "status")
  }

  /** The message `handleError` reads with the evident intent, `error?.message`. */
  function ErrorMessage(data: Value, r: Response): (message: Value)
    ensures Truthy(message)
  {
    if r.statusText != "" then Str(r.statusText) else Or(Get(data, "message"), Str(UNKNOWN_ERROR))
  }

  /** What `handleError` throws with the evident intent. */
  function ThrownError(data: Value, r: Response): Exception {
    StatusError(ErrorStatus(data, r), ErrorMessage(data, r))
  }

  /** With the evident intent, only status 401 clears the session. */
  predicate ClearsSession(data: Value, r: Response) {
    ErrorStatus(data, r) == Num(401)
  }

  /** As written, the session is cleared only when both reads succeed and the status read
      is 401. */
  predicate ClearsSessionAsWritten(data: Value, r: Response) {
    ErrorInputsAsWritten(data, r).Ok? && ErrorInputsAsWritten(data, r).value.0 == Num(401)
  }

  /** `handleError(data, response)` as written: reads the status, then the message, each
      falling back to a property of the body; clears the session on 401 and produces the
      error it throws. */
  method HandleError(st: Storage, data: Value, r: Response) returns (e: Exception)
    modifies st
    ensures e == ThrownAsWritten(data, r)
    ensures st.available == old(st.available)
    ensures st.items ==
      if ClearsSessionAsWritten(data, r) && old(st.available) then old(st.items) - {"token", "user"}
      else old(st.items)
  {
    var status;
    if r.status != 0 {
      status := Num(r.status);
    } else if IsNullish(data) {
      return TypeError(NullishReadMessage(data, "status"));
    } else {
      status := Get(data, "status");
    }
    var message;
    if r.statusText != "" {
      message := Str(r.statusText);
    } else if IsNullish(data) {
      return TypeError(NullishReadMessage(data, "message"));
    } else {
      message := Or(Get(data, "message"), Str(UNKNOWN_ERROR));
    }
    if status == Num(401) {
      ClearSession(st);
    }
    e := StatusError(status, message);
  }

  /** Every error is an `Error` with a fixed message for 401, 403, 404, 500 and 503,
      whatever the body says; 400 adds the status text or the body's message; any other
      status throws the message itself, so the `Error en la solicitud` fallback is never
      reached. */
  lemma StatusTable(data: Value, r: Response)
    ensures ThrownError(data, r).Error?
    ensures r.status == 401 ==> ThrownError(data, r) == Error(SESSION_EXPIRED)
    ensures r.status == 403 ==> ThrownError(data, r) == Error(FORBIDDEN)
    ensures r.status == 404 ==> ThrownError(data, r) == Error(NOT_FOUND)
    ensures r.status == 500 ==> ThrownError(data, r) == Error(SERVER_ERROR)
    ensures r.status == 503 ==> ThrownError(data, r) == Error(SERVER_UNAVAILABLE)
    ensures r.status == 400 && r.statusText != "" ==> ThrownError(data, r) == Error(INVALID_REQUEST + r.statusText)
    ensures r.status != 0 && r.status !in {400, 401, 403, 404, 500, 503} ==>
      ThrownError(data, r) == Error(ToString(ErrorMessage(data, r)))
    ensures ClearsSession(data, r) <==> (r.status == 401 || (r.status == 0 && Get(data, "status") == Num(401)))
  {
  }

  /** The two readings agree whenever the body is not null or the response carries both
      a status and a status text. */
  lemma AsWrittenAgrees(data: Value, r: Response)
    requires !IsNullish(data) || (r.status != 0 && r.statusText != "")
    ensures ErrorInputsAsWritten(data, r) == Ok((ErrorStatus(data, r), ErrorMessage(data, r)))
    ensures ThrownAsWritten(data, r) == ThrownError(data, r)
    ensures ClearsSessionAsWritten(data, r) <==> ClearsSession(data, r)
  {
  }

  /** As written, the session is never cleared where the intended reading would keep
      it, and it is kept exactly when a read of the null body throws first. */
  lemma AsWrittenClearsLess(data: Value, r: Response)
    ensures ClearsSessionAsWritten(data, r) ==> ClearsSession(data, r)
    ensures ErrorInputsAsWritten(data, r).Err? <==> IsNullish(data) && (r.status == 0 || r.statusText == "")
    ensures ErrorInputsAsWritten(data, r).Err? ==> ThrownAsWritten(data, r).TypeError?
  {
  }

  /** As written, a 500 or a 401 with an empty status text and a body that is not JSON
      throws a TypeError instead of the table's message, and the 401 then leaves the
      session in place. */
  lemma HandleErrorNullBody()
    ensures ThrownAsWritten(Null, Response(500, "", Null)) == TypeError("Cannot read properties of null (reading 'message')")
    ensures ThrownError(Null, Response(500, "", Null)) == Error(SERVER_ERROR)
    ensures ThrownAsWritten(Null, Response(401, "", Null)).TypeError?
    ensures ClearsSession(Null, Response(401, "", Null))
    ensures !ClearsSessionAsWritten(Null, Response(401, "", Null))
  {
  }

  // ----- Request configuration -----

  /** The methods whose body is sent. */
  predicate SendsBody(verb: string) {
    verb == "POST" || verb == "PUT" || verb == "PATCH"
  }

  /** The `headers` object: JSON content type, the caller's headers spread over it, and
      the bearer token when the stored token is not empty. */
  function Headers(token: Option<string>, options: Record): Record {
    var base := map["Content-Type" := Str(JSON_TYPE)] + SpreadOf(Field(options, "headers"));
    if token.Some? && token.value != "" then base["Authorization" := Str("Bearer " + token.value)] else base
  }

  /** The `config` object `apiCall` passes to `fetch`. `stringify` stands for
      `JSON.stringify`. */
  function RequestConfig(token: Option<string>, verb: string, body: Value, options: Record,
                         stringify: Value -> string): Record {
    var config := map["method" := Str(verb), "headers" := Obj(Headers(token, options))] + options;
    if Truthy(body) && SendsBody(verb) then config["body" := Str(stringify(body))] else config
  }

  /** The configuration part of `apiCall`, built step by step. */
  method BuildConfig(st: Storage, verb: string, body: Value, options: Record, stringify: Value -> string)
    returns (config: Record)
    ensures config == RequestConfig(GetToken(st), verb, body, options, stringify)
  {
    var headers := map["Content-Type" := Str(JSON_TYPE)] + SpreadOf(Field(options, "headers"));
    var token := GetToken(st);
    if token.Some? && token.value != "" {
      headers := headers["Authorization" := Str("Bearer " + token.value)];
    }
    config := map["method" := Str(verb), "headers" := Obj(headers)] + options;
    if Truthy(body) && SendsBody(verb) {
      config := config["body" := Str(stringify(body))];
    }
  }

  /** Without caller headers the request carries the JSON content type, plus the bearer
      token exactly when the stored token is not empty; caller headers in `options`
      replace that object wholesale, as do a caller `method`; a body is attached exactly
      when it is truthy and the method is POST, PUT or PATCH, unless `options` already
      has one. */
  lemma RequestConfigSpec(token: Option<string>, verb: string, body: Value, options: Record,
                          stringify: Value -> string)
    ensures var c := RequestConfig(token, verb, body, options, stringify);
      && c.Keys == {"method", "headers"} + options.Keys + (if Truthy(body) && SendsBody(verb) then {"body"} else {})
      && ("headers" !in options ==>
            c["headers"] == Obj(map["Content-Type" := Str(JSON_TYPE)] +
              if token.Some? && token.value != "" then map["Authorization" := Str("Bearer " + token.value)] else map[]))
      && ("headers" in options ==> c["headers"] == options["headers"])
      && c["method"] == (if "method" in options then options["method"] else Str(verb))
      && (Truthy(body) && SendsBody(verb) ==> c["body"] == Str(stringify(body)))
      && (!(Truthy(body) && SendsBody(verb)) && "body" in options ==> c["body"] == options["body"])
  {
    if "headers" !in options {
      var extra: Record := if token.Some? && token.value != "" then map["Authorization" := Str("Bearer " + token.value)] else map[];
      assert Headers(token, options) == map["Content-Type" := Str(JSON_TYPE)] + extra;
    }
  }

  /** The arguments one of the `get`, `post`, `put`, `patch` and `delete_` helpers passes
      on to `apiCall`. */
  datatype Call = Call(endpoint: string, verb: string, body: Value, options: Record)

  /** `get(endpoint, options)`. */
  function GetCall(endpoint: string, options: Record): Call {
    Call(endpoint, "GET", Null, options)
  }

  /** `delete_(endpoint, options)`. */
  function DeleteCall(endpoint: string, options: Record): Call {
    Call(endpoint, "DELETE", Null, options)
  }

  /** `post`, `put` or `patch` with their `body = {}` default for a missing body. */
  function SendCall(endpoint: string, verb: string, body: Option<Value>, options: Record): Call
    requires SendsBody(verb)
  {
    Call(endpoint, verb, if body.Some? && !body.value.Undefined? then body.value else Obj(map[]), options)
  }

  /** `get` and `delete_` never send a body of their own. `post`, `put` and `patch`
      called without a body send `{}`; given one, they send it exactly when it is
      truthy (a `null` body is not replaced by the default and is not sent). */
  lemma HelperBodies(token: Option<string>, endpoint: string, verb: string, body: Value, options: Record,
                     stringify: Value -> string)
    ensures var c := GetCall(endpoint, options);
      "body" in RequestConfig(token, c.verb, c.body, c.options, stringify) <==> "body" in options
    ensures var c := DeleteCall(endpoint, options);
      "body" in RequestConfig(token, c.verb, c.body, c.options, stringify) <==> "body" in options
    ensures SendsBody(verb) ==> var c := SendCall(endpoint, verb, None, options);
      RequestConfig(token, c.verb, c.body, c.options, stringify)["body"] == Str(stringify(Obj(map[])))
    ensures SendsBody(verb) && !body.Undefined? ==> var c := SendCall(endpoint, verb, Some(body), options);
      ("body" in RequestConfig(token, c.verb, c.body, c.options, stringify) <==> Truthy(body) || "body" in options)
  {
  }

  /** `apiCall(endpoint, verb, body, options)` given the response its request gets:
      the URL and configuration of the request, and the parsed body for an ok response
      or the error `handleError` throws otherwise. */
  method ApiCall(st: Storage, base: string, call: Call, stringify: Value -> string, response: Response)
    returns (url: string, config: Record, outcome: Result<Value, Exception>)
    modifies st
    ensures url == base + call.endpoint
    ensures config == RequestConfig(old(GetToken(st)), call.verb, call.body, call.options, stringify)
    ensures IsOk(response) ==> outcome == Ok(response.data)
    ensures !IsOk(response) ==> outcome == Err(ThrownAsWritten(response.data, response))
    ensures st.available == old(st.available)
    ensures st.items ==
      if !IsOk(response) && ClearsSessionAsWritten(response.data, response) && old(st.available)
      then old(st.items) - {"token", "user"} else old(st.items)
  {
    config := BuildConfig(st, call.verb, call.body, call.options, stringify);
    url := base + call.endpoint;
    if !IsOk(response) {
      var e := HandleError(st, response.data, response);
      return url, config, Err(e);
    }
    outcome := Ok(response.data);
  }

  // ----- Authentication -----

  datatype Credentials = Credentials(token: Value, user: Value)

  /** `const { token, user } = response.data || response` on the returned body. */
  function LoginFields(data: Value): Result<Credentials, Exception> {
    if IsNullish(data) then Err(TypeError(NullishReadMessage(data, "data")))
    else
      var source := Or(Get(data, "data"), data);
      Ok(Credentials(Get(source, "token"), Get(source, "user")))
  }

  /** The fields are read from `data.data` when that is truthy and from the body itself
      otherwise; a null body throws. */
  lemma LoginFieldsSpec(data: Value)
    ensures LoginFields(data).Err? <==> IsNullish(data)
    ensures Truthy(Get(data, "data")) ==>
      LoginFields(data) == Ok(Credentials(Get(Get(data, "data"), "token"), Get(Get(data, "data"), "user")))
    ensures !IsNullish(data) && !Truthy(Get(data, "data")) ==>
      LoginFields(data) == Ok(Credentials(Get(data, "token"), Get(data, "user")))
  {
  }

  function LoginBody(email: Value, password: Value): Value {
    Obj(map["email" := email, "password" := password])
  }

  /** `auth.login(email, password)` given the response to its POST: stores the token and
      the serialised user exactly when the token is truthy. */
  method Login(st: Storage, base: string, email: Value, password: Value, stringify: Value -> string,
               response: Response)
    returns (url: string, config: Record, outcome: Result<Credentials, Exception>)
    modifies st
    ensures url == base + "/auth/login"
    ensures config == RequestConfig(old(GetToken(st)), "POST", LoginBody(email, password), map[], stringify)
    ensures st.available == old(st.available)
    ensures !IsOk(response) ==> outcome == Err(ThrownAsWritten(response.data, response))
    ensures !IsOk(response) ==>
      st.items == if ClearsSessionAsWritten(response.data, response) && old(st.available)
                  then old(st.items) - {"token", "user"} else old(st.items)
    ensures IsOk(response) && LoginFields(response.data).Err? ==>
      outcome == LoginFields(response.data) && st.items == old(st.items)
    ensures IsOk(response) && LoginFields(response.data).Ok? ==>
      var c := LoginFields(response.data).value;
      if !Truthy(c.token) then outcome == Ok(c) && st.items == old(st.items)
      else if old(st.available) then
        outcome == Ok(c) && st.items == old(st.items)["token" := ToString(c.token)]["user" := stringify(c.user)]
      else outcome == Err(StorageUnavailable) && st.items == old(st.items)
  {
    var result;
    url, config, result := ApiCall(st, base, SendCall("/auth/login", "POST", Some(LoginBody(email, password)), map[]),
                                   stringify, response);
    if result.Err? {
      return url, config, Err(result.error);
    }
    var fields := LoginFields(result.value);
    if fields.Err? {
      return url, config, fields;
    }
    var token, user := fields.value.token, fields.value.user;
    if Truthy(token) {
      var r := st.SetItem("token", ToString(token));
      if r.Err? {
        return url, config, Err(r.error);
      }
      // The first write succeeded, so storage is available and the second one succeeds too.
      r := st.SetItem("user", stringify(user));
    }
    outcome := Ok(Credentials(token, user));
  }

  /** `const user = response.data || response; return { user }`. */
  function RegisteredUser(data: Value): Result<Value, Exception> {
    if IsNullish(data) then Err(TypeError(NullishReadMessage(data, "data")))
    else Ok(Obj(map["user" := Or(Get(data, "data"), data)]))
  }

  /** The result of a register never carries a token. */
  lemma RegisteredUserHasNoToken(data: Value)
    ensures RegisteredUser(data).Ok? <==> !IsNullish(data)
    ensures RegisteredUser(data).Ok? ==> Get(RegisteredUser(data).value, "token") == Undefined
    ensures RegisteredUser(data).Ok? ==>
      (Truthy(Get(RegisteredUser(data).value, "user")) <==> Truthy(Get(data, "data")) || Truthy(data))
  {
  }

  /** `auth.register(email, password, name)` given the response to its POST; storage is
      touched only through `handleError`. */
  method Register(st: Storage, base: string, email: Value, password: Value, name: Value,
                  stringify: Value -> string, response: Response)
    returns (url: string, config: Record, outcome: Result<Value, Exception>)
    modifies st
    ensures url == base + "/auth/register"
    ensures config == RequestConfig(old(GetToken(st)), "POST",
      Obj(map["email" := email, "password" := password, "username" := name]), map[], stringify)
    ensures st.available == old(st.available)
    ensures IsOk(response) ==> outcome == RegisteredUser(response.data) && st.items == old(st.items)
    ensures !IsOk(response) ==> outcome == Err(ThrownAsWritten(response.data, response))
    ensures !IsOk(response) ==>
      st.items == if ClearsSessionAsWritten(response.data, response) && old(st.available)
                  then old(st.items) - {"token", "user"} else old(st.items)
  {
    var body := Obj(map["email" := email, "password" := password, "username" := name]);
    var result;
    url, config, result := ApiCall(st, base, SendCall("/auth/register", "POST", Some(body), map[]), stringify, response);
    if result.Err? {
      return url, config, Err(result.error);
    }
    outcome := RegisteredUser(result.value);
  }

  /** `auth.logout()` given the response to its POST: the session is cleared first, so
      the request goes out without a token, and a failing response is swallowed. */
  method Logout(st: Storage, base: string, stringify: Value -> string, response: Response)
    returns (url: string, config: Record)
    modifies st
    ensures url == base + "/auth/logout"
    ensures config == RequestConfig(None, "POST", Obj(map[]), map[], stringify)
    ensures config["headers"] == Obj(map["Content-Type" := Str(JSON_TYPE)])
    ensures st.available == old(st.available)
    ensures st.items == if old(st.available) then old(st.items) - {"token", "user"} else old(st.items)
  {
    ClearSession(st);
    assert GetToken(st) == None;
    var result;
    url, config, result := ApiCall(st, base, SendCall("/auth/logout", "POST", Some(Obj(map[])), map[]), stringify, response);
    assert Headers(None, map[]) == map["Content-Type" := Str(JSON_TYPE)];
  }

  // ----- Task query -----

  /** `new URLSearchParams(filters).toString()`: the filters' own properties in order,
      each value converted with `String`. */
  function TaskQuery(filters: seq<(string, Value)>): string {
    Serialize(seq(|filters|, i requires 0 <= i < |filters| => (filters[i].0, ToString(filters[i].1))))
  }

  /** The endpoint `tasks.getAll(filters)` requests. */
  function TasksEndpoint(filters: seq<(string, Value)>): string {
    var query := TaskQuery(filters);
    "/tasks" + (if query != "" then "?" + query else "")
  }

  /** Without filters the endpoint is `/tasks`; with filters it is `/tasks?` followed by
      one `name=value` part per filter, in order, separated by `&`. */
  lemma TasksEndpointSpec(filters: seq<(string, Value)>)
    ensures filters == [] ==> TasksEndpoint(filters) == "/tasks"
    ensures filters != [] ==> TasksEndpoint(filters) == "/tasks?" + TaskQuery(filters)
    ensures filters != [] ==> |Split(TaskQuery(filters), '&')| == |filters|
    ensures filters != [] ==> forall i :: 0 <= i < |filters| ==>
      Split(TaskQuery(filters), '&')[i] == Encode(filters[i].0) + "=" + Encode(ToString(filters[i].1))
  {
    var pairs := seq(|filters|, i requires 0 <= i < |filters| => (filters[i].0, ToString(filters[i].1)));
    SerializeSpec(pairs);
  }
}
