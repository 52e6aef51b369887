# TimeToTask core, modelled in Dafny

TimeToTask is a React task manager. The part of it modelled here is the logic under
the views:

- **The global store.** `appReducer` is a pure state machine over one record (`user`,
  `token`, `isAuthenticated`, `tasks`, `projects`, `loading`, `error`). The `ACTIONS`
  table and action creators describe what may be dispatched, and `INITIAL_STATE` is
  where the store starts.
- **The API client's decisions.** This covers:
  - the status-to-error table of `handleError`, with its session clearing on 401;
  - how `apiCall` builds headers, configuration and body;
  - what persists on login and logout;
  - the `tasks.getAll` query string.
- **Helpers and the task-type table.** Label lookups with pass-through, the e-mail and
  password validators, the object trimmer, the string helpers, `isAuthenticated`, and
  `TASK_TYPES` with its fallback to `feature`.
- **Logic lifted out of the views.** This covers:
  - the board page's columns by task type and the kanban component's columns by status;
  - the dashboard counters;
  - the task list's search, status filter and priority sort;
  - the task form (initial data, validation, submit gate, change handler);
  - the edit-task modal (task-to-form normalisation, type colouring, guarded submit);
  - the register and login submit chains with the store actions they dispatch;
  - the language selection and the dotted-key translation lookup `t`.

JavaScript values are one datatype, `JsValue.Value`. Records are `map<string, Value>`.
Truthiness, `||`, `?.`, `String(v)`, spreads, and the TypeError for reading a property
of `null` or `undefined` are written out in `JsValue`. The browser's `localStorage` is the
class `WebStorage.Storage`. Its `items` map is updated in place, and its `available`
flag says whether access throws. An HTTP response is an input value
(`Api.Response`), never a call. `JSON.stringify` is a function parameter.

Pure code became functions and lemmas. Code that changes state step by step became
methods, which are proved against the functions that specify them:

- `Api.BuildConfig`, `Api.ClearSession`, `Api.HandleError`, `Api.Login` and
  `Helpers.TrimInputs`;
- `TypeBoard.GroupByType`, the key loop of the board page;
- the classes `TaskForm.TaskFormState` and `Language.LanguageState`, whose methods
  update their fields.

## Model

| member | source | states |
|---|---|---|
| Actions.ActionNames | src/store/actions.js:5-29 | there are exactly sixteen action type strings and they are pairwise distinct |
| Actions.ActionTable | src/store/actions.js:5-29 | `ACTIONS` has exactly those sixteen names as keys, and every constant's value is its own name |
| Actions.ActionTypes | src/store/actions.js:5-29 | a string is an action type exactly when it is one of the values of `ACTIONS` |
| Actions.ToMessage | src/store/actions.js:35-109 | every creator tags its message with its own `ACTIONS` constant (`setUser` with `SET_USER`, and so on). The deletes carry the bare id, and `logout`, `clearTasks`, `clearProjects` and `clearError` carry no payload |
| Reducer.DecodeToMessage | src/store/actions.js:35-109 | reading back what a creator built gives the same action. So the `{id, updates}` payload of the update creators, the bare id of the deletes and the payload-free clears are what the reducer reads (reducer.js:56, 69) |
| Reducer.UnknownTypeUnchanged | src/store/reducer.js:142-143 | a type string outside the table is read as unrecognised, and the reducer returns the input state unchanged |
| Reducer.ReduceFrame | src/store/reducer.js:12-139 | every case changes only the fields named in its object literal, and every other field equals the input's |
| Reducer.CredentialCases | src/store/reducer.js:12-26 | `SET_USER` sets `user`, `SET_TOKEN` sets `token`. Each sets `isAuthenticated` to the truthiness of its own payload alone, clears `error`, and keeps the other slot |
| Reducer.LogoutCase | src/store/reducer.js:28-37 | `LOGOUT` leaves the store signed out (null user and token, not authenticated, empty lists, null error), keeps `loading` and is idempotent |
| Reducer.InitialState | src/store/store.js:6-19 | the initial state has no session, empty lists, `loading` false and `error` null, and `LOGOUT` on it gives it back |
| Reducer.ReplaceCases | src/store/reducer.js:40-46 | `SET_TASKS` / `SET_PROJECTS` store the new list with `loading` false and `error` null. `SET_ERROR` (reducer.js:128-133) stores the error and sets `loading` false |
| Reducer.UiCases | src/store/reducer.js:73-139 | `SET_LOADING`, `CLEAR_ERROR`, `CLEAR_TASKS` and `CLEAR_PROJECTS` each change only their own field |
| Reducer.AddAppends | src/store/reducer.js:48-93 | from any state, `ADD_TASK` / `ADD_PROJECT` append the payload at the end of their list (one longer), clear `error` and change nothing else. There is no duplicate check: the count of entries with that id grows by one even when it was already present |
| Reducer.AddProjectToInitial | src/store/reducer.js:88-93 | `ADD_PROJECT` on the initial store leaves exactly that one project, no error, no tasks and no session |
| Reducer.UpdateByIdSpec | src/store/reducer.js:55-64 | update by id keeps the length, leaves other ids' entries unchanged, and shallow-merges every matching entry so fields from `updates` win; an absent id changes nothing |
| Reducer.UpdateKeepsIds | src/store/reducer.js:59-61 | an `updates` without an `id` field leaves every entry's id as it was |
| Reducer.UpdateCanChangeId | src/store/reducer.js:59-61 | an `updates` that carries an `id` does change the matching entry's id |
| Reducer.RemoveByIdSpec | src/store/reducer.js:66-71 | delete by id keeps every copy of each entry with another id, in order, and drops exactly the entries with that id, so the length falls by their count. An absent id changes nothing, and a second delete removes nothing more |
| Reducer.DeleteTwice | src/store/reducer.js:66-113 | dispatching the same `DELETE_TASK` or `DELETE_PROJECT` twice leaves the store as dispatching it once |
| Reducer.ReduceAllAppend | src/store/reducer.js:9-145 | applying a sequence of dispatches then one more is applying that one to the result |
| Reducer.AuthFollowsLast | src/store/reducer.js:15-33 | after any sequence of dispatches, `isAuthenticated` is decided by the last `SET_USER`, `SET_TOKEN` or `LOGOUT` among them, and no other action changes it |
| Reducer.AuthBackedPreserved | src/store/reducer.js:12-37 | if `isAuthenticated` is backed by a truthy user or token, every sequence of dispatches keeps it backed |
| Reducer.AuthWithoutToken | src/store/reducer.js:12-18 | from the initial state, `SET_USER` alone makes the store authenticated with a null token |
| Reducer.UpdateAfterReplace | src/store/reducer.js:40-64 | `SET_TASKS` then `UPDATE_TASK` by id gives the matching task the new status and leaves the other as it was |
| Api.BaseUrl | src/services/api.js:11 | the base URL is the configured value when it is truthy and `http://localhost:5000/api` otherwise |
| Api.GetToken | src/services/api.js:16-23 | the token is the stored `token` entry, and absent when it is missing or storage access throws |
| Api.ClearSession | src/services/api.js:28-37 | `token` and `user` are removed and nothing else changes; when storage throws, nothing changes and no error escapes |
| Api.StatusError | src/services/api.js:46-62 | every branch of the status switch throws an `Error` |
| Api.ErrorMessage | src/services/api.js:44 | the message `handleError` uses is always truthy, ending in `Error desconocido` |
| Api.StatusTable | src/services/api.js:42-62 | with the intended `?.` reading: 401, 403, 404, 500 and 503 give their fixed messages whatever the body. 400 gives `Solicitud inválida: ` and the status text. Any other status throws the message itself (status text, else body message, else `Error desconocido`), so the `Error en la solicitud` fallback is never reached. Only a 401, from the response or from the body when the response has no status, clears the session |
| Api.HandleError | src/services/api.js:42-63 | as written: the status is read, then the message, each falling back to the body. The error produced is the status table's for what was read, or the TypeError of reading a null body. Storage loses `token` and `user` exactly when both reads succeed with status 401 and storage works, and nothing else changes |
| Api.AsWrittenAgrees | src/services/api.js:43-44 | when the body is not null, or the response has both a status and a status text, the code as written reads the same status and message as the intended one, throws the same error and clears the session in the same cases |
| Api.AsWrittenClearsLess | src/services/api.js:43-51 | as written, the reads fail exactly for a null body when the status or the status text is missing, and the result is then a TypeError. The session is cleared only where the intended reading clears it |
| Api.HandleErrorNullBody | src/services/api.js:43-44 | as written, a 500 or 401 with an empty status text and a null body throws a TypeError. The intended reading gives the server error and clears the session for 401 |
| Api.BuildConfig | src/services/api.js:77-98 | the `config` built step by step is the one `RequestConfig` describes |
| Api.RequestConfigSpec | src/services/api.js:77-98 | without caller headers: JSON content type, plus `Bearer <token>` exactly when the stored token is non-empty. Caller `headers` or `method` in `options` replace the built ones wholesale. A body is attached exactly when it is truthy and the method is POST, PUT or PATCH |
| Api.HelperBodies | src/services/api.js:147-209 | `get` and `delete_` never send a body of their own. `post`, `put` and `patch` called without a body send `{}`. Given a body (a `null` one included), they send it exactly when it is truthy |
| Api.ApiCall | src/services/api.js:74-134 | the request goes to base plus endpoint with the described configuration. An ok response returns the parsed body (null when parsing failed). A non-ok one always fails with what `handleError` throws as written, and storage changes only when that clears the session |
| Api.LoginFieldsSpec | src/services/api.js:223 | `token` and `user` are read from `data.data` when that is truthy and from the body otherwise, and a null body throws |
| Api.Login | src/services/api.js:221-229 | posts the credentials to `/auth/login`. On success storage gets `token` and the serialised `user` exactly when the returned token is truthy, and a falsy token leaves it untouched. Blocked storage makes the login fail. A non-ok response fails with what `handleError` throws as written, with its storage effect |
| Api.RegisteredUserHasNoToken | src/services/api.js:238-242 | the register result holds only `user` (from `data.data` or the body), so its `token` is undefined |
| Api.Register | src/services/api.js:238-242 | posts email, password and `username` to `/auth/register`. On success it returns `{ user }` and writes nothing to storage. A non-ok response fails with what `handleError` throws as written, and storage loses `token` and `user` exactly when that clears the session |
| Api.Logout | src/services/api.js:247-255 | storage loses `token` and `user` before the request, so the request goes without an Authorization header, and a failing response is swallowed |
| Api.TasksEndpointSpec | src/services/api.js:293-296 | without filters the endpoint is `/tasks`. With filters it is `/tasks?` then one `name=value` part per filter, in order, joined by `&` |
| FormEncoding.SerializeSpec | src/services/api.js:294 | the `URLSearchParams` serialisation is empty exactly when there are no pairs. Split at `&` it gives one part per pair, and each part splits at `=` into the encoded name and value |
| FormEncoding.EncodeSpec | src/services/api.js:294 | an encoded name or value contains no `&` or `=`, and percent-decoding gives back its UTF-8 bytes |
| Text.TrimEmpty | src/components/Tasks/TaskForm.jsx:48 | a string trims to `""` exactly when it is all white space |
| Text.TrimIdempotent | src/utils/helpers.js:87 | trimming a trimmed string changes nothing |
| Text.SplitFirst | src/components/Tasks/TaskForm.jsx:38 | the first part of a split is the text before the first separator, or the whole string without one |
| Text.IncludesIff | src/components/Tasks/TaskList.jsx:31 | `includes` holds exactly when the needle occurs at some position of the haystack |
| FormEncoding.EncodeSpace | src/services/api.js:294 | a space is encoded as `+` |
| FormEncoding.EncodeAmpersand | src/services/api.js:294 | `&` is percent-encoded as `%26` |
| FormEncoding.EncodeNonAscii | src/services/api.js:294 | `ñ` is encoded as its two UTF-8 bytes, `%C3%B1` |
| Helpers.PriorityLabelCases | src/utils/helpers.js:45-52 | low, medium and high get their labels, and any other value comes back unchanged |
| Helpers.StatusLabelCases | src/utils/helpers.js:57-64 | only `todo`, `in-progress` and `done` get labels; `inProgress` and every other status come back unchanged |
| Helpers.EmailRuleMatchesPattern | src/utils/helpers.js:69-72 | the e-mail rule accepts exactly the strings of the form `a@b.c` with `a`, `b` and `c` non-empty and free of white space and `@` |
| Helpers.EmailRuleSound | src/utils/helpers.js:70 | an accepted string has such a split |
| Helpers.EmailRuleComplete | src/utils/helpers.js:70 | a string with such a split is accepted |
| Helpers.EmailAccepted | src/utils/helpers.js:70 | `ana@mail.com` is accepted |
| Helpers.EmailNeedsDot | src/utils/helpers.js:70 | a domain without a dot is refused |
| Helpers.EmailNeedsLocalPart | src/utils/helpers.js:70 | an empty local part is refused |
| Helpers.EmailNeedsOneAt | src/utils/helpers.js:70 | a second `@` is refused |
| Helpers.PasswordRule | src/utils/helpers.js:77-79 | a string password is valid exactly when it has at least six UTF-16 code units; a missing one is not valid |
| Helpers.TrimInputs | src/utils/helpers.js:84-90 | the loop fills the object that `Trimmed` describes |
| Helpers.TrimmedSpec | src/utils/helpers.js:84-90 | the result has exactly the input's keys, with strings trimmed and other values passed through, and trimming twice is trimming once |
| Helpers.IsAuthenticatedIff | src/utils/helpers.js:95-102 | true exactly when storage works and holds a non-empty `token` |
| Helpers.CapitalizeSpec | src/utils/helpers.js:120-122 | only the first character changes, to upper case; the empty string maps to itself; a second application changes nothing |
| Helpers.IsEmptyIff | src/utils/helpers.js:127-129 | an object is empty exactly when it has no keys |
| TaskTypes.TaskTypeTable | src/config/taskTypes.js:6-61 | there are six distinct type keys, the table holds exactly them, and every entry's `id` is its key |
| TaskTypes.TaskTypeConfigFallback | src/config/taskTypes.js:63-65 | a known key gives its own entry and anything else gives the `feature` entry, so the result is always an entry of the table |
| TaskTypes.FalsyTypeUnknown | src/config/taskTypes.js:63-65 | no falsy type value names an entry |
| TaskTypes.TaskTypeListOrder | src/config/taskTypes.js:67-69 | the list holds all six entries in declaration order |
| TypeBoard.GroupByType | src/pages/Board.jsx:42-45 | the loop gives one entry per type key, holding that key's filtered tasks |
| TypeBoard.TypeColumnSpec | src/pages/Board.jsx:44 | a column holds exactly the input tasks that pass its test (`type === key`, or a falsy type for `feature`), in input order |
| TypeBoard.ColumnOfTask | src/pages/Board.jsx:44 | a task with a known type passes only its own column's test, a typeless task only `feature`'s, and a task with an unknown type none |
| TypeBoard.Columns | src/pages/Board.jsx:48-58 | one column per table entry in table order, with `id` and `type` equal to the key, the entry's name as title, and the key's tasks |
| TypeBoard.BoardColumns | src/pages/Board.jsx:42-58 | the six columns in key order, each with its key's tasks |
| TypeBoard.ColumnSizesExact | src/pages/Board.jsx:42-45 | the column sizes add up to at most the number of tasks, with equality exactly when no task has an unknown type |
| TypeBoard.HitsOfTask | src/pages/Board.jsx:44 | a task passes the test of exactly one column, or of none when its type is unknown |
| TypeBoard.ColumnSizes | src/pages/Board.jsx:42-45 | the column sizes plus the number of tasks with an unknown type equal the number of tasks |
| StatusBoard.StatusTable | src/components/Board/Board.jsx:10-15 | the status columns are exactly `todo`, `inProgress`, `review` and `done`, in that order, and distinct |
| StatusBoard.TasksByStatusSpec | src/components/Board/Board.jsx:18-21 | each status column holds, in input order, every copy of the tasks whose status is that key exactly and nothing else; no task is in two columns; a task with any other status is in none |
| StatusBoard.StatusColumnSizes | src/components/Board/Board.jsx:18-21 | the four column sizes plus the number of tasks with another status equal the number of tasks |
| StatusBoard.UnboardedStatuses | src/components/Board/Board.jsx:18-21 | a `backlog` or `pending` task is on no column |
| Dashboard.DashboardStats | src/pages/Dashboard.jsx:17-22 | completed plus in-progress never exceeds the total number of tasks |
| Dashboard.StatsMeaning | src/pages/Dashboard.jsx:18-21 | the totals are the list lengths. A list of `completed` tasks counts none as completed or in progress, and a list of `done` tasks counts all of them as completed |
| Dashboard.StatsAppend | src/pages/Dashboard.jsx:19-21 | for any list, one more task adds one to the total, one to completed exactly when its status is `done`, and one to in progress exactly when it is `inProgress`. A `completed` task changes only the total |
| TaskList.FilteredTasksSpec | src/components/Tasks/TaskList.jsx:28-37 | the filter succeeds exactly when every task has a string title (otherwise `toLowerCase` throws), and then keeps the tasks matching both the search and the status filter |
| TaskList.FilteredIsSelection | src/components/Tasks/TaskList.jsx:28 | the filtered list is an order-preserving subsequence of the input, holding exactly the input tasks that match |
| TaskList.SearchMeaning | src/components/Tasks/TaskList.jsx:29-31 | the search is a case-insensitive substring test on the title, and the empty term matches every title |
| TaskList.FilterModes | src/components/Tasks/TaskList.jsx:32-35 | `all` keeps every task, `active` those not `completed`, `completed` only those, and any other value none |
| TaskList.Insert | src/components/Tasks/TaskList.jsx:40 | inserting adds exactly the one element to the list's multiset |
| TaskList.SortByKey | src/components/Tasks/TaskList.jsx:40 | the sort of a copy holds the same elements as its input, with multiplicity |
| TaskList.SortByKeySpec | src/components/Tasks/TaskList.jsx:40 | the sort of a copy is ordered by the key, is a permutation of its input, and keeps the input order among equal keys |
| TaskList.InsertSorted | src/components/Tasks/TaskList.jsx:40 | inserting into a sorted list keeps it sorted |
| TaskList.InsertRuns | src/components/Tasks/TaskList.jsx:40 | inserting puts the element at the front of its key's run and leaves every other run as it was |
| TaskList.SortByConstantKey | src/components/Tasks/TaskList.jsx:51 | a comparator that always returns 0 keeps the order |
| TaskList.AsWrittenRanks | src/components/Tasks/TaskList.jsx:45-46 | as written, `high` ranks 2 like `low`, and `medium` ranks 1 |
| TaskList.HighPrioritySortsLikeLow | src/components/Tasks/TaskList.jsx:44-46 | as written, a low-priority task before a high-priority one stays in front of it, also in the view's `sortedTasks` for `priority` |
| TaskList.PrioritySortOrder | src/components/Tasks/TaskList.jsx:44-46 | with `??`, high ranks before medium before low, an unknown priority ranks with low, and a high task sorts ahead of a low one |
| TaskList.SortedTasksSpec | src/components/Tasks/TaskList.jsx:40-52 | for every modelled `sortBy` the result is a permutation of the filtered list. For `priority` it is sorted by the rank as written (`medium` first, `high` and `low` together) and stable within a rank. An unrecognised value keeps the filtered order |
| TaskForm.InitialFormSpec | src/components/Tasks/TaskForm.jsx:31-42 | it fails exactly for a truthy non-string due date. Otherwise the form has the six fields, and truthy values are kept while falsy ones become `""`, `medium` or `pending`. The due date is cut at its first `T`, and `assignedTo` becomes its id or `""` |
| TaskForm.ValidationErrorsSpec | src/components/Tasks/TaskForm.jsx:45-66 | a title error appears exactly when the title is over 100 code units (the length message, which overrides) or blank after trimming (the required message). A description error appears exactly beyond 500, and a due-date error exactly when it is set and past. There are no errors exactly when all hold |
| TaskForm.DefaultFormRefused | src/components/Tasks/TaskForm.jsx:19-26 | the untouched initial form is refused for its empty title alone |
| TaskForm.StepsAreStrings | src/components/Tasks/TaskForm.jsx:46-62 | every collected error is a message string |
| TaskForm.TaskFormState.constructor | src/components/Tasks/TaskForm.jsx:19-28 | the form starts at its defaults with no errors |
| TaskForm.TaskFormState.LoadInitialData | src/components/Tasks/TaskForm.jsx:31-42 | a falsy `initialData` changes nothing. Otherwise the form becomes the normalised data, or stays as it was when normalising throws. Errors are untouched |
| TaskForm.TaskFormState.Validate | src/components/Tasks/TaskForm.jsx:45-66 | stores the collected errors and returns whether there are none; when reading a field throws, the stored errors are kept |
| TaskForm.TaskFormState.HandleSubmit | src/components/Tasks/TaskForm.jsx:68-76 | the form is handed to `onSubmit` exactly when validation finds no error |
| TaskForm.TaskFormState.HandleChange | src/components/Tasks/TaskForm.jsx:78-91 | only the named field is replaced. Its error becomes `""` when it was set, and all other errors are kept |
| EditTaskModal.BlankForm | src/components/Modals/EditTaskModal.jsx:9-16 | the initial form has the six fields, with the selected type or `feature` |
| EditTaskModal.EditFormSpec | src/components/Modals/EditTaskModal.jsx:18-29 | it fails exactly for a truthy non-string due date. Otherwise a truthy title, description, priority or status is kept, and a missing one becomes `""`, `medium` or `backlog`. The type is the task's, else the selected one, else `feature`. The due date is the first ten characters of the task's, or `""` |
| EditTaskModal.SelectedTypeConfigSpec | src/components/Modals/EditTaskModal.jsx:31 | the colouring is `getTaskTypeConfig` of the form's type: its own entry for a known type, `feature` for an empty or unknown one |
| EditTaskModal.HandleChange | src/components/Modals/EditTaskModal.jsx:33-36 | the named field takes the new value, every other field keeps its own, and no field is lost |
| EditTaskModal.HandleSubmit | src/components/Modals/EditTaskModal.jsx:38-43 | without a truthy task id nothing is called; otherwise `onSubmit(id, form)` and then `onClose` |
| AuthForms.RegisterCheckOrder | src/components/Auth/Register.jsx:28-46 | each message is produced exactly when its check is the first to fail, in the order: all fields present, e-mail pattern, password of six code units, passwords equal. The form passes exactly when all four hold |
| AuthForms.LoginCheckSpec | src/components/Auth/Login.jsx:26-34 | the login passes exactly with both fields present and a valid e-mail, and any non-empty password passes |
| AuthForms.AfterCall | src/components/Auth/Register.jsx:48-60 | once validation passes the API is called, and the dispatches start with loading on and end with loading off |
| AuthForms.ValidationFailureIsLocal | src/components/Auth/Register.jsx:28-47 | a failed check (here and at Login.jsx:26-35) dispatches nothing, calls nothing, does not navigate, and shows its message |
| AuthForms.SuccessState | src/components/Auth/Login.jsx:39-47 | after a successful call the store holds the user and token, is authenticated exactly when the token is truthy, and has no error and no loading; the lists are untouched |
| AuthForms.FailureState | src/components/Auth/Login.jsx:43-48 | after a failed call the store differs from before only in the error message and `loading` false |
| AuthForms.RegisterLeavesUnauthenticated | src/components/Auth/Register.jsx:51-54 | a successful register navigates but leaves the store unauthenticated with an undefined token, because the result has no token |
| AuthForms.LoginAuthFollowsToken | src/components/Auth/Login.jsx:39-41 | a successful login leaves `isAuthenticated` equal to the truthiness of the returned token |
| AuthForms.LoadingEndsFalse | src/components/Auth/Login.jsx:36-48 | once validation passes, `loading` ends false whatever the outcome |
| Language.InitialLanguage | src/i18n/LanguageContext.jsx:13-21 | the initial language is always `es` or `en` |
| Language.InitialLanguageSpec | src/i18n/LanguageContext.jsx:13-21 | the initial language is the saved one if it is supported, else the browser language's prefix before `-` if that is supported, else `es` |
| Language.BrowserPrefixChosen | src/i18n/LanguageContext.jsx:19-20 | with nothing saved, `en-US` gives `en` |
| Language.UnsupportedFallsBack | src/i18n/LanguageContext.jsx:15-20 | with `fr` saved and browser `fr-FR`, the language is `es` |
| Language.LanguageState.constructor | src/i18n/LanguageContext.jsx:13-21 | the state starts at the initial language |
| Language.LanguageState.SwitchLanguage | src/i18n/LanguageContext.jsx:29-33 | a supported language is taken and any other value is ignored |
| Language.LanguageState.Persist | src/i18n/LanguageContext.jsx:24-26 | the language is written under `appLanguage`, or the storage error is reported |
| Language.WalkAppend | src/i18n/LanguageContext.jsx:40-46 | walking a key path in two parts is walking the first part, then the rest from where it ended |
| Language.TranslateSpec | src/i18n/LanguageContext.jsx:36-49 | the result is the default or a truthy value found at the path. A table that is not an object gives the default. With no default given, a non-empty key never translates to a falsy value, because the key itself is the fallback |
| Language.TranslateNested | src/i18n/LanguageContext.jsx:37-46 | looking up `first.rest` in an object table is looking up `rest` in its `first` entry, with the same default rules |
| Language.LanguageState.T | src/i18n/LanguageContext.jsx:36-49 | the loop over the dotted segments returns what `Translate` gives for the current language's table |

## Left out

- The network. `fetch` in `apiCall` (src/services/api.js:106) and the board page's
  axios load (src/pages/Board.jsx:27-39) are not modelled. A response is an input value,
  and a body that fails to parse is given as `Null`.
- The service wrappers `taskService`, `projectService`, `userService` and `authService`
  are not part of this model.
- The thin endpoint wrappers are left out: `auth.verify`, `auth.getCurrentUser` and
  `auth.changePassword`, and every `tasks`, `projects` and `users` method except
  `tasks.getAll`. Each applies one of the five helpers, which are modelled
  (`Api.GetCall`, `Api.SendCall`, `Api.DeleteCall`), to a fixed endpoint string.
- React wiring is left out: hooks, provider, contexts, routing, `useLanguage`'s
  outside-provider error, and `navigate`, which is a flag in `AuthForms.Submission`.
  So are the promise orchestration of the async hooks and every presentational
  component.
- `JSON.stringify` is a function parameter and `JSON.parse` is not modelled. So
  `getCurrentUser` (src/utils/helpers.js:107-115) is left out.
- Clocks, locales and timers are left out:
  - the past-date comparison of `validate` (src/components/Tasks/TaskForm.jsx:60) is
    the input `pastDue`;
  - the `date` sort (`new Date` differences) and the `title` sort (`localeCompare`)
    of the task list make `TaskList.SortedTasks` return `None`;
  - `formatDate`, `debounce` and the logging helpers (src/utils/helpers.js:11-40,
    134-144) are not modelled.
- Console logging and the `process.env` / `import.meta.env` checks are left out. The
  configured base URL is the input of `Api.BaseUrl`.
- Numbers are unbounded integers. There are no floats, no `NaN` and no `-0`.
- `Array.prototype.sort` is modelled as a stable insertion sort (`TaskList.SortByKey`). The engine's sort is stable too, so for these key comparators the order is the same.
- Objects compare structurally where JavaScript compares references with `===`.
- Property reads see only own properties. Inherited names such as `constructor` are
  not modelled.
- Case mapping is ASCII only. Spreads and `substring` index strings by UTF-16 code
  unit in JavaScript but by character here. Lengths use `Utf16Length`.
- `Reducer.Decode` returns `None` for payloads of the wrong shape. Examples are a
  `SET_TASKS` payload that is not an array of objects, and an `ADD_TASK` payload that
  is not an object. There the code would store whatever it was given.
- The reducer's default parameter `state = INITIAL_STATE` is not modelled, because the
  modelled `Reduce` always takes a state.
- `Helpers.TrimInputs` takes a record, so the TypeError that `Object.keys(null)`
  throws is not modelled.
- `Helpers.IsValidPassword` compares `length` only when it is a number. A value whose
  `length` is a numeric string is not modelled.
- `Language.LanguageState.constructor` takes the saved language as `Option<string>`,
  so a `localStorage` read that throws inside the initialiser is not modelled. A
  `navigator.language` that is not a string is not modelled either.
- The board component's `handleDrop` (src/components/Board/Board.jsx:23-27) only
  forwards an event's data, and is left out.
- The translation tables (`./translations`) are not part of this model.
  `Language.LanguageState.T` takes them as a parameter.
- The store's `isAuthenticated` is not always the truthiness of `token`. The code
  recomputes it from whichever of `SET_USER` and `SET_TOKEN` ran last
  (`Reducer.AuthWithoutToken`), and the model follows the code.
- An update by id can change an entry's id when `updates` carries one
  (`Reducer.UpdateCanChangeId`), and the model follows the code.

## Findings

| source | as written | input that shows it | evidently intended | confidence | as-written member | corrected member |
|---|---|---|---|---|---|---|
| src/components/Tasks/TaskList.jsx:46 | `(priorityOrder[a.priority] \|\| 2)` turns the rank 0 of `high` into 2, so high sorts with low, after medium | tasks `[{priority: "low"}, {priority: "high"}]` sorted by `priority` stay in that order | `priorityOrder[p] ?? 2`: high, then medium, then low | high, not executed | TaskList.HighPrioritySortsLikeLow | TaskList.PrioritySortOrder |
| src/services/api.js:43-44 | `handleError(data, response)` reads `error.status` / `error.message` on `data`, which is `null` when the body is not JSON, as soon as the status text is empty (as under HTTP/2). It throws a TypeError before the status switch, so the mapped message is lost and a 401 never reaches `clearSession` | status 500, status text `""`, body that does not parse (`data = null`): TypeError "Cannot read properties of null (reading 'message')" | `error?.status` / `error?.message`: "Error del servidor. Intenta más tarde."; for 401 the session is cleared | high, not executed | Api.HandleErrorNullBody | Api.StatusTable |

The operations follow the code as written: `TaskList.SortedTasks` sorts by the `|| 2` rank, and `Api.HandleError`, `Api.ApiCall`, `Api.Login` and `Api.Register` read the body without `?.`. The corrected halves (`TaskList.PriorityRank`, `Api.ThrownError`, `Api.ClearsSession`) are stated beside them as the reference.
