/** The edit-task modal: the form it shows for a task, the type configuration that
    colours it, and the guarded submit. */
module EditTaskModal {
  import opened Wrappers
  import opened JsValue
  import opened TaskTypes

  const EDIT_FIELDS: set<string> := {"title", "description", "type", "priority", "dueDate", "status"}

  /** The form before any task is loaded. */
  function BlankForm(selectedTaskType: Value): (form: Record)
    ensures form.Keys == EDIT_FIELDS
    ensures form["type"] == if Truthy(selectedTaskType) then selectedTaskType else Str("feature")
  {
    map["title" := Str(""), "description" := Str(""), "type" := Or(selectedTaskType, Str("feature")),
        "priority" := Str("medium"), "dueDate" := Str(""), "status" := Str("backlog")]
  }

  /** The first ten characters of a due date, `substring(0, 10)`. */
  function DatePart(s: string): string {
    if |s| <= 10 then s else s[..10]
  }

  /** The form the effect sets for a truthy task: `||` defaults, the type falling back
      to the selected type and then `feature`, and the due date cut to its date part
      (which throws for a truthy due date that is not a string). */
  function EditForm(task: Value, selectedTaskType: Value): Result<Record, Exception> {
    var due := Get(task, "dueDate");
    if Truthy(due) && !due.Str? then Err(TypeError("task.dueDate.substring is not a function"))
    else Ok(map[
      "title" := Or(Get(task, "title"), Str("")),
      "description" := Or(Get(task, "description"), Str("")),
      "type" := Or(Get(task, "type"), Or(selectedTaskType, Str("feature"))),
      "priority" := Or(Get(task, "priority"), Str("medium")),
      "dueDate" := if Truthy(due) then Str(DatePart(due.s)) else Str(""),
      "status" := Or(Get(task, "status"), Str("backlog"))])
  }

  /** A truthy title, description, priority or status is kept and a missing one becomes
      `""`, `medium` or `backlog`; the type is the task's, else the selected one, else
      `feature`; the due date is the first ten characters of the task's, or `""`. */
  lemma EditFormSpec(task: Value, selectedTaskType: Value)
    ensures EditForm(task, selectedTaskType).Ok? <==> !Truthy(Get(task, "dueDate")) || Get(task, "dueDate").Str?
    ensures EditForm(task, selectedTaskType).Ok? ==>
      var form := EditForm(task, selectedTaskType).value;
      && form.Keys == EDIT_FIELDS
      && (!Truthy(Get(task, "title")) ==> form["title"] == Str(""))
      && (!Truthy(Get(task, "description")) ==> form["description"] == Str(""))
      && (!Truthy(Get(task, "priority")) ==> form["priority"] == Str("medium"))
      && (!Truthy(Get(task, "status")) ==> form["status"] == Str("backlog"))
      && (Truthy(Get(task, "type")) ==> form["type"] == Get(task, "type"))
      && (!Truthy(Get(task, "type")) && Truthy(selectedTaskType) ==> form["type"] == selectedTaskType)
      && (!Truthy(Get(task, "type")) && !Truthy(selectedTaskType) ==> form["type"] == Str("feature"))
      && Truthy(form["type"])
      && (forall f :: f in {"title", "description", "priority", "status"} && Truthy(Get(task, f)) ==>
            form[f] == Get(task, f))
      && form["dueDate"].Str? && |form["dueDate"].s| <= 10
      && (Get(task, "dueDate").Str? ==> form["dueDate"].s <= Get(task, "dueDate").s)
      && (Truthy(Get(task, "dueDate")) ==>
            var d := Get(task, "dueDate").s;
            form["dueDate"] == Str(d[..if |d| <= 10 then |d| else 10]))
      && (!Truthy(Get(task, "dueDate")) ==> form["dueDate"] == Str(""))
  {
  }

  /** `selectedTypeConfig`: `(type && TASK_TYPES[type]) || TASK_TYPES.feature`. */
  function SelectedTypeConfig(form: Record): TaskType {
    var ty := Field(form, "type");
    if Truthy(ty) && ToString(ty) in TASK_TYPES then TASK_TYPES[ToString(ty)] else TASK_TYPES["feature"]
  }

  /** The colouring is that of `getTaskTypeConfig` on the form's type: its own entry for
      a known type and `feature` for an empty or unknown one. */
  lemma SelectedTypeConfigSpec(form: Record)
    ensures SelectedTypeConfig(form) == GetTaskTypeConfig(Field(form, "type"))
    ensures !Truthy(Field(form, "type")) ==> SelectedTypeConfig(form) == FEATURE
    ensures Field(form, "type").Str? && Field(form, "type").s in TASK_TYPES ==>
      SelectedTypeConfig(form).id == Field(form, "type").s
  {
    var ty := Field(form, "type");
    if !Truthy(ty) {
      FalsyTypeUnknown(ty);
    } else if ty.Str? && ty.s in TASK_TYPES {
      EntryId(ty.s);
    }
  }

  /** `handleChange`: the named field takes the new value and every other field keeps
      its own, so the form never loses a field. */
  function HandleChange(form: Record, name: string, value: Value): (next: Record)
    ensures next.Keys == form.Keys + {name}
    ensures next[name] == value
    ensures forall k :: k in form && k != name ==> next[k] == form[k]
    ensures EDIT_FIELDS <= form.Keys ==> EDIT_FIELDS <= next.Keys
  {
    SpreadOf(Obj(form))[name := value]
  }

  /** A callback the modal makes. */
  datatype Callback = OnSubmit(id: Value, form: Record) | OnClose

  /** `handleSubmit`: nothing without a truthy `task?.id`; otherwise `onSubmit` with the
      id and a copy of the form, then `onClose`. */
  function HandleSubmit(task: Value, form: Record): (calls: seq<Callback>)
    ensures calls == [] <==> !Truthy(Get(task, "id"))
    ensures calls != [] ==> calls == [OnSubmit(Get(task, "id"), form), OnClose]
  {
    var id := Get(task, "id");
    if !Truthy(id) then [] else [OnSubmit(id, SpreadOf(Obj(form))), OnClose]
  }
}
