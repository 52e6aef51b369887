/** The task form: its field defaults, the loading of initial data, the validation rule,
    the submit gate and the change handler. */
module TaskForm {
  import opened Wrappers
  import opened Text
  import opened JsValue
  import opened Helpers

  const FORM_FIELDS: set<string> := {"title", "description", "priority", "status", "dueDate", "assignedTo"}

  /** The fields a missing or falsy value falls back to. */
  const DEFAULTS: map<string, string> :=
    map["title" := "", "description" := "", "priority" := "medium", "status" := "pending",
        "dueDate" := "", "assignedTo" := ""]

  /** The form's initial state. */
  const DEFAULT_FORM: Record :=
    map["title" := Str(""), "description" := Str(""), "priority" := Str("medium"),
        "status" := Str("pending"), "dueDate" := Str(""), "assignedTo" := Str("")]

  const TITLE_REQUIRED: string := "El título es requerido"
  const TITLE_TOO_LONG: string := "El título no puede exceder 100 caracteres"
  const DESCRIPTION_TOO_LONG: string := "La descripción no puede exceder 500 caracteres"
  const DUE_DATE_PAST: string := "La fecha no puede ser en el pasado"

  /** The form the effect sets from truthy `initialData`: `||` defaults, the due date cut
      at its first `T` (which throws for a truthy due date that is not a string), and the
      id of the assignee. */
  function InitialForm(d: Value): Result<Record, Exception> {
    var due := Get(d, "dueDate");
    if Truthy(due) && !due.Str? then Err(TypeError("initialData.dueDate.split is not a function"))
    else Ok(map[
      "title" := Or(Get(d, "title"), Str("")),
      "description" := Or(Get(d, "description"), Str("")),
      "priority" := Or(Get(d, "priority"), Str("medium")),
      "status" := Or(Get(d, "status"), Str("pending")),
      "dueDate" := if Truthy(due) then Str(Split(due.s, 'T')[0]) else Str(""),
      "assignedTo" := Or(Get(Get(d, "assignedTo"), "id"), Str(""))])
  }

  /** The loaded form has the six fields; a truthy title, description, priority or status
      is kept and a falsy one becomes its default; the due date keeps what precedes its
      first `T`; the assignee becomes its id, or `""`. */
  lemma InitialFormSpec(d: Value)
    ensures InitialForm(d).Ok? <==> !Truthy(Get(d, "dueDate")) || Get(d, "dueDate").Str?
    ensures InitialForm(d).Ok? ==> InitialForm(d).value.Keys == FORM_FIELDS
    ensures InitialForm(d).Ok? ==> forall f :: f in {"title", "description", "priority", "status"} ==>
      InitialForm(d).value[f] == if Truthy(Get(d, f)) then Get(d, f) else Str(DEFAULTS[f])
    ensures InitialForm(d).Ok? ==> InitialForm(d).value["dueDate"].Str?
    ensures InitialForm(d).Ok? ==> 'T' !in InitialForm(d).value["dueDate"].s
    ensures Get(d, "dueDate").Str? && 'T' in Get(d, "dueDate").s ==>
      InitialForm(d).value["dueDate"] == Str(Get(d, "dueDate").s[..IndexOf(Get(d, "dueDate").s, 'T')])
    ensures Get(d, "dueDate").Str? && 'T' !in Get(d, "dueDate").s ==>
      InitialForm(d).value["dueDate"] == Get(d, "dueDate")
    ensures InitialForm(d).Ok? ==>
      InitialForm(d).value["assignedTo"] == Or(Get(Get(d, "assignedTo"), "id"), Str(""))
  {
    var due := Get(d, "dueDate");
    if due.Str? {
      SplitFirst(due.s, 'T');
    }
  }

  /** The error `formData.title.trim()` throws for a title that is not a string. */
  function TrimError(title: Value): Exception {
    if IsNullish(title) then TypeError(NullishReadMessage(title, "trim"))
    else TypeError("formData.title.trim is not a function")
  }

  /** The errors `validate` collects, or the exception reading the fields throws. Whether
      the due date lies in the past is the caller's `pastDue`. */
  function ValidationErrors(form: Record, pastDue: bool): Result<Record, Exception> {
    var title := Field(form, "title");
    var description := Field(form, "description");
    if !title.Str? then Err(TrimError(title))
    else if IsNullish(description) then Err(TypeError(NullishReadMessage(description, "length")))
    else
      Ok(DueDateErrors(DescriptionErrors(TitleErrors(title.s), description), Field(form, "dueDate"), pastDue))
  }

  /** The title's error: `required` when blank after trimming, replaced by `too long`
      beyond 100 code units. */
  function TitleErrors(title: string): Record {
    var afterRequired: Record := if Trim(title) == "" then map["title" := Str(TITLE_REQUIRED)] else map[];
    if Utf16Length(title) > 100 then afterRequired["title" := Str(TITLE_TOO_LONG)] else afterRequired
  }

  /** `errs` with the description's error added when its `length` reaches 501. */
  function DescriptionErrors(errs: Record, description: Value): Record {
    if AtLeast(Get(description, "length"), 501) then errs["description" := Str(DESCRIPTION_TOO_LONG)] else errs
  }

  /** `errs` with the due date's error added when it is set and past. */
  function DueDateErrors(errs: Record, dueDate: Value, pastDue: bool): Record {
    if Truthy(dueDate) && pastDue then errs["dueDate" := Str(DUE_DATE_PAST)] else errs
  }

  /** A string title gets the length error when it has more than 100 UTF-16 code units,
      and otherwise the required error when it is blank after trimming; a string
      description gets an error beyond 500; the due date gets one when it is set and
      past; nothing else is flagged. */
  lemma ValidationErrorsSpec(form: Record, pastDue: bool)
    requires Field(form, "title").Str? && Field(form, "description").Str?
    ensures ValidationErrors(form, pastDue).Ok?
    ensures var title, description := Field(form, "title").s, Field(form, "description").s;
      var errs := ValidationErrors(form, pastDue).value;
      && errs.Keys <= {"title", "description", "dueDate"}
      && ("title" in errs <==> Utf16Length(title) > 100 || Trim(title) == "")
      && (Utf16Length(title) > 100 ==> errs["title"] == Str(TITLE_TOO_LONG))
      && (Utf16Length(title) <= 100 && Trim(title) == "" ==> errs["title"] == Str(TITLE_REQUIRED))
      && ("description" in errs <==> Utf16Length(description) > 500)
      && ("description" in errs ==> errs["description"] == Str(DESCRIPTION_TOO_LONG))
      && ("dueDate" in errs <==> Truthy(Field(form, "dueDate")) && pastDue)
      && (errs == map[] <==>
            Utf16Length(title) <= 100 && Trim(title) != "" && Utf16Length(description) <= 500
            && !(Truthy(Field(form, "dueDate")) && pastDue))
  {
    var errs := ValidationErrors(form, pastDue).value;
    if "title" !in errs && "description" !in errs && "dueDate" !in errs {
      assert errs.Keys == {};
    }
  }

  /** The untouched default form is refused for its empty title alone. */
  lemma DefaultFormRefused(pastDue: bool)
    ensures ValidationErrors(DEFAULT_FORM, pastDue) == Ok(map["title" := Str(TITLE_REQUIRED)])
  {
    assert Field(DEFAULT_FORM, "title") == Str("");
    assert Field(DEFAULT_FORM, "description") == Str("");
    assert Field(DEFAULT_FORM, "dueDate") == Str("");
    assert Trim("") == "";
  }

  /** Every error value is a string, as `handleChange` keeps them. */
  predicate ErrorsAreStrings(errors: Record) {
    forall k :: k in errors ==> errors[k].Str?
  }

  /** The collected errors are all messages. */
  lemma StepsAreStrings(title: string, description: Value, dueDate: Value, pastDue: bool)
    ensures ErrorsAreStrings(DueDateErrors(DescriptionErrors(TitleErrors(title), description), dueDate, pastDue))
  {
  }

  class TaskFormState {
    var formData: Record
    var errors: Record

    /** The form keeps all six fields and every error is a string. */
    predicate Valid()
      reads this
    {
      FORM_FIELDS <= formData.Keys && ErrorsAreStrings(errors)
    }

    constructor ()
      ensures Valid()
      ensures formData == DEFAULT_FORM && errors == map[]
    {
      formData := DEFAULT_FORM;
      errors := map[];
    }

    /** The effect on `initialData`: nothing for a falsy value, the loaded form otherwise. */
    method LoadInitialData(d: Value) returns (r: Result<(), Exception>)
      requires Valid()
      modifies this
      ensures Valid()
      ensures errors == old(errors)
      ensures !Truthy(d) ==> r == Ok(()) && formData == old(formData)
      ensures Truthy(d) && InitialForm(d).Ok? ==> r == Ok(()) && formData == InitialForm(d).value
      ensures Truthy(d) && InitialForm(d).Err? ==> r == Err(InitialForm(d).error) && formData == old(formData)
    {
      if !Truthy(d) {
        return Ok(());
      }
      var loaded := InitialForm(d);
      if loaded.Err? {
        return Err(loaded.error);
      }
      InitialFormSpec(d);
      formData := loaded.value;
      r := Ok(());
    }

    /** `validate()`: collects the errors field by field, stores them and reports whether
        there are none; when reading a field throws, nothing is stored. */
    method Validate(pastDue: bool) returns (r: Result<bool, Exception>)
      requires Valid()
      modifies this
      ensures Valid()
      ensures formData == old(formData)
      ensures ValidationErrors(formData, pastDue).Ok? ==>
        errors == ValidationErrors(formData, pastDue).value && r == Ok(errors == map[])
      ensures ValidationErrors(formData, pastDue).Err? ==>
        errors == old(errors) && r == Err(ValidationErrors(formData, pastDue).error)
    {
      var title := Field(formData, "title");
      if !title.Str? {
        return Err(TrimError(title));
      }
      var newErrors: Record := map[];
      if Trim(title.s) == "" {
        newErrors := newErrors["title" := Str(TITLE_REQUIRED)];
      }
      if Utf16Length(title.s) > 100 {
        newErrors := newErrors["title" := Str(TITLE_TOO_LONG)];
      }
      assert newErrors == TitleErrors(title.s);
      var description := Field(formData, "description");
      if IsNullish(description) {
        return Err(TypeError(NullishReadMessage(description, "length")));
      }
      if AtLeast(Get(description, "length"), 501) {
        newErrors := newErrors["description" := Str(DESCRIPTION_TOO_LONG)];
      }
      assert newErrors == DescriptionErrors(TitleErrors(title.s), description);
      if Truthy(Field(formData, "dueDate")) && pastDue {
        newErrors := newErrors["dueDate" := Str(DUE_DATE_PAST)];
      }
      StepsAreStrings(title.s, description, Field(formData, "dueDate"), pastDue);
      errors := newErrors;
      r := Ok(|newErrors.Keys| == 0);
      if |newErrors.Keys| == 0 {
        assert newErrors.Keys == {};
      }
    }

    /** `handleSubmit`: the form goes to `onSubmit` only when `validate` returns true. */
    method HandleSubmit(pastDue: bool) returns (submitted: Result<Option<Record>, Exception>)
      requires Valid()
      modifies this
      ensures Valid()
      ensures formData == old(formData)
      ensures submitted.Ok? && submitted.value.Some? <==>
        ValidationErrors(formData, pastDue) == Ok(map[])
      ensures submitted.Ok? && submitted.value.Some? ==> submitted.value.value == formData
      ensures submitted.Err? <==> ValidationErrors(formData, pastDue).Err?
    {
      var valid := Validate(pastDue);
      if valid.Err? {
        return Err(valid.error);
      }
      if !valid.value {
        return Ok(None);
      }
      submitted := Ok(Some(formData));
    }

    /** `handleChange`: writes the named field and resets that field's error to `""` when
        it is set. */
    method HandleChange(name: string, value: Value)
      requires Valid()
      modifies this
      ensures Valid()
      ensures formData == old(formData)[name := value]
      ensures errors == if name in old(errors) && Truthy(old(errors)[name])
                        then old(errors)[name := Str("")] else old(errors)
    {
      formData := formData[name := value];
      if Truthy(Field(errors, name)) {
        errors := errors[name := Str("")];
      }
    }
  }
}
