/** The task-type table: the six kinds of task a board groups by, with their display
    names, icons and colour classes. */
module TaskTypes {
  import opened JsValue

  datatype TaskType = TaskType(
    id: string, name: string, icon: string,
    color: string, bgColor: string, textColor: string, borderColor: string)

  const FEATURE: TaskType := TaskType(
    "feature", "Feature", "fa-star",
    "from-[oklch(62.3%_0.214_259.815)] to-[oklch(57%_0.19_259.815)]",
    "bg-[oklch(25%_0.12_259.815)]", "text-[oklch(62.3%_0.214_259.815)]", "border-[oklch(55%_0.18_259.815)]")

  const BUG: TaskType := TaskType(
    "bug", "Bug", "fa-bug",
    "from-[oklch(39.6%_0.141_25.723)] to-[oklch(35%_0.12_25.723)]",
    "bg-[oklch(20%_0.1_25.723)]", "text-[oklch(39.6%_0.141_25.723)]", "border-[oklch(50%_0.15_25.723)]")

  const IMPROVEMENT: TaskType := TaskType(
    "improvement", "Mejora", "fa-arrow-up",
    "from-[oklch(55.5%_0.163_48.998)] to-[oklch(50%_0.14_48.998)]",
    "bg-[oklch(25%_0.1_48.998)]", "text-[oklch(55.5%_0.163_48.998)]", "border-[oklch(60%_0.16_48.998)]")

  const DOCUMENTATION: TaskType := TaskType(
    "documentation", "Documentación", "fa-file-alt",
    "from-[oklch(70.2%_0.183_293.541)] to-[oklch(65%_0.16_293.541)]",
    "bg-[oklch(30%_0.12_293.541)]", "text-[oklch(70.2%_0.183_293.541)]", "border-[oklch(65%_0.17_293.541)]")

  const TESTING: TaskType := TaskType(
    "testing", "Testing", "fa-flask",
    "from-green-500 to-green-600",
    "bg-green-900/70", "text-green-300", "border-green-500")

  const DESIGN: TaskType := TaskType(
    "design", "Diseño", "fa-palette",
    "from-[oklch(71.2%_0.194_13.428)] to-[oklch(65%_0.17_13.428)]",
    "bg-[oklch(30%_0.12_13.428)]", "text-[oklch(71.2%_0.194_13.428)]", "border-[oklch(65%_0.18_13.428)]")

  /** `Object.keys(TASK_TYPES)`: the keys in declaration order. */
  const TYPE_KEYS: seq<string> := ["feature", "bug", "improvement", "documentation", "testing", "design"]

  /** `TASK_TYPES`. */
  const TASK_TYPES: map<string, TaskType> := map[
    "feature" := FEATURE, "bug" := BUG, "improvement" := IMPROVEMENT,
    "documentation" := DOCUMENTATION, "testing" := TESTING, "design" := DESIGN]

  /** There are six distinct types, the table holds exactly them, and every entry's `id`
      is its own key. */
  lemma TaskTypeTable()
    ensures |TYPE_KEYS| == 6
    ensures forall i, j :: 0 <= i < j < |TYPE_KEYS| ==> TYPE_KEYS[i] != TYPE_KEYS[j]
    ensures TASK_TYPES.Keys == set k | k in TYPE_KEYS
    ensures forall k :: k in TASK_TYPES ==> TASK_TYPES[k].id == k
  {
  }

  /** `getTaskTypeConfig(typeId)`: `TASK_TYPES[typeId] || TASK_TYPES.feature`; the
      property name is `String(typeId)`. */
  function GetTaskTypeConfig(typeId: Value): TaskType {
    var k := ToString(typeId);
    if k in TASK_TYPES then TASK_TYPES[k] else TASK_TYPES["feature"]
  }

  /** No falsy value names a type: `undefined`, `null`, `false`, `0` and `""` all
      stringify to something that is not a key. */
  lemma FalsyTypeUnknown(typeId: Value)
    requires !Truthy(typeId)
    ensures ToString(typeId) !in TASK_TYPES
  {
    match typeId
    case Num(n) => assert ToString(typeId) == "0";
    case Str(s) => assert s == "";
    case _ =>
  }

  /** Each entry's `id` is its own key. */
  lemma EntryId(k: string)
    requires k in TASK_TYPES
    ensures TASK_TYPES[k].id == k
  {
  }

  /** A known key gives its entry and anything else the `feature` entry. */
  lemma TaskTypeConfigFallback(typeId: Value)
    ensures typeId.Str? && typeId.s in TYPE_KEYS ==> GetTaskTypeConfig(typeId).id == typeId.s
    ensures ToString(typeId) !in TYPE_KEYS ==> GetTaskTypeConfig(typeId) == FEATURE
    ensures GetTaskTypeConfig(typeId) in TASK_TYPES.Values
  {
  }

  /** `getTaskTypeList()`: `Object.values(TASK_TYPES)`. */
  function GetTaskTypeList(): seq<TaskType> {
    seq(|TYPE_KEYS|, i requires 0 <= i < |TYPE_KEYS| => TASK_TYPES[TYPE_KEYS[i]])
  }

  /** All six entries, in declaration order. */
  lemma TaskTypeListOrder()
    ensures GetTaskTypeList() == [FEATURE, BUG, IMPROVEMENT, DOCUMENTATION, TESTING, DESIGN]
    ensures forall i :: 0 <= i < |GetTaskTypeList()| ==> GetTaskTypeList()[i].id == TYPE_KEYS[i]
  {
  }
}
