/** The board page's grouping of tasks into one column per task type. */
module TypeBoard {
  import opened JsValue
  import opened Seqs
  import opened TaskTypes

  /** `t.type === typeKey || (!t.type && typeKey === 'feature')`. */
  predicate InTypeColumn(t: Record, typeKey: string) {
    Field(t, "type") == Str(typeKey) || (!Truthy(Field(t, "type")) && typeKey == "feature")
  }

  function InColumn(typeKey: string): Record -> bool {
    (t: Record) => InTypeColumn(t, typeKey)
  }

  /** `tasks.filter(...)` for one type key. */
  function TypeColumn(tasks: seq<Record>, typeKey: string): seq<Record> {
    Filter(tasks, InColumn(typeKey))
  }

  /** `tasksByType`: filled by a loop over the type keys. */
  method GroupByType(tasks: seq<Record>) returns (byType: map<string, seq<Record>>)
    ensures byType.Keys == TASK_TYPES.Keys
    ensures forall k :: k in byType ==> byType[k] == TypeColumn(tasks, k)
  {
    TaskTypeTable();
    byType := map[];
    var i := 0;
    while i < |TYPE_KEYS|
      invariant 0 <= i <= |TYPE_KEYS|
      invariant byType.Keys == set j | 0 <= j < i :: TYPE_KEYS[j]
      invariant forall k :: k in byType ==> byType[k] == TypeColumn(tasks, k)
    {
      byType := byType[TYPE_KEYS[i] := TypeColumn(tasks, TYPE_KEYS[i])];
      i := i + 1;
    }
    assert (set j | 0 <= j < |TYPE_KEYS| :: TYPE_KEYS[j]) == set k | k in TYPE_KEYS;
  }

  datatype Column = Column(
    id: string, title: string, typeKey: string,
    color: string, icon: string, bgColor: string, textColor: string, borderColor: string,
    tasks: seq<Record>)

  /** `columns`: one column per entry of the type table, in table order. */
  function Columns(byType: map<string, seq<Record>>): (cols: seq<Column>)
    requires TASK_TYPES.Keys <= byType.Keys
    ensures |cols| == |TYPE_KEYS|
    ensures forall i :: 0 <= i < |cols| ==>
      && cols[i].id == TYPE_KEYS[i] && cols[i].typeKey == TYPE_KEYS[i]
      && cols[i].title == TASK_TYPES[TYPE_KEYS[i]].name
      && cols[i].tasks == byType[TYPE_KEYS[i]]
  {
    seq(|TYPE_KEYS|, i requires 0 <= i < |TYPE_KEYS| =>
      var k := TYPE_KEYS[i];
      var c := TASK_TYPES[k];
      Column(k, c.name, k, c.color, c.icon, c.bgColor, c.textColor, c.borderColor, byType[k]))
  }

  /** The board page's columns for a list of tasks. */
  method BoardColumns(tasks: seq<Record>) returns (cols: seq<Column>)
    ensures |cols| == 6
    ensures forall i :: 0 <= i < |cols| ==>
      cols[i].id == TYPE_KEYS[i] && cols[i].tasks == TypeColumn(tasks, TYPE_KEYS[i])
  {
    var byType := GroupByType(tasks);
    cols := Columns(byType);
  }

  /** A column holds exactly the input tasks that pass its test, in input order. */
  lemma TypeColumnSpec(tasks: seq<Record>, typeKey: string)
    ensures forall t :: t in TypeColumn(tasks, typeKey) <==> t in tasks && InTypeColumn(t, typeKey)
    ensures IsSubsequence(TypeColumn(tasks, typeKey), tasks)
  {
    forall t ensures t in TypeColumn(tasks, typeKey) <==> t in tasks && InTypeColumn(t, typeKey) {
      FilterMembers(tasks, InColumn(typeKey), t);
    }
    FilterIsSubsequence(tasks, InColumn(typeKey));
  }

  /** A truthy type that is none of the table's keys. */
  predicate HasUnknownType(t: Record) {
    Truthy(Field(t, "type")) && !(Field(t, "type").Str? && Field(t, "type").s in TYPE_KEYS)
  }

  /** A task with a known type passes the test of its own column only; a task without a
      type passes only `feature`'s; a task with an unknown type passes none. */
  lemma ColumnOfTask(t: Record, typeKey: string)
    requires typeKey in TYPE_KEYS
    ensures Field(t, "type").Str? && Field(t, "type").s in TYPE_KEYS ==>
      (InTypeColumn(t, typeKey) <==> typeKey == Field(t, "type").s)
    ensures !Truthy(Field(t, "type")) ==> (InTypeColumn(t, typeKey) <==> typeKey == "feature")
    ensures HasUnknownType(t) ==> !InTypeColumn(t, typeKey)
  {
  }

  /** The total size of the columns for the given keys. */
  function SizeSum(tasks: seq<Record>, keys: seq<string>): nat
    decreases |keys|
  {
    if keys == [] then 0 else |TypeColumn(tasks, keys[0])| + SizeSum(tasks, keys[1..])
  }

  /** The number of the given keys whose column a task passes. */
  function Hits(t: Record, keys: seq<string>): nat
    decreases |keys|
  {
    if keys == [] then 0 else (if InTypeColumn(t, keys[0]) then 1 else 0) + Hits(t, keys[1..])
  }

  lemma {:induction false} SizeSumCons(t: Record, rest: seq<Record>, keys: seq<string>)
    ensures SizeSum([t] + rest, keys) == Hits(t, keys) + SizeSum(rest, keys)
    decreases |keys|
  {
    if keys != [] {
      SizeSumCons(t, rest, keys[1..]);
      assert ([t] + rest)[1..] == rest;
    }
  }

  /** A task passes one column of the table, or none when its type is unknown. */
  lemma HitsOfTask(t: Record)
    ensures Hits(t, TYPE_KEYS) == if HasUnknownType(t) then 0 else 1
  {
    var ty := Field(t, "type");
    assert Hits(t, TYPE_KEYS[6..]) == 0;
    assert Hits(t, TYPE_KEYS[5..]) == (if InTypeColumn(t, "design") then 1 else 0);
    assert Hits(t, TYPE_KEYS[4..]) == (if InTypeColumn(t, "testing") then 1 else 0) + Hits(t, TYPE_KEYS[5..]);
    assert Hits(t, TYPE_KEYS[3..]) == (if InTypeColumn(t, "documentation") then 1 else 0) + Hits(t, TYPE_KEYS[4..]);
    assert Hits(t, TYPE_KEYS[2..]) == (if InTypeColumn(t, "improvement") then 1 else 0) + Hits(t, TYPE_KEYS[3..]);
    assert Hits(t, TYPE_KEYS[1..]) == (if InTypeColumn(t, "bug") then 1 else 0) + Hits(t, TYPE_KEYS[2..]);
    assert Hits(t, TYPE_KEYS) == (if InTypeColumn(t, "feature") then 1 else 0) + Hits(t, TYPE_KEYS[1..]);
  }

  /** The columns together hold every task except those with an unknown type. */
  lemma {:induction false} ColumnSizes(tasks: seq<Record>)
    ensures SizeSum(tasks, TYPE_KEYS) + |Filter(tasks, HasUnknownType)| == |tasks|
  {
    if tasks == [] {
      assert SizeSum([], TYPE_KEYS[6..]) == 0;
    } else {
      var t, rest := tasks[0], tasks[1..];
      assert tasks == [t] + rest;
      ColumnSizes(rest);
      SizeSumCons(t, rest, TYPE_KEYS);
      HitsOfTask(t);
    }
  }

  /** The column sizes reach the number of tasks exactly when no task has an unknown type. */
  lemma ColumnSizesExact(tasks: seq<Record>)
    ensures SizeSum(tasks, TYPE_KEYS) <= |tasks|
    ensures SizeSum(tasks, TYPE_KEYS) == |tasks| <==> forall i :: 0 <= i < |tasks| ==> !HasUnknownType(tasks[i])
  {
    var unknown := Filter(tasks, HasUnknownType);
    assert SizeSum(tasks, TYPE_KEYS) + |unknown| == |tasks| by { ColumnSizes(tasks); }
    assert unknown == [] <==> forall i :: 0 <= i < |tasks| ==> !HasUnknownType(tasks[i]) by {
      FilterEmptyIff(tasks, HasUnknownType);
    }
  }
}
