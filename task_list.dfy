/** The task list's search box, status filter and sort order. */
module TaskList {
  import opened Wrappers
  import opened Text
  import opened JsValue
  import opened Seqs

  // ----- Search and filter -----

  /** `title.toLowerCase().includes(searchTerm.toLowerCase())`. */
  predicate MatchesSearch(title: string, term: string) {
    Includes(Lower(title), Lower(term))
  }

  /** `filter === "all" || (filter === "active" && status !== "completed") ||
      (filter === "completed" && status === "completed")`. */
  predicate MatchesFilter(filter: string, status: Value) {
    || filter == "all"
    || (filter == "active" && status != Str("completed"))
    || (filter == "completed" && status == Str("completed"))
  }

  /** The filter callback for a task whose title is a string. */
  function Keeps(term: string, filter: string): Record -> bool {
    (t: Record) =>
      Field(t, "title").Str? && MatchesSearch(Field(t, "title").s, term) && MatchesFilter(filter, Field(t, "status"))
  }

  /** The error `task.title.toLowerCase()` throws for a title that is not a string. */
  function TitleError(title: Value): Exception {
    if IsNullish(title) then TypeError(NullishReadMessage(title, "toLowerCase"))
    else TypeError("task.title.toLowerCase is not a function")
  }

  /** `filteredTasks`: the callback runs on the tasks in order and the first task whose
      title is not a string makes it throw. */
  function FilteredTasks(tasks: seq<Record>, term: string, filter: string): Result<seq<Record>, Exception>
    decreases |tasks|
  {
    if tasks == [] then Ok([])
    else
      var title := Field(tasks[0], "title");
      if !title.Str? then Err(TitleError(title))
      else match FilteredTasks(tasks[1..], term, filter)
        case Err(e) => Err(e)
        case Ok(rest) => Ok((if Keeps(term, filter)(tasks[0]) then [tasks[0]] else []) + rest)
  }

  predicate AllTitled(tasks: seq<Record>) {
    forall i :: 0 <= i < |tasks| ==> Field(tasks[i], "title").Str?
  }

  /** The list is filtered without an error exactly when every title is a string, and it
      then keeps, in order, the tasks the callback accepts. */
  lemma {:induction false} FilteredTasksSpec(tasks: seq<Record>, term: string, filter: string)
    ensures FilteredTasks(tasks, term, filter).Ok? <==> AllTitled(tasks)
    ensures AllTitled(tasks) ==> FilteredTasks(tasks, term, filter).value == Filter(tasks, Keeps(term, filter))
    decreases |tasks|
  {
    if tasks != [] {
      FilteredTasksSpec(tasks[1..], term, filter);
      if !AllTitled(tasks[1..]) {
        var i :| 0 <= i < |tasks[1..]| && !Field(tasks[1..][i], "title").Str?;
        assert !Field(tasks[i + 1], "title").Str?;
      }
    }
  }

  /** The filtered list is an order-preserving selection of the tasks. */
  lemma FilteredIsSelection(tasks: seq<Record>, term: string, filter: string)
    requires AllTitled(tasks)
    ensures FilteredTasks(tasks, term, filter).Ok?
    ensures IsSubsequence(FilteredTasks(tasks, term, filter).value, tasks)
    ensures forall t :: t in FilteredTasks(tasks, term, filter).value <==> t in tasks && Keeps(term, filter)(t)
  {
    FilteredTasksSpec(tasks, term, filter);
    FilterIsSubsequence(tasks, Keeps(term, filter));
    forall t ensures t in Filter(tasks, Keeps(term, filter)) <==> t in tasks && Keeps(term, filter)(t) {
      FilterMembers(tasks, Keeps(term, filter), t);
    }
  }

  /** The search is a substring test on the ASCII-lower-cased title, and the empty term
      matches every title. */
  lemma SearchMeaning(title: string, term: string)
    ensures MatchesSearch(title, term) <==> exists i :: OccursAt(Lower(title), Lower(term), i)
    ensures MatchesSearch(title, "")
  {
    IncludesIff(Lower(title), Lower(term));
    IncludesEmpty(Lower(title));
  }

  /** `all` keeps everything, `active` what is not `completed`, `completed` only that;
      any other filter value keeps nothing. */
  lemma FilterModes(filter: string, status: Value)
    ensures MatchesFilter("all", status)
    ensures MatchesFilter("active", status) <==> status != Str("completed")
    ensures MatchesFilter("completed", status) <==> status == Str("completed")
    ensures filter !in {"all", "active", "completed"} ==> !MatchesFilter(filter, status)
  {
  }

  // ----- Sorting -----

  /** Places `x` before the first element whose key is not smaller than its own. */
  function Insert(x: Record, xs: seq<Record>, key: Record -> int): (r: seq<Record>)
    ensures multiset(r) == multiset(xs) + multiset{x}
    decreases |xs|
  {
    if xs == [] then [x]
    else if key(x) <= key(xs[0]) then [x] + xs
    else
      assert xs == [xs[0]] + xs[1..];
      [xs[0]] + Insert(x, xs[1..], key)
  }

  /** A stable sort by an integer key: what `sort` with the comparator
      `(a, b) => key(a) - key(b)` produces. */
  function SortByKey(xs: seq<Record>, key: Record -> int): (r: seq<Record>)
    ensures multiset(r) == multiset(xs)
    decreases |xs|
  {
    if xs == [] then []
    else
      assert xs == [xs[0]] + xs[1..];
      Insert(xs[0], SortByKey(xs[1..], key), key)
  }

  predicate SortedBy(xs: seq<Record>, key: Record -> int) {
    forall i, j :: 0 <= i < j < |xs| ==> key(xs[i]) <= key(xs[j])
  }

  function WithKey(key: Record -> int, k: int): Record -> bool {
    (x: Record) => key(x) == k
  }

  lemma {:induction false} InsertSorted(x: Record, xs: seq<Record>, key: Record -> int)
    requires SortedBy(xs, key)
    ensures SortedBy(Insert(x, xs, key), key)
    decreases |xs|
  {
    if xs != [] && key(x) > key(xs[0]) {
      InsertSorted(x, xs[1..], key);
      var tail := Insert(x, xs[1..], key);
      forall j | 0 <= j < |tail| ensures key(xs[0]) <= key(tail[j]) {
        assert tail[j] in multiset(xs[1..]) + multiset{x};
        if tail[j] != x {
          assert tail[j] in xs[1..];
        }
      }
    }
  }

  /** Inserting `x` adds it to the run of its key at the front and leaves every other run
      as it was. */
  lemma {:induction false} InsertRuns(x: Record, xs: seq<Record>, key: Record -> int, k: int)
    ensures Filter(Insert(x, xs, key), WithKey(key, k)) ==
      (if key(x) == k then [x] else []) + Filter(xs, WithKey(key, k))
    decreases |xs|
  {
    if xs != [] && key(x) > key(xs[0]) {
      InsertRuns(x, xs[1..], key, k);
      assert ([xs[0]] + Insert(x, xs[1..], key))[1..] == Insert(x, xs[1..], key);
    }
  }

  /** The sort is ordered by the key, permutes its input, and keeps the input order of
      elements with equal keys. */
  lemma {:induction false} SortByKeySpec(xs: seq<Record>, key: Record -> int)
    ensures SortedBy(SortByKey(xs, key), key)
    ensures multiset(SortByKey(xs, key)) == multiset(xs)
    ensures forall k :: Filter(SortByKey(xs, key), WithKey(key, k)) == Filter(xs, WithKey(key, k))
    decreases |xs|
  {
    if xs != [] {
      SortByKeySpec(xs[1..], key);
      InsertSorted(xs[0], SortByKey(xs[1..], key), key);
      forall k ensures Filter(SortByKey(xs, key), WithKey(key, k)) == Filter(xs, WithKey(key, k)) {
        InsertRuns(xs[0], SortByKey(xs[1..], key), key, k);
      }
    }
  }

  /** A comparator that returns 0 for every pair keeps the order. */
  lemma {:induction false} SortByConstantKey(xs: seq<Record>, key: Record -> int, c: int)
    requires forall x :: key(x) == c
    ensures SortByKey(xs, key) == xs
    decreases |xs|
  {
    if xs != [] {
      SortByConstantKey(xs[1..], key, c);
      if xs[1..] != [] {
        assert key(xs[0]) <= key(xs[1..][0]);
      }
      assert [xs[0]] + xs[1..] == xs;
    }
  }

  /** `priorityOrder`. */
  const PRIORITY_ORDER: map<string, int> := map["high" := 0, "medium" := 1, "low" := 2]

  /** `priorityOrder[p] || 2` as written: the rank 0 of `high` is falsy and becomes 2. */
  function PriorityRankAsWritten(priority: Value): int {
    var k := ToString(priority);
    match Or(if k in PRIORITY_ORDER then Num(PRIORITY_ORDER[k]) else Undefined, Num(2))
    case Num(n) => n
    case _ => 2
  }

  /** The rank with the evident intent, `priorityOrder[p] ?? 2`: `high` first, then
      `medium`, then `low` together with any other value. */
  function PriorityRank(priority: Value): int {
    var k := ToString(priority);
    if k in PRIORITY_ORDER then PRIORITY_ORDER[k] else 2
  }

  function PriorityKeyAsWritten(): Record -> int {
    (t: Record) => PriorityRankAsWritten(Field(t, "priority"))
  }

  function PriorityKey(): Record -> int {
    (t: Record) => PriorityRank(Field(t, "priority"))
  }

  /** As written, `high` ranks with `low` and after `medium`. */
  lemma AsWrittenRanks()
    ensures PriorityRankAsWritten(Str("high")) == PriorityRankAsWritten(Str("low")) == 2
    ensures PriorityRankAsWritten(Str("medium")) == 1
  {
  }

  /** As written, a low-priority task listed before a high-priority one stays in front
      of it. */
  lemma HighPrioritySortsLikeLow()
    ensures var low := map["priority" := Str("low")];
      var high := map["priority" := Str("high")];
      SortByKey([low, high], PriorityKeyAsWritten()) == [low, high]
      && SortedTasks([low, high], "priority") == Some([low, high])
  {
    var low := map["priority" := Str("low")];
    var high := map["priority" := Str("high")];
    var key := PriorityKeyAsWritten();
    assert key(low) == 2 by { assert Field(low, "priority") == Str("low"); }
    assert key(high) == 2 by { assert Field(high, "priority") == Str("high"); }
    assert SortByKey([high], key) == [high];
    assert [low, high][1..] == [high];
    assert Insert(low, [high], key) == [low, high];
  }

  /** Corrected, the ranks order `high` before `medium` before `low`, unknown values
      with `low`, and the sort puts a high-priority task first. */
  lemma PrioritySortOrder(p: Value)
    ensures PriorityRank(Str("high")) < PriorityRank(Str("medium")) < PriorityRank(Str("low"))
    ensures ToString(p) !in PRIORITY_ORDER ==> PriorityRank(p) == PriorityRank(Str("low"))
    ensures var low := map["priority" := Str("low")];
      var high := map["priority" := Str("high")];
      SortByKey([low, high], PriorityKey()) == [high, low]
  {
    var low := map["priority" := Str("low")];
    var high := map["priority" := Str("high")];
    assert SortByKey([high], PriorityKey()) == [high];
    assert [low, high][1..] == [high];
  }

  /** The key each `sortBy` value sorts by: the priority rank as written, and a
      constant for any unrecognised value. `date` compares parsed `Date` objects and `title` uses
      `localeCompare`; both are outside the model. */
  function SortKey(sortBy: string): Option<Record -> int> {
    if sortBy == "date" || sortBy == "title" then None
    else if sortBy == "priority" then Some(PriorityKeyAsWritten())
    else Some((t: Record) => 0)
  }

  /** `sortedTasks`: a sorted copy of the filtered list. */
  function SortedTasks(filtered: seq<Record>, sortBy: string): Option<seq<Record>> {
    match SortKey(sortBy)
    case Some(key) => Some(SortByKey(filtered, key))
    case None => None
  }

  /** The sorted list is a reordering of the filtered one. For `priority` it is ordered
      by the rank as written, which puts `medium` first and leaves `high` and `low` in
      their filtered order among themselves; an unrecognised `sortBy` keeps the
      filtered order. */
  lemma SortedTasksSpec(filtered: seq<Record>, sortBy: string)
    ensures sortBy !in {"date", "title"} ==> SortedTasks(filtered, sortBy).Some?
    ensures sortBy !in {"date", "title"} ==> multiset(SortedTasks(filtered, sortBy).value) == multiset(filtered)
    ensures sortBy == "priority" ==> SortedBy(SortedTasks(filtered, sortBy).value, PriorityKeyAsWritten())
    ensures sortBy == "priority" ==> forall k ::
      Filter(SortedTasks(filtered, sortBy).value, WithKey(PriorityKeyAsWritten(), k))
        == Filter(filtered, WithKey(PriorityKeyAsWritten(), k))
    ensures sortBy !in {"date", "priority", "title"} ==> SortedTasks(filtered, sortBy) == Some(filtered)
  {
    if sortBy == "priority" {
      SortByKeySpec(filtered, PriorityKeyAsWritten());
    }
    if sortBy !in {"date", "priority", "title"} {
      SortByConstantKey(filtered, (t: Record) => 0, 0);
    }
  }
}
