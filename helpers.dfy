/**
 * The utility helpers: display labels with a pass-through fallback, the e-mail and
 * password validators, the object trimmer, the session check on storage, and two
 * small string and object helpers.
 */
module Helpers {
  import opened Wrappers
  import opened Text
  import opened JsValue
  import opened WebStorage

  // ----- Labels -----

  const PRIORITY_LABELS: map<string, string> :=
    map["low" := "🟢 Baja", "medium" := "🟡 Media", "high" := "🔴 Alta"]

  const STATUS_LABELS: map<string, string> :=
    map["todo" := "📋 Por Hacer", "in-progress" := "⏳ En Progreso", "done" := "✅ Completado"]

  /** `table[v] || v`: the property name is `String(v)`. */
  function LabelOr(table: map<string, string>, v: Value): Value {
    var k := ToString(v);
    Or(if k in table then Str(table[k]) else Undefined, v)
  }

  /** `getPriorityLabel(priority)`. */
  function PriorityLabel(priority: Value): Value {
    LabelOr(PRIORITY_LABELS, priority)
  }

  /** `getStatusLabel(status)`. */
  function StatusLabel(status: Value): Value {
    LabelOr(STATUS_LABELS, status)
  }

  /** The three priorities get their labels and every other value comes back as it is. */
  lemma PriorityLabelCases(priority: Value)
    ensures PriorityLabel(Str("low")) == Str("🟢 Baja")
    ensures PriorityLabel(Str("medium")) == Str("🟡 Media")
    ensures PriorityLabel(Str("high")) == Str("🔴 Alta")
    ensures ToString(priority) !in {"low", "medium", "high"} ==> PriorityLabel(priority) == priority
  {
  }

  /** Only `todo`, `in-progress` and `done` get labels: the store's `inProgress` and any
      other status come back as they are. */
  lemma StatusLabelCases(status: Value)
    ensures StatusLabel(Str("todo")) == Str("📋 Por Hacer")
    ensures StatusLabel(Str("in-progress")) == Str("⏳ En Progreso")
    ensures StatusLabel(Str("done")) == Str("✅ Completado")
    ensures StatusLabel(Str("inProgress")) == Str("inProgress")
    ensures ToString(status) !in {"todo", "in-progress", "done"} ==> StatusLabel(status) == status
  {
  }

  // ----- E-mail -----

  /** A character the pattern class `[^\s@]` accepts. */
  predicate EmailChar(c: char) {
    c != '@' && !IsSpace(c)
  }

  /** Every character of `s` from `lo` up to `hi` is accepted by `[^\s@]`. */
  predicate EmailRun(s: string, lo: int, hi: int) {
    forall k :: lo <= k < hi && 0 <= k < |s| ==> EmailChar(s[k])
  }

  /** `s` splits as `a@b.c`, with the `@` at `i` and the `.` at `j`, and `a`, `b` and `c`
      non-empty runs of `[^\s@]`: a match of `/^[^\s@]+@[^\s@]+\.[^\s@]+$/`. */
  predicate EmailMatchAt(s: string, i: int, j: int) {
    && 0 < i && i + 1 < j && j + 1 < |s|
    && s[i] == '@' && s[j] == '.'
    && EmailRun(s, 0, i) && EmailRun(s, i + 1, j) && EmailRun(s, j + 1, |s|)
  }

  /** The e-mail rule: no white space, exactly one `@` with something before it, and a
      `.` after it that is neither the first nor the last character of the domain. */
  predicate IsValidEmailText(s: string) {
    && (forall k :: 0 <= k < |s| ==> !IsSpace(s[k]))
    && '@' in s
    && var i := IndexOf(s, '@');
      && i > 0
      && (forall k :: i < k < |s| ==> s[k] != '@')
      && (exists j :: i + 1 < j < |s| - 1 && s[j] == '.')
  }

  /** `isValidEmail(email)`: `test` converts its argument with `String`. */
  predicate IsValidEmail(email: Value) {
    IsValidEmailText(ToString(email))
  }

  lemma EmailRuleSound(s: string)
    requires IsValidEmailText(s)
    ensures exists i, j :: EmailMatchAt(s, i, j)
  {
    var i := IndexOf(s, '@');
    IndexOfFirst(s, '@');
    var j :| i + 1 < j < |s| - 1 && s[j] == '.';
    assert EmailMatchAt(s, i, j);
  }

  lemma EmailRuleComplete(s: string, i: int, j: int)
    requires EmailMatchAt(s, i, j)
    ensures IsValidEmailText(s)
  {
    assert s[i] == '@';
    IndexOfFirst(s, '@');
    assert IndexOf(s, '@') == i;
    assert forall k :: 0 <= k < |s| ==> k == i || k == j || EmailChar(s[k]);
  }

  /** The e-mail rule accepts exactly the strings the regular expression matches. */
  lemma EmailRuleMatchesPattern(s: string)
    ensures IsValidEmailText(s) <==> exists i, j :: EmailMatchAt(s, i, j)
  {
    if IsValidEmailText(s) {
      EmailRuleSound(s);
    }
    if exists i, j :: EmailMatchAt(s, i, j) {
      var i, j :| EmailMatchAt(s, i, j);
      EmailRuleComplete(s, i, j);
    }
  }

  /** An address of the usual shape is accepted. */
  lemma EmailAccepted()
    ensures IsValidEmailText("ana@mail.com")
  {
    EmailRuleComplete("ana@mail.com", 3, 8);
  }

  /** A domain without a dot is refused. */
  lemma EmailNeedsDot()
    ensures !IsValidEmailText("ana@mail")
  {
    IndexOfFirst("ana@mail", '@');
  }

  /** A missing local part is refused. */
  lemma EmailNeedsLocalPart()
    ensures !IsValidEmailText("@mail.com")
  {
  }

  /** A second `@` is refused. */
  lemma EmailNeedsOneAt()
    ensures !IsValidEmailText("ana@@mail.com")
  {
    var s := "ana@@mail.com";
    IndexOfFirst(s, '@');
    assert s[0] != '@' && s[1] != '@' && s[2] != '@' && s[3] == '@';
    assert IndexOf(s, '@') == 3;
    assert s[4] == '@';
  }

  // ----- Password -----

  /** `v >= n` for a number `v`; other values are not numbers and compare false here. */
  predicate AtLeast(v: Value, n: int) {
    v.Num? && v.n >= n
  }

  /** `isValidPassword(password)`: `password && password.length >= 6`, so a falsy
      password is returned as it is. */
  function IsValidPassword(password: Value): Value {
    if !Truthy(password) then password else Bool(AtLeast(Get(password, "length"), 6))
  }

  /** A string password is valid exactly when it has at least six UTF-16 code units;
      a missing one is not. */
  lemma PasswordRule(s: string)
    ensures Truthy(IsValidPassword(Str(s))) <==> Utf16Length(s) >= 6
    ensures !Truthy(IsValidPassword(Undefined)) && !Truthy(IsValidPassword(Null))
  {
  }

  // ----- Trimming -----

  /** The value stored for one key: strings trimmed, other values unchanged. */
  function TrimValue(v: Value): Value {
    if v.Str? then Str(Trim(v.s)) else v
  }

  /** The object `trimInputs(obj)` builds. */
  function Trimmed(obj: Record): Record {
    map k | k in obj :: TrimValue(obj[k])
  }

  /** `trimInputs(obj)`: a fresh object filled key by key. */
  method TrimInputs(obj: Record) returns (trimmed: Record)
    ensures trimmed == Trimmed(obj)
  {
    trimmed := map[];
    var keys := obj.Keys;
    while keys != {}
      invariant keys <= obj.Keys
      invariant trimmed == map k | k in obj.Keys - keys :: TrimValue(obj[k])
      decreases keys
    {
      var key :| key in keys;
      trimmed := trimmed[key := TrimValue(obj[key])];
      keys := keys - {key};
    }
  }

  /** The trimmed object has exactly the input's keys, its strings are trimmed and its
      other values kept, and trimming it again changes nothing. */
  lemma TrimmedSpec(obj: Record)
    ensures Trimmed(obj).Keys == obj.Keys
    ensures forall k :: k in obj && obj[k].Str? ==> Trimmed(obj)[k] == Str(Trim(obj[k].s))
    ensures forall k :: k in obj && !obj[k].Str? ==> Trimmed(obj)[k] == obj[k]
    ensures Trimmed(Trimmed(obj)) == Trimmed(obj)
  {
    forall k | k in obj && obj[k].Str? {
      TrimIdempotent(obj[k].s);
    }
  }

  // ----- Session check -----

  /** `isAuthenticated()`: a non-empty stored token; false when storage access throws. */
  function IsAuthenticated(st: Storage): bool
    reads st
  {
    match st.GetItem("token")
    case Ok(Some(token)) => token != "" && Utf16Length(token) > 0
    case _ => false
  }

  lemma IsAuthenticatedIff(st: Storage)
    ensures IsAuthenticated(st) <==> st.available && "token" in st.items && st.items["token"] != ""
  {
  }

  // ----- Strings and objects -----

  /** `capitalizeFirstLetter(s)`: `s.charAt(0).toUpperCase() + s.slice(1)`. */
  function CapitalizeFirstLetter(s: string): string {
    if s == "" then "" else [UpperChar(s[0])] + s[1..]
  }

  /** Only the first character changes; the empty string maps to itself; a second
      application changes nothing. */
  lemma CapitalizeSpec(s: string)
    ensures |CapitalizeFirstLetter(s)| == |s|
    ensures s != "" ==> CapitalizeFirstLetter(s)[0] == UpperChar(s[0])
    ensures s != "" ==> CapitalizeFirstLetter(s)[1..] == s[1..]
    ensures CapitalizeFirstLetter("") == ""
    ensures CapitalizeFirstLetter(CapitalizeFirstLetter(s)) == CapitalizeFirstLetter(s)
  {
    if s != "" {
      var c := CapitalizeFirstLetter(s);
      assert c[1..] == s[1..];
      assert UpperChar(UpperChar(s[0])) == UpperChar(s[0]);
    }
  }

  /** `isEmpty(obj)`: `Object.keys(obj).length === 0`. */
  predicate IsEmpty(obj: Record) {
    |obj.Keys| == 0
  }

  lemma IsEmptyIff(obj: Record)
    ensures IsEmpty(obj) <==> obj == map[]
  {
    if IsEmpty(obj) {
      assert obj.Keys == {};
    }
  }
}
