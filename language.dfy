/** The interface language: its initial choice, the switch restricted to the supported
    languages, its persistence, and the translation lookup `t`. */
module Language {
  import opened Wrappers
  import opened Text
  import opened JsValue
  import opened WebStorage

  const STORAGE_KEY: string := "appLanguage"

  /** `['es', 'en'].includes(lang)`. */
  predicate Supported(lang: string) {
    lang == "es" || lang == "en"
  }

  /** The initial language from the saved value and the browser's language tag: the
      saved value when it is supported, else the tag's primary subtag when that is
      supported, else `es`. */
  function InitialLanguage(saved: Option<string>, browserLanguage: string): (lang: string)
    ensures Supported(lang)
  {
    if saved.Some? && saved.value != "" && Supported(saved.value) then saved.value
    else
      var prefix := Split(browserLanguage, '-')[0];
      if Supported(prefix) then prefix else "es"
  }

  /** A supported saved value wins; otherwise the part of the tag before its first `-`
      decides when it is supported. */
  lemma InitialLanguageSpec(saved: Option<string>, browserLanguage: string)
    ensures saved.Some? && Supported(saved.value) ==> InitialLanguage(saved, browserLanguage) == saved.value
    ensures !(saved.Some? && Supported(saved.value)) && '-' in browserLanguage ==>
      var prefix := browserLanguage[..IndexOf(browserLanguage, '-')];
      InitialLanguage(saved, browserLanguage) == if Supported(prefix) then prefix else "es"
    ensures !(saved.Some? && Supported(saved.value)) && '-' !in browserLanguage ==>
      InitialLanguage(saved, browserLanguage) == if Supported(browserLanguage) then browserLanguage else "es"
  {
    SplitFirst(browserLanguage, '-');
  }

  /** A regional English browser starts in English. */
  lemma BrowserPrefixChosen()
    ensures InitialLanguage(None, "en-US") == "en"
  {
    SplitCons("en", '-', "US");
    assert "en" + ['-'] + "US" == "en-US";
  }

  /** An unsupported saved value and browser language fall back to Spanish. */
  lemma UnsupportedFallsBack()
    ensures InitialLanguage(Some("fr"), "fr-FR") == "es"
  {
    SplitCons("fr", '-', "FR");
    assert "fr" + ['-'] + "FR" == "fr-FR";
  }

  /** The walk of `t` along the key's segments: `None` when a value that is not a
      truthy object is reached while segments remain, else the value found. */
  function Walk(v: Value, keys: seq<string>): Option<Value>
    decreases |keys|
  {
    if keys == [] then Some(v)
    else if Truthy(v) && IsObjectType(v) then Walk(Get(v, keys[0]), keys[1..])
    else None
  }

  /** A walk along two paths is the walk along the second from where the first ends. */
  lemma {:induction false} WalkAppend(v: Value, a: seq<string>, b: seq<string>)
    ensures Walk(v, a + b) == match Walk(v, a) case None => None case Some(w) => Walk(w, b)
    decreases |a|
  {
    if a != [] {
      assert a + b != [];
      assert (a + b)[0] == a[0];
      assert (a + b)[1..] == a[1..] + b;
      if Truthy(v) && IsObjectType(v) {
        WalkAppend(Get(v, a[0]), a[1..], b);
      }
    } else {
      assert a + b == b;
    }
  }

  /** The default `t` falls back to: the key itself when none is given. */
  function DefaultFor(key: string, defaultValue: Value): Value {
    if defaultValue.Undefined? then Str(key) else defaultValue
  }

  /** `t(key, defaultValue)` on the table of the current language. */
  function Translate(table: Value, key: string, defaultValue: Value): Value {
    match Walk(table, Split(key, '.'))
    case None => DefaultFor(key, defaultValue)
    case Some(v) => Or(v, DefaultFor(key, defaultValue))
  }

  /** The lookup returns the default unless the walk ends on a truthy value, which it
      returns; a dotted key looks its rest up in the entry its first segment names; with
      no default given, a missing entry comes back as the key. */
  lemma TranslateSpec(table: Value, key: string, defaultValue: Value)
    ensures Translate(table, key, defaultValue) == DefaultFor(key, defaultValue) ||
      (Walk(table, Split(key, '.')).Some? && Truthy(Walk(table, Split(key, '.')).value)
       && Translate(table, key, defaultValue) == Walk(table, Split(key, '.')).value)
    ensures !(Truthy(table) && IsObjectType(table)) ==> Translate(table, key, defaultValue) == DefaultFor(key, defaultValue)
    ensures key != "" && defaultValue.Undefined? ==> Truthy(Translate(table, key, defaultValue))
  {
  }

  /** A key `first.rest` resolves in the entry named by `first`. */
  lemma TranslateNested(table: Value, first: string, rest: string, defaultValue: Value)
    requires '.' !in first
    requires Truthy(table) && IsObjectType(table)
    ensures Translate(table, first + "." + rest, defaultValue) ==
      match Walk(Get(table, first), Split(rest, '.'))
      case None => DefaultFor(first + "." + rest, defaultValue)
      case Some(v) => Or(v, DefaultFor(first + "." + rest, defaultValue))
  {
    SplitCons(first, '.', rest);
    WalkAppend(table, [first], Split(rest, '.'));
  }

  class LanguageState {
    var language: string

    predicate Valid()
      reads this
    {
      Supported(language)
    }

    /** The state initialiser, given the saved value and `navigator.language`. */
    constructor (saved: Option<string>, browserLanguage: string)
      ensures Valid()
      ensures language == InitialLanguage(saved, browserLanguage)
    {
      language := InitialLanguage(saved, browserLanguage);
    }

    /** `switchLanguage(lang)`: only a supported language is taken. */
    method SwitchLanguage(lang: string)
      requires Valid()
      modifies this
      ensures Valid()
      ensures language == if Supported(lang) then lang else old(language)
    {
      if Supported(lang) {
        language := lang;
      }
    }

    /** The effect that saves the language; a blocked storage throws. */
    method Persist(st: Storage) returns (r: Result<(), Exception>)
      modifies st
      ensures st.available == old(st.available)
      ensures old(st.available) ==> r == Ok(()) && st.items == old(st.items)[STORAGE_KEY := language]
      ensures !old(st.available) ==> r == Err(StorageUnavailable) && st.items == old(st.items)
    {
      r := st.SetItem(STORAGE_KEY, language);
    }

    /** `t(key, defaultValue)`: walks the segments of the key one at a time. */
    method T(translations: Record, key: string, defaultValue: Value) returns (r: Value)
      ensures r == Translate(Field(translations, language), key, defaultValue)
    {
      var fallback := if defaultValue.Undefined? then Str(key) else defaultValue;
      var keys := Split(key, '.');
      var value := Field(translations, language);
      var i := 0;
      while i < |keys|
        invariant 0 <= i <= |keys|
        invariant Walk(Field(translations, language), keys) == Walk(value, keys[i..])
      {
        if Truthy(value) && IsObjectType(value) {
          value := Get(value, keys[i]);
        } else {
          return fallback;
        }
        i := i + 1;
      }
      r := Or(value, fallback);
    }
  }
}
