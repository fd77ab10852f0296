/** The message tables of `UploadedFilesProvider`: `flattenMessages`,
    which turns a nested table into dotted keys, and the locale lookup
    `getTranslation`. The tables themselves (the JSON files for "en" and
    "de") are parameters. */
module Translations {
  import opened Results
  import opened Strings
  import opened Js

  const DefaultLocale := "en"

  /** The locale handed to the intl provider: `locale ?? defaultLocale`. */
  function ProviderLocale(locale: Option<string>): (r: string)
    ensures locale.None? ==> r == DefaultLocale
    ensures locale.Some? ==> r == locale.value
  {
    locale.GetOr(DefaultLocale)
  }

  /** How many keys `Object.keys(v)` lists. */
  function Width(v: JsValue): nat {
    match v
    case Obj(props) => |props|
    case Arr(items) => |items|
    case Str(s) => |s|
    case _ => 0
  }

  /** `prefix ? prefix + "." + key : key`. */
  function PrefixedKey(prefix: string, key: string): string {
    if prefix != "" then prefix + "." + key else key
  }

  /** `flattenMessages(v, prefix)`; `None` when `Object.keys` throws,
      which it does on a nested `null`. */
  function Flatten(v: JsValue, prefix: string): Option<map<string, string>>
    decreases v, Width(v) + 1
  {
    FlattenFirst(v, prefix, Width(v))
  }

  /** The accumulator of the `reduce` after its first `n` keys. */
  function FlattenFirst(v: JsValue, prefix: string, n: nat): Option<map<string, string>>
    requires n <= Width(v)
    decreases v, n
  {
    if v.Null? || v.Undefined? then None
    else if n == 0 then Some(map[])
    else
      match FlattenFirst(v, prefix, n - 1)
      case None => None
      case Some(acc) =>
        match v
        case Obj(props) =>
          var key := PrefixedKey(prefix, props[n - 1].key);
          var value := props[n - 1].value;
          Store(acc, key, value, if value.Str? then Some(map[]) else Flatten(value, key))
        case Arr(items) =>
          var key := PrefixedKey(prefix, NatToString(n - 1));
          var value := items[n - 1];
          Store(acc, key, value, if value.Str? then Some(map[]) else Flatten(value, key))
        case Str(s) =>
          Some(acc[PrefixedKey(prefix, NatToString(n - 1)) := [s[n - 1]]])
  }

  /** One step of the `reduce`: a string is stored under its key, any
      other value is flattened and merged in with `Object.assign`. */
  function Store(acc: map<string, string>, key: string, value: JsValue, nested: Option<map<string, string>>)
    : (r: Option<map<string, string>>)
    ensures value.Str? ==> r == Some(acc[key := value.s])
    ensures !value.Str? && nested.Some? ==> r == Some(acc + nested.value)
    ensures !value.Str? && nested.None? ==> r.None?
  {
    if value.Str? then Some(acc[key := value.s])
    else if nested.None? then None
    else Some(acc + nested.value)
  }

  /** Adding a key at the end does not change what the earlier keys
      contributed. */
  lemma {:induction false} FlattenFirstOfExtension(props: seq<Prop>, p: Prop, prefix: string, n: nat)
    requires n <= |props|
    ensures FlattenFirst(Obj(props + [p]), prefix, n) == FlattenFirst(Obj(props), prefix, n)
    decreases n
  {
    if n > 0 {
      FlattenFirstOfExtension(props, p, prefix, n - 1);
      assert (props + [p])[n - 1] == props[n - 1];
    }
  }

  /** A string value is kept under its (prefixed) key, overriding any
      earlier entry with the same key. */
  lemma StringEntryStored(props: seq<Prop>, key: string, s: string, prefix: string)
    requires Flatten(Obj(props), prefix).Some?
    ensures Flatten(Obj(props + [Prop(key, Str(s))]), prefix)
         == Some(Flatten(Obj(props), prefix).value[PrefixedKey(prefix, key) := s])
  {
    FlattenFirstOfExtension(props, Prop(key, Str(s)), prefix, |props|);
    assert (props + [Prop(key, Str(s))])[|props|] == Prop(key, Str(s));
  }

  /** A nested table is flattened under the dotted path of its key and
      merged in, its entries overriding earlier ones. */
  lemma NestedEntryMerged(props: seq<Prop>, key: string, inner: JsValue, prefix: string)
    requires !inner.Str?
    requires Flatten(Obj(props), prefix).Some?
    requires Flatten(inner, PrefixedKey(prefix, key)).Some?
    ensures Flatten(Obj(props + [Prop(key, inner)]), prefix)
         == Some(Flatten(Obj(props), prefix).value + Flatten(inner, PrefixedKey(prefix, key)).value)
  {
    FlattenFirstOfExtension(props, Prop(key, inner), prefix, |props|);
    assert (props + [Prop(key, inner)])[|props|] == Prop(key, inner);
  }

  /** A nested `null` makes `Object.keys` throw. */
  lemma NestedNullThrows(props: seq<Prop>, key: string, prefix: string)
    ensures Flatten(Obj(props + [Prop(key, Null)]), prefix).None?
  {
    FlattenFirstOfExtension(props, Prop(key, Null), prefix, |props|);
    assert (props + [Prop(key, Null)])[|props|] == Prop(key, Null);
    assert Flatten(Null, PrefixedKey(prefix, key)).None?;
  }

  /** Under a non-empty prefix every produced key is that prefix followed
      by a dot. */
  lemma {:induction false} KeysCarryPrefix(v: JsValue, prefix: string)
    requires prefix != ""
    requires Flatten(v, prefix).Some?
    ensures forall k :: k in Flatten(v, prefix).value ==> StartsWithPath(k, prefix)
    decreases v, Width(v) + 1
  {
    KeysCarryPrefixFirst(v, prefix, Width(v));
  }

  predicate StartsWithPath(k: string, prefix: string) {
    |k| > |prefix| && k[..|prefix| + 1] == prefix + "."
  }

  lemma {:induction false} KeysCarryPrefixFirst(v: JsValue, prefix: string, n: nat)
    requires prefix != ""
    requires n <= Width(v)
    requires FlattenFirst(v, prefix, n).Some?
    ensures forall k :: k in FlattenFirst(v, prefix, n).value ==> StartsWithPath(k, prefix)
    decreases v, n
  {
    if n > 0 {
      KeysCarryPrefixFirst(v, prefix, n - 1);
      match v {
        case Obj(props) =>
          var key := PrefixedKey(prefix, props[n - 1].key);
          PathOfChild(prefix, props[n - 1].key);
          var value := props[n - 1].value;
          if !value.Str? {
            KeysCarryPrefix(value, key);
            NestedPath(prefix, props[n - 1].key, Flatten(value, key).value);
          }
        case Arr(items) =>
          var key := PrefixedKey(prefix, NatToString(n - 1));
          PathOfChild(prefix, NatToString(n - 1));
          var value := items[n - 1];
          if !value.Str? {
            KeysCarryPrefix(value, key);
            NestedPath(prefix, NatToString(n - 1), Flatten(value, key).value);
          }
        case Str(s) =>
          PathOfChild(prefix, NatToString(n - 1));
      }
    }
  }

  lemma PathOfChild(prefix: string, key: string)
    requires prefix != ""
    ensures StartsWithPath(PrefixedKey(prefix, key), prefix)
  {
    assert (prefix + "." + key)[..|prefix| + 1] == prefix + ".";
  }

  lemma NestedPath(prefix: string, key: string, m: map<string, string>)
    requires prefix != ""
    requires forall k :: k in m ==> StartsWithPath(k, PrefixedKey(prefix, key))
    ensures forall k :: k in m ==> StartsWithPath(k, prefix)
  {
    forall k | k in m
      ensures StartsWithPath(k, prefix)
    {
      var p := PrefixedKey(prefix, key);
      assert k[..|p| + 1] == p + ".";
      assert k[..|prefix| + 1] == k[..|p| + 1][..|prefix| + 1];
      assert (prefix + "." + key + ".")[..|prefix| + 1] == prefix + ".";
    }
  }

  /** A worked case: `{ a: { b: "x" }, c: "y" }` flattens to
      `{ "a.b": "x", c: "y" }`. */
  lemma FlattenExample()
    ensures Flatten(Obj([Prop("a", Obj([Prop("b", Str("x"))])), Prop("c", Str("y"))]), "")
         == Some(map["a.b" := "x", "c" := "y"])
  {
    var inner := Obj([Prop("b", Str("x"))]);
    assert PrefixedKey("a", "b") == "a.b";
    assert FlattenFirst(inner, "a", 0) == Some(map[]);
    assert FlattenFirst(inner, "a", 1) == Some(map["a.b" := "x"]);
    assert Flatten(inner, "a") == Some(map["a.b" := "x"]);
    assert Flatten(Obj([]), "") == Some(map[]);
    assert PrefixedKey("", "a") == "a" && PrefixedKey("", "c") == "c";
    NestedEntryMerged([], "a", inner, "");
    assert [Prop("a", inner)] == [] + [Prop("a", inner)];
    assert map[] + map["a.b" := "x"] == map["a.b" := "x"];
    assert Flatten(Obj([Prop("a", inner)]), "") == Some(map["a.b" := "x"]);
    StringEntryStored([Prop("a", inner)], "c", "y", "");
    assert [Prop("a", inner), Prop("c", Str("y"))] == [Prop("a", inner)] + [Prop("c", Str("y"))];
    assert map["a.b" := "x"]["c" := "y"] == map["a.b" := "x", "c" := "y"];
  }

  const KnownLocales: set<string> := {"de", "en"}

  /** `getTranslation(locale)` as written: `locale in translations` also
      holds for every member `translations` inherits from
      `Object.prototype`; the value found then is a function (or
      `Object.prototype` itself), which has no enumerable keys and so
      behaves as `{}` from here on. */
  function GetTranslationAsWritten(locale: Option<string>, en: JsValue, de: JsValue): (r: JsValue)
    ensures locale.Some? && locale.value in ObjectPrototypeMembers ==> r == Obj([])
  {
    match locale
    case None => en
    case Some(l) =>
      if l == "" || !(l in KnownLocales || l in ObjectPrototypeMembers) then en
      else if l == "en" then en
      else if l == "de" then de
      else Obj([])
  }

  /** The name of an inherited member gets no messages at all. */
  lemma InheritedLocaleLosesMessages(en: JsValue, de: JsValue)
    ensures GetTranslationAsWritten(Some("toString"), en, de) == Obj([])
    ensures Flatten(GetTranslationAsWritten(Some("toString"), en, de), "") == Some(map[])
  {
  }

  /** `getTranslation(locale)` with the own-key test the fallback is meant
      to perform: a missing, empty or unknown locale yields the "en" table. */
  function GetTranslation(locale: Option<string>, en: JsValue, de: JsValue): (r: JsValue)
    ensures locale.None? || locale.value !in KnownLocales ==> r == en
    ensures locale == Some("en") ==> r == en
    ensures locale == Some("de") ==> r == de
  {
    match locale
    case None => en
    case Some(l) => if l == "de" then de else en
  }

  /** The corrected lookup only ever yields one of the two tables, so an
      inherited name falls back to "en" like any other unknown locale. */
  lemma TranslationIsATable(locale: Option<string>, en: JsValue, de: JsValue)
    ensures GetTranslation(locale, en, de) in {en, de}
    ensures GetTranslation(Some("toString"), en, de) == en
  {
  }

  /** The messages the provider hands to the intl layer. */
  function Messages(locale: Option<string>, en: JsValue, de: JsValue): Option<map<string, string>> {
    Flatten(GetTranslation(locale, en, de), "")
  }
}
