/** JavaScript values as the guard, the message tables and record
    metadata see them. Numbers are integers here; objects are their own
    enumerable properties in `Object.keys` order. */
module Js {
  import opened Results
  import opened Strings

  datatype JsValue =
    | Undefined
    | Null
    | Bool(b: bool)
    | Num(n: int)
    | Str(s: string)
    | Arr(items: seq<JsValue>)
    | Obj(props: seq<Prop>)

  datatype Prop = Prop(key: string, value: JsValue)

  /** Names every plain object inherits from `Object.prototype`, so that
      `name in {}` is true for them. */
  const ObjectPrototypeMembers: set<string> := {
    "constructor", "hasOwnProperty", "isPrototypeOf", "propertyIsEnumerable",
    "toLocaleString", "toString", "valueOf", "__proto__",
    "__defineGetter__", "__defineSetter__", "__lookupGetter__", "__lookupSetter__"
  }

  /** `Boolean(v)`. */
  predicate Truthy(v: JsValue) {
    match v
    case Undefined => false
    case Null => false
    case Bool(b) => b
    case Num(n) => n != 0
    case Str(s) => s != ""
    case Arr(_) => true
    case Obj(_) => true
  }

  /** `typeof v === "object"`, which holds for `null` as well. */
  predicate IsObjectType(v: JsValue) {
    v.Null? || v.Arr? || v.Obj?
  }

  /** `v != null`, which is false for both `null` and `undefined`. */
  predicate IsPresent(v: JsValue) {
    !v.Null? && !v.Undefined?
  }

  /** A canonical array index key: digits without a leading zero. */
  function IndexKey(key: string): (r: Option<nat>)
    ensures r.Some? ==> NatToString(r.value) == key
  {
    if |key| >= 1 && (forall i :: 0 <= i < |key| ==> IsDigit(key[i])) && (|key| == 1 || key[0] != '0')
    then
      CanonicalDigits(key);
      Some(DigitsValue(key))
    else None
  }

  lemma {:induction false} CanonicalDigits(key: string)
    requires |key| >= 1
    requires forall i :: 0 <= i < |key| ==> IsDigit(key[i])
    requires |key| == 1 || key[0] != '0'
    ensures NatToString(DigitsValue(key)) == key
    decreases |key|
  {
    var n := DigitsValue(key);
    var last := key[|key| - 1];
    var d := last as int - '0' as int;
    if |key| == 1 {
      assert key[..|key| - 1] == [];
      assert DigitsValue(key[..|key| - 1]) == 0;
      assert n == d;
      assert NatToString(n) == [Digit(d)];
    } else {
      var init := key[..|key| - 1];
      CanonicalDigits(init);
      var m := DigitsValue(init);
      assert n == 10 * m + d;
      assert init[0] == key[0] != '0';
      assert NatToString(0) == "0";
      assert m >= 1;
      assert n / 10 == m && n % 10 == d;
      assert NatToString(n) == NatToString(m) + [Digit(d)];
      assert key == init + [last];
    }
  }

  /** The value of the first own property named `key`, if any. */
  function Own(props: seq<Prop>, key: string): (r: Option<JsValue>)
    ensures r.None? <==> forall i :: 0 <= i < |props| ==> props[i].key != key
    ensures r.Some? ==> exists i :: 0 <= i < |props| && props[i].key == key && props[i].value == r.value
  {
    if |props| == 0 then None
    else if props[0].key == key then Some(props[0].value)
    else Own(props[1..], key)
  }

  /** `key in v` for an object or array `v`. */
  predicate Has(v: JsValue, key: string)
    requires v.Obj? || v.Arr?
  {
    match v
    case Obj(props) => Own(props, key).Some? || key in ObjectPrototypeMembers
    case Arr(items) =>
      key == "length" || key in ObjectPrototypeMembers
      || (IndexKey(key).Some? && IndexKey(key).value < |items|)
  }

  /** `v[key]` for an own data property; inherited members and the
      properties of primitives read as `undefined` here. */
  function Get(v: JsValue, key: string): JsValue {
    match v
    case Obj(props) => (match Own(props, key) case Some(x) => x case None => Undefined)
    case Arr(items) =>
      if key == "length" then Num(|items|)
      else
        (match IndexKey(key)
         case Some(i) => if i < |items| then items[i] else Undefined
         case None => Undefined)
    case _ => Undefined
  }
}
