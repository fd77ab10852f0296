/** Typed add-file errors (`FileDropErrorType`, `FileDropError`) and the
    `isFileDropError` type guard over arbitrary JavaScript values. */
module DropErrors {
  import opened Results
  import opened Js

  /** The enum's members; `OverSizeLimit` is the member named `MAXSIZE`. */
  datatype DropErrorType = InvalidFile | OverSizeLimit | MultipleNotAllowed | MaxFilesNumber

  /** The string value of each enum member. */
  function Value(k: DropErrorType): string {
    match k
    case InvalidFile => "INVALID_FILE"
    case OverSizeLimit => "OVER_SIZE_LIMIT"
    case MultipleNotAllowed => "MULTIPLE_NOT_ALLOWED"
    case MaxFilesNumber => "MAX_FILES_NUMBER"
  }

  /** `Object.values(FileDropErrorType)`. */
  const EnumValues: seq<string> := ["INVALID_FILE", "OVER_SIZE_LIMIT", "MULTIPLE_NOT_ALLOWED", "MAX_FILES_NUMBER"]

  /** The member whose value is `s`, if any. */
  function Parse(s: string): (r: Option<DropErrorType>)
    ensures r.Some? ==> Value(r.value) == s
    ensures r.None? ==> forall k: DropErrorType :: Value(k) != s
  {
    if s == "INVALID_FILE" then Some(InvalidFile)
    else if s == "OVER_SIZE_LIMIT" then Some(OverSizeLimit)
    else if s == "MULTIPLE_NOT_ALLOWED" then Some(MultipleNotAllowed)
    else if s == "MAX_FILES_NUMBER" then Some(MaxFilesNumber)
    else None
  }

  lemma ParseValue(k: DropErrorType)
    ensures Parse(Value(k)) == Some(k)
    ensures Value(k) in EnumValues
  {
  }

  /** `{ error: { type, text } }` as the manager builds it. */
  datatype DropError = DropError(kind: DropErrorType, text: string)

  function ToJs(e: DropError): JsValue {
    Obj([Prop("error", Obj([Prop("type", Str(Value(e.kind))), Prop("text", Str(e.text))]))])
  }

  /** `isFileDropError(error)`, one conjunct per check of the guard. */
  predicate IsFileDropError(v: JsValue) {
    && IsPresent(v)
    && IsObjectType(v)
    && Has(v, "error")
    && IsPresent(Get(v, "error"))
    && IsObjectType(Get(v, "error"))
    && Has(Get(v, "error"), "text")
    && Get(Get(v, "error"), "text").Str?
    && Has(Get(v, "error"), "type")
    && Get(Get(v, "error"), "type") in EnumValueStrings()
  }

  /** The enum values as JavaScript strings; `includes` compares by value,
      so nothing that is not one of these strings is accepted. */
  function EnumValueStrings(): seq<JsValue> {
    seq(|EnumValues|, i requires 0 <= i < |EnumValues| => Str(EnumValues[i]))
  }

  /** Reading a `FileDropError` back out of a value: the reference
      definition the guard is compared against. */
  function Decode(v: JsValue): (r: Option<DropError>)
    ensures r.Some? ==> && (v.Obj? || v.Arr?)
                        && Get(Get(v, "error"), "text") == Str(r.value.text)
                        && Get(Get(v, "error"), "type") == Str(Value(r.value.kind))
  {
    if !(v.Obj? || v.Arr?) then None
    else
      var inner := Get(v, "error");
      if !(inner.Obj? || inner.Arr?) then None
      else
        var text := Get(inner, "text");
        var kind := Get(inner, "type");
        if text.Str? && kind.Str? && Parse(kind.s).Some?
        then Some(DropError(Parse(kind.s).value, text.s))
        else None
  }

  lemma GetImpliesHas(v: JsValue, key: string)
    requires v.Obj? || v.Arr?
    requires Get(v, key) != Undefined
    ensures Has(v, key)
  {
  }

  /** Every error the manager builds passes the guard and reads back as
      itself. */
  lemma BuiltErrorsPass(e: DropError)
    ensures IsFileDropError(ToJs(e))
    ensures Decode(ToJs(e)) == Some(e)
  {
    var inner := Obj([Prop("type", Str(Value(e.kind))), Prop("text", Str(e.text))]);
    assert Get(ToJs(e), "error") == inner;
    assert "type" != "text";
    assert inner.props[1..] == [Prop("text", Str(e.text))];
    assert Own(inner.props[1..], "text") == Some(Str(e.text));
    assert Own(inner.props, "text") == Some(Str(e.text));
    assert Get(inner, "text") == Str(e.text);
    assert Get(inner, "type") == Str(Value(e.kind));
    ParseValue(e.kind);
    assert EnumValueStrings()[KindIndex(e.kind)] == Str(Value(e.kind));
  }

  function KindIndex(k: DropErrorType): (i: nat)
    ensures i < |EnumValues| && EnumValues[i] == Value(k)
  {
    match k
    case InvalidFile => 0
    case OverSizeLimit => 1
    case MultipleNotAllowed => 2
    case MaxFilesNumber => 3
  }

  /** The guard accepts exactly the values that decode. */
  lemma GuardIsDecodable(v: JsValue)
    ensures IsFileDropError(v) <==> Decode(v).Some?
  {
    if v.Obj? || v.Arr? {
      var inner := Get(v, "error");
      if inner.Obj? || inner.Arr? {
        GetImpliesHas(v, "error");
        var kind := Get(inner, "type");
        if kind in EnumValueStrings() {
          var i :| 0 <= i < |EnumValues| && EnumValueStrings()[i] == kind;
          assert kind == Str(EnumValues[i]);
        }
        if kind.Str? && Parse(kind.s).Some? {
          var k := Parse(kind.s).value;
          assert EnumValueStrings()[KindIndex(k)] == kind;
          GetImpliesHas(inner, "type");
        }
        if Get(inner, "text").Str? {
          GetImpliesHas(inner, "text");
        }
      }
    }
  }

  /** Primitives, `null` and `undefined` are rejected at once. */
  lemma RejectsNonObjects(v: JsValue)
    requires !(v.Obj? || v.Arr?)
    ensures !IsFileDropError(v)
  {
  }

  /** An `error` field that is `null` or a primitive is rejected. */
  lemma RejectsNonObjectInner(inner: JsValue, rest: seq<Prop>)
    requires !(inner.Obj? || inner.Arr?)
    ensures !IsFileDropError(Obj([Prop("error", inner)] + rest))
  {
    assert Get(Obj([Prop("error", inner)] + rest), "error") == inner;
  }

  /** A text that is not a string is rejected. */
  lemma RejectsNonStringText(text: JsValue, kind: DropErrorType)
    requires !text.Str?
    ensures !IsFileDropError(Obj([Prop("error", Obj([Prop("type", Str(Value(kind))), Prop("text", text)]))]))
  {
    var inner := Obj([Prop("type", Str(Value(kind))), Prop("text", text)]);
    assert Get(Obj([Prop("error", inner)]), "error") == inner;
    assert "type" != "text";
    assert inner.props[1..] == [Prop("text", text)];
    assert Own(inner.props[1..], "text") == Some(text);
    assert Own(inner.props, "text") == Some(text);
    assert Get(inner, "text") == text;
  }

  /** The enum KEY "MAXSIZE" is not one of its values. */
  lemma RejectsMaxSizeKey(text: string)
    ensures !IsFileDropError(Obj([Prop("error", Obj([Prop("type", Str("MAXSIZE")), Prop("text", Str(text))]))]))
  {
    var v := Obj([Prop("error", Obj([Prop("type", Str("MAXSIZE")), Prop("text", Str(text))]))]);
    GuardIsDecodable(v);
    assert Parse("MAXSIZE").None?;
  }
}
