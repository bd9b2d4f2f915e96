/**
 * The alternative draft of the validators (src/validators/mod.rs): the same schema
 * records validated with first-draft errors throughout. Compared with the schemas'
 * own validators it uses "string.custom" with the validator's message, "string.required"
 * and "string.invalid_type", reads no override for numbers, arrays or objects, rejects
 * null booleans even when optional, has no unknown-field check, and its
 * `validate_schema_type` has no arm for unions.
 */
module DraftValidators {

  import opened Wrappers
  import opened Text
  import opened Json
  import opened Errors
  import opened SchemaBase
  import StringSchemas
  import NumberSchemas
  import BooleanSchemas
  import Schemas

  /** The schemas the draft's `validate_schema_type` can reach: no union anywhere inside. */
  ghost predicate UnionFree(s: Schemas.Schema)
    decreases s
  {
    match s
    case Union(_) => false
    case Array(a) => UnionFree(a.item)
    case Object(o) => forall f :: f in o.fields ==> UnionFree(f.1)
    case _ => true
  }

  // ---- strings ----

  function TooShort(s: StringSchemas.StringSchema, len: nat, min: usize): (e: ValidationError)
    ensures e.code == "string.too_short" && e.path == "" && e.details == NoDetails.(minLength := Some(min))
  {
    var text := "String length " + NatToString(len) + " is less than minimum " + NatToString(min);
    WithMinLength(WithMessage(New("string.too_short", ""), MessageOr(s.messages, "string.too_short", text)), min)
  }

  function TooLong(s: StringSchemas.StringSchema, len: nat, max: usize): (e: ValidationError)
    ensures e.code == "string.too_long" && e.path == "" && e.details == NoDetails.(maxLength := Some(max))
  {
    var text := "String length " + NatToString(len) + " is greater than maximum " + NatToString(max);
    WithMaxLength(WithMessage(New("string.too_long", ""), MessageOr(s.messages, "string.too_long", text)), max)
  }

  function PatternMismatch(s: StringSchemas.StringSchema, p: string): (e: ValidationError)
    ensures e.code == "string.pattern" && e.path == "" && e.details == NoDetails.(pattern := Some(p))
  {
    WithPattern(WithMessage(New("string.pattern", ""),
                            MessageOr(s.messages, "string.pattern", "String does not match pattern")), p)
  }

  function InvalidEmail(s: StringSchemas.StringSchema): (e: ValidationError)
    ensures e.code == "string.email" && e.path == "" && e.details == NoDetails
  {
    WithMessage(New("string.email", ""), MessageOr(s.messages, "string.email", "Invalid email format"))
  }

  /** A custom validator's rejection keeps the validator's own message. */
  function Rejected(message: string): (e: ValidationError)
    ensures e.code == "string.custom" && e.path == "" && e.details == NoDetails && e.message == Some(message)
  {
    WithMessage(New("string.custom", ""), message)
  }

  function StringRequired(s: StringSchemas.StringSchema): (e: ValidationError)
    ensures e.code == "string.required" && e.path == "" && e.details == NoDetails
  {
    WithMessage(New("string.required", ""), MessageOr(s.messages, "string.required", "This field is required"))
  }

  function StringInvalidType(s: StringSchemas.StringSchema, v: Value): (e: ValidationError)
    ensures e.code == "string.invalid_type" && e.path == ""
    ensures e.details == NoDetails.(expected := Some("string"), actual := Some(TypeName(v)))
  {
    WithTypeInfo(WithMessage(New("string.invalid_type", ""),
                             MessageOr(s.messages, "string.invalid_type", "Expected string, got " + TypeName(v))),
                 "string", TypeName(v))
  }

  function CheckString(ext: Externals, s: StringSchemas.StringSchema, t: string): Option<ValidationError> {
    if s.minLength.Some? && ByteLen(t) < s.minLength.value then Some(TooShort(s, ByteLen(t), s.minLength.value))
    else if s.maxLength.Some? && ByteLen(t) > s.maxLength.value then Some(TooLong(s, ByteLen(t), s.maxLength.value))
    else if s.pattern.Some? && !ext.matches(s.pattern.value, t) then Some(PatternMismatch(s, s.pattern.value))
    else if s.email && !ext.matches(StringSchemas.EmailPattern, t) then Some(InvalidEmail(s))
    else
      var rejection := StringSchemas.FirstRejection(s.custom, t);
      if rejection.Some? then Some(Rejected(rejection.value)) else None
  }

  /** `impl Schema for StringSchema` of this draft. */
  function ValidateString(ext: Externals, s: StringSchemas.StringSchema, v: Value): Schemas.Outcome {
    match v
    case Null => if s.optional then Ok(v) else Err(StringRequired(s))
    case Str(t) =>
      var failure := CheckString(ext, s, t);
      if failure.Some? then Err(failure.value) else Ok(v)
    case _ => Err(StringInvalidType(s, v))
  }

  // ---- numbers: fixed messages, no override ----

  function Unparsable(): (e: ValidationError)
    ensures e.code == "number.invalid_type" && e.path == ""
    ensures e.details == NoDetails.(expected := Some("number"), actual := Some("string (not a valid number)"))
  {
    WithTypeInfo(WithMessage(New("number.invalid_type", ""), "Could not parse string as number"),
                 "number", "string (not a valid number)")
  }

  function NumberRequired(): (e: ValidationError)
    ensures e.code == "number.required" && e.path == "" && e.details == NoDetails
  {
    WithMessage(New("number.required", ""), "This field is required")
  }

  function NumberInvalidType(v: Value): (e: ValidationError)
    ensures e.code == "number.invalid_type" && e.path == ""
    ensures e.details == NoDetails.(expected := Some("number"), actual := Some(TypeName(v)))
  {
    WithTypeInfo(WithMessage(New("number.invalid_type", ""), "Expected number, got " + TypeName(v)), "number", TypeName(v))
  }

  function NotInteger(): (e: ValidationError)
    ensures e.code == "number.integer" && e.path == "" && e.details == NoDetails
  {
    WithMessage(New("number.integer", ""), "Expected integer value")
  }

  function TooSmall(ext: Externals, x: real, min: real): (e: ValidationError)
    ensures e.code == "number.min" && e.path == "" && e.details == NoDetails.(min := Some(F64ToI64(min)))
  {
    WithMin(WithMessage(New("number.min", ""),
                        "Value " + ext.showNumber(x) + " is less than minimum " + ext.showNumber(min)), F64ToI64(min))
  }

  function TooLarge(ext: Externals, x: real, max: real): (e: ValidationError)
    ensures e.code == "number.max" && e.path == "" && e.details == NoDetails.(max := Some(F64ToI64(max)))
  {
    WithMax(WithMessage(New("number.max", ""),
                        "Value " + ext.showNumber(x) + " is greater than maximum " + ext.showNumber(max)), F64ToI64(max))
  }

  /** The checks after the number has been read: integer, then minimum, then maximum. */
  function CheckNumber(ext: Externals, n: NumberSchemas.NumberSchema, x: real): Schemas.Outcome {
    if n.integer && NumberSchemas.HasFraction(x) then Err(NotInteger())
    else if n.min.Some? && x < n.min.value then Err(TooSmall(ext, x, n.min.value))
    else if n.max.Some? && x > n.max.value then Err(TooLarge(ext, x, n.max.value))
    else Ok(Num(Float(x)))
  }

  /** `impl Schema for NumberSchema` of this draft: the match that reads the number, then the checks. */
  function ValidateNumber(ext: Externals, n: NumberSchemas.NumberSchema, v: Value): Schemas.Outcome {
    match v
    case Num(x) => CheckNumber(ext, n, AsF64(x))
    case Str(t) =>
      if n.coerce then
        var parsed := ext.parseF64(t);
        if parsed.Some? then CheckNumber(ext, n, parsed.value) else Err(Unparsable())
      else Err(NumberInvalidType(v))
    case Null => if n.optional then Ok(v) else Err(NumberRequired())
    case _ => Err(NumberInvalidType(v))
  }

  // ---- booleans: no optional handling ----

  /** `impl Schema for BooleanSchema` of this draft: a boolean or "boolean.invalid_type", null included. */
  function ValidateBoolean(v: Value): (r: Schemas.Outcome)
    ensures r.Ok? <==> v.Bool?
    ensures r.Ok? ==> r.value == v
    ensures r.Err? ==> r.error.code == "boolean.invalid_type" && r.error.details.actual == Some(TypeName(v))
  {
    if v.Bool? then Ok(v)
    else Err(WithTypeInfo(WithMessage(New("boolean.invalid_type", ""), "Expected boolean, got " + TypeName(v)),
                          "boolean", TypeName(v)))
  }

  // ---- arrays and objects ----

  function MinItemsError(len: nat, min: usize): (e: ValidationError)
    ensures e.code == "array.min_items" && e.path == "" && e.details == NoDetails
  {
    WithMessage(New("array.min_items", ""), "Array length " + NatToString(len) + " is less than minimum " + NatToString(min))
  }

  function MaxItemsError(len: nat, max: usize): (e: ValidationError)
    ensures e.code == "array.max_items" && e.path == "" && e.details == NoDetails
  {
    WithMessage(New("array.max_items", ""), "Array length " + NatToString(len) + " is greater than maximum " + NatToString(max))
  }

  /** The required error of arrays and objects (code "array.required" or "object.required"). */
  function RequiredError(code: string): (e: ValidationError)
    ensures e.code == code && e.path == "" && e.details == NoDetails
  {
    WithMessage(New(code, ""), "This field is required")
  }

  /** The invalid-type error of arrays and objects, for `kind` "array" or "object". */
  function InvalidTypeError(kind: string, v: Value): (e: ValidationError)
    ensures e.code == kind + ".invalid_type" && e.path == ""
    ensures e.details == NoDetails.(expected := Some(kind), actual := Some(TypeName(v)))
  {
    WithTypeInfo(WithMessage(New(kind + ".invalid_type", ""), "Expected " + kind + ", got " + TypeName(v)), kind, TypeName(v))
  }

  function MissingField(name: string): (e: ValidationError)
    ensures e.code == "object.required" && e.path == name && e.details == NoDetails
  {
    WithMessage(New("object.required", name), "Required field is missing")
  }

  /** This draft's `validate_schema_type`. */
  function Validate(ext: Externals, s: Schemas.Schema, v: Value): Schemas.Outcome
    requires UnionFree(s)
    decreases s, 2, 0
  {
    match s
    case String(t) => ValidateString(ext, t, v)
    case Number(n) => ValidateNumber(ext, n, v)
    case Boolean(_) => ValidateBoolean(v)
    case Array(a) => ValidateArray(ext, a, v)
    case Object(o) => ValidateObject(ext, o, v)
    case Union(_) => assert false; Err(Schemas.NoMatch())
  }

  /** `impl Schema for ArraySchema` of this draft: bounds, then the items in index order. */
  function ValidateArray(ext: Externals, a: Schemas.ArraySchema, v: Value): Schemas.Outcome
    requires UnionFree(a.item)
    decreases a, 1, 0
  {
    match v
    case Arr(items) =>
      if a.minItems.Some? && |items| < a.minItems.value then Err(MinItemsError(|items|, a.minItems.value))
      else if a.maxItems.Some? && |items| > a.maxItems.value then Err(MaxItemsError(|items|, a.maxItems.value))
      else
        var failure := Schemas.FirstItemFailure(ItemOutcomes(ext, a, items), 0);
        if failure.Some? then Err(failure.value) else Ok(v)
    case Null => if a.optional then Ok(v) else Err(RequiredError("array.required"))
    case _ => Err(InvalidTypeError("array", v))
  }

  function ItemOutcomes(ext: Externals, a: Schemas.ArraySchema, items: seq<Value>): (rs: seq<Schemas.Outcome>)
    requires UnionFree(a.item)
    ensures |rs| == |items|
    decreases a, 0, 0
  {
    seq(|items|, j requires 0 <= j < |items| => Validate(ext, a.item, items[j]))
  }

  /** `impl Schema for ObjectSchema` of this draft: required names, then present fields; no strict check. */
  function ValidateObject(ext: Externals, o: Schemas.ObjectSchema, v: Value): Schemas.Outcome
    requires forall f :: f in o.fields ==> UnionFree(f.1)
    decreases o, 1, 0
  {
    match v
    case Obj(entries) =>
      var missing := Schemas.FirstMissing(o.required, Keys(entries), 0);
      if missing.Some? then Err(MissingField(missing.value))
      else
        var failure := Schemas.FirstFieldFailure(Schemas.Names(o.fields), FieldOutcomes(ext, o, entries), 0);
        if failure.Some? then Err(failure.value) else Ok(v)
    case Null => if o.optional then Ok(v) else Err(RequiredError("object.required"))
    case _ => Err(InvalidTypeError("object", v))
  }

  function FieldOutcomes(ext: Externals, o: Schemas.ObjectSchema, entries: seq<(string, Value)>)
    : (rs: seq<Option<Schemas.Outcome>>)
    requires forall f :: f in o.fields ==> UnionFree(f.1)
    ensures |rs| == |o.fields|
    decreases o, 0, 0
  {
    seq(|o.fields|, j requires 0 <= j < |o.fields| =>
      var present := Lookup(entries, o.fields[j].0);
      if present.None? then None
      else assert o.fields[j] in o.fields; Some(Validate(ext, o.fields[j].1, present.value)))
  }
}
