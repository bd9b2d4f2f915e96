/**
 * `NumberSchema` (src/schemas/number.rs): inclusive float bounds, an integer flag, string
 * coercion and an optional flag; its errors are of the first error draft (module Errors).
 * Numbers are reals; the float details this leaves aside are listed in the README.
 */
module NumberSchemas {

  import opened Wrappers
  import opened Json
  import opened Errors
  import opened SchemaBase

  datatype NumberSchema = NumberSchema(
    min: Option<real>,
    max: Option<real>,
    integer: bool,
    coerce: bool,
    optional: bool,
    messages: Messages)

  function Default(): (s: NumberSchema)
    ensures s.min.None? && s.max.None? && !s.integer && !s.coerce && !s.optional && s.messages == map[]
  {
    NumberSchema(None, None, false, false, false, map[])
  }

  // ---- builders ----

  function Min(s: NumberSchema, x: real): (r: NumberSchema)
    ensures r.min == Some(x) && r.(min := s.min) == s
  {
    s.(min := Some(x))
  }

  function Max(s: NumberSchema, x: real): (r: NumberSchema)
    ensures r.max == Some(x) && r.(max := s.max) == s
  {
    s.(max := Some(x))
  }

  function Integer(s: NumberSchema): (r: NumberSchema)
    ensures r.integer && r.(integer := s.integer) == s
  {
    s.(integer := true)
  }

  function Coerce(s: NumberSchema): (r: NumberSchema)
    ensures r.coerce && r.(coerce := s.coerce) == s
  {
    s.(coerce := true)
  }

  function Optional(s: NumberSchema): (r: NumberSchema)
    ensures r.optional && r.(optional := s.optional) == s
  {
    s.(optional := true)
  }

  function ErrorMessage(s: NumberSchema, code: string, message: string): (r: NumberSchema)
    ensures GetErrorMessage(r.messages, code) == Some(message)
    ensures forall c :: c != code ==> GetErrorMessage(r.messages, c) == GetErrorMessage(s.messages, c)
    ensures r.(messages := s.messages) == s
  {
    s.(messages := SetErrorMessage(s.messages, code, message))
  }

  // ---- errors ----

  /** `fract() != 0.0`: the number has a fractional part. */
  predicate HasFraction(x: real) {
    x.Floor as real != x
  }

  function NotInteger(s: NumberSchema): (e: ValidationError)
    ensures e.code == "number.integer" && e.path == "" && e.details == NoDetails
  {
    WithMessage(New("number.integer", ""), MessageOr(s.messages, "number.integer", "Expected integer value"))
  }

  /** Below the minimum; the detail holds the bound cast to `i64`. */
  function TooSmall(ext: Externals, s: NumberSchema, x: real, min: real): (e: ValidationError)
    ensures e.code == "number.min" && e.path == "" && e.details == NoDetails.(min := Some(F64ToI64(min)))
  {
    var text := "Value " + ext.showNumber(x) + " is less than minimum " + ext.showNumber(min);
    WithMin(WithMessage(New("number.min", ""), MessageOr(s.messages, "number.min", text)), F64ToI64(min))
  }

  function TooLarge(ext: Externals, s: NumberSchema, x: real, max: real): (e: ValidationError)
    ensures e.code == "number.max" && e.path == "" && e.details == NoDetails.(max := Some(F64ToI64(max)))
  {
    var text := "Value " + ext.showNumber(x) + " is greater than maximum " + ext.showNumber(max);
    WithMax(WithMessage(New("number.max", ""), MessageOr(s.messages, "number.max", text)), F64ToI64(max))
  }

  function Unparsable(s: NumberSchema): (e: ValidationError)
    ensures e.code == "number.invalid_type" && e.path == ""
    ensures e.details == NoDetails.(expected := Some("number"), actual := Some("string (not a valid number)"))
  {
    WithTypeInfo(WithMessage(New("number.invalid_type", ""),
                             MessageOr(s.messages, "number.invalid_type", "Could not parse string as number")),
                 "number", "string (not a valid number)")
  }

  function Required(s: NumberSchema): (e: ValidationError)
    ensures e.code == "number.required" && e.path == "" && e.details == NoDetails
  {
    WithMessage(New("number.required", ""), MessageOr(s.messages, "number.required", "This field is required"))
  }

  function InvalidType(s: NumberSchema, v: Value): (e: ValidationError)
    ensures e.code == "number.invalid_type" && e.path == ""
    ensures e.details == NoDetails.(expected := Some("number"), actual := Some(TypeName(v)))
  {
    WithTypeInfo(WithMessage(New("number.invalid_type", ""),
                             MessageOr(s.messages, "number.invalid_type", "Expected number, got " + TypeName(v))),
                 "number", TypeName(v))
  }

  // ---- validation ----

  /**
   * `validate_number`: integer check, then the minimum, then the maximum (both
   * inclusive); an accepted number comes back as the float `Number::from_f64(num)`.
   */
  function ValidateNumber(ext: Externals, s: NumberSchema, x: real): (r: Result<Value, ValidationError>)
    ensures r.Ok? <==> (!s.integer || !HasFraction(x)) && (s.min.None? || x >= s.min.value) &&
                       (s.max.None? || x <= s.max.value)
    ensures r.Ok? ==> r.value == Num(Float(x))
    ensures s.integer && HasFraction(x) ==> r == Err(NotInteger(s))
  {
    if s.integer && HasFraction(x) then Err(NotInteger(s))
    else if s.min.Some? && x < s.min.value then Err(TooSmall(ext, s, x, s.min.value))
    else if s.max.Some? && x > s.max.value then Err(TooLarge(ext, s, x, s.max.value))
    else Ok(Num(Float(x)))
  }

  /** `NumberSchema::validate`: the match arms in source order. */
  function Validate(ext: Externals, s: NumberSchema, v: Value): Result<Value, ValidationError> {
    match v
    case Null => if s.optional then Ok(v) else Err(Required(s))
    case Num(x) => ValidateNumber(ext, s, AsF64(x))
    case Str(t) =>
      if s.coerce then
        var parsed := ext.parseF64(t);
        if parsed.Some? then ValidateNumber(ext, s, parsed.value) else Err(Unparsable(s))
      else Err(InvalidType(s, v))
    case _ => Err(InvalidType(s, v))
  }
}
