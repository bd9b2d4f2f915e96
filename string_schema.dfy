/**
 * `StringSchema` (src/schemas/string.rs): optional byte-length bounds, one pattern slot,
 * an e-mail flag, an optional flag, message overrides and custom validators; its errors
 * are of the second error draft (module DetailedErrors).
 */
module StringSchemas {

  import opened Wrappers
  import opened Text
  import opened Json
  import opened Errors
  import DetailedErrors
  import ErrorCodes
  import opened SchemaBase

  /** A custom validator: `Err(message)` rejects the string. */
  type Validator = string -> Result<(), string>

  datatype StringSchema = StringSchema(
    minLength: Option<usize>,
    maxLength: Option<usize>,
    pattern: Option<string>,
    email: bool,
    optional: bool,
    messages: Messages,
    custom: seq<Validator>)

  const EmailPattern: string := "^[a-zA-Z0-9._%+-]+@[a-zA-Z0-9.-]+\\.[a-zA-Z]{2,}$"
  const UrlPattern: string := "^https?://[\\w\\-]+(\\.[\\w\\-]+)+[/#?]?.*$"
  const UuidPattern: string := "^[0-9a-f]{8}-[0-9a-f]{4}-[0-9a-f]{4}-[0-9a-f]{4}-[0-9a-f]{12}$"
  const IpPattern: string :=
    "^(?:(?:25[0-5]|2[0-4][0-9]|[01]?[0-9][0-9]?)\\.){3}(?:25[0-5]|2[0-4][0-9]|[01]?[0-9][0-9]?)$"

  /** `StringSchema::default()`: no constraint, required, no override, no validator. */
  function Default(): (s: StringSchema)
    ensures s.minLength.None? && s.maxLength.None? && s.pattern.None?
    ensures !s.email && !s.optional && s.messages == map[] && s.custom == []
  {
    StringSchema(None, None, None, false, false, map[], [])
  }

  // ---- builders: each replaces one setting and keeps the rest ----

  function MinLength(s: StringSchema, n: usize): (r: StringSchema)
    ensures r.minLength == Some(n) && r.(minLength := s.minLength) == s
  {
    s.(minLength := Some(n))
  }

  function MaxLength(s: StringSchema, n: usize): (r: StringSchema)
    ensures r.maxLength == Some(n) && r.(maxLength := s.maxLength) == s
  {
    s.(maxLength := Some(n))
  }

  /** `pattern(p)`: the single pattern slot now holds p, whatever it held before. */
  function Pattern(s: StringSchema, p: string): (r: StringSchema)
    ensures r.pattern == Some(p) && r.(pattern := s.pattern) == s
  {
    s.(pattern := Some(p))
  }

  function Email(s: StringSchema): (r: StringSchema)
    ensures r.email && r.(email := s.email) == s
  {
    s.(email := true)
  }

  function Optional(s: StringSchema): (r: StringSchema)
    ensures r.optional && r.(optional := s.optional) == s
  {
    s.(optional := true)
  }

  function ErrorMessage(s: StringSchema, code: string, message: string): (r: StringSchema)
    ensures GetErrorMessage(r.messages, code) == Some(message)
    ensures forall c :: c != code ==> GetErrorMessage(r.messages, c) == GetErrorMessage(s.messages, c)
    ensures r.(messages := s.messages) == s
  {
    s.(messages := SetErrorMessage(s.messages, code, message))
  }

  /** `custom(f)`: f runs after every validator registered before it. */
  function Custom(s: StringSchema, f: Validator): (r: StringSchema)
    ensures r.custom == s.custom + [f] && r.(custom := s.custom) == s
  {
    s.(custom := s.custom + [f])
  }

  /** `url()`: the URL pattern in the pattern slot, plus an override for "string.url". */
  function Url(s: StringSchema): (r: StringSchema)
    ensures r.pattern == Some(UrlPattern) && r.messages == s.messages["string.url" := "Invalid URL format"]
    ensures r.(pattern := s.pattern, messages := s.messages) == s
  {
    ErrorMessage(Pattern(s, UrlPattern), "string.url", "Invalid URL format")
  }

  function Uuid(s: StringSchema): (r: StringSchema)
    ensures r.pattern == Some(UuidPattern) && r.messages == s.messages["string.uuid" := "Invalid UUID format"]
    ensures r.(pattern := s.pattern, messages := s.messages) == s
  {
    ErrorMessage(Pattern(s, UuidPattern), "string.uuid", "Invalid UUID format")
  }

  function Ip(s: StringSchema): (r: StringSchema)
    ensures r.pattern == Some(IpPattern) && r.messages == s.messages["string.ip" := "Invalid IP address format"]
    ensures r.(pattern := s.pattern, messages := s.messages) == s
  {
    ErrorMessage(Pattern(s, IpPattern), "string.ip", "Invalid IP address format")
  }

  // ---- validation ----

  /**
   * The first registered validator that rejects `t`, with its message: every validator
   * before index i accepts, the i-th rejects with exactly that message.
   */
  function FirstRejection(vs: seq<Validator>, t: string): (r: Option<string>)
    ensures r.None? <==> forall i :: 0 <= i < |vs| ==> vs[i](t).Ok?
    ensures r.Some? ==> exists i :: 0 <= i < |vs| && vs[i](t) == Err(r.value) &&
                                    forall j :: 0 <= j < i ==> vs[j](t).Ok?
    decreases |vs|
  {
    if vs == [] then None
    else if vs[0](t).Err? then Some(vs[0](t).error)
    else
      var rest := FirstRejection(vs[1..], t);
      assert forall i :: 1 <= i < |vs| ==> vs[i] == vs[1..][i - 1];
      if rest.Some? then
        assert exists i :: 0 <= i < |vs| && vs[i](t) == Err(rest.value) &&
                           forall j :: 0 <= j < i ==> vs[j](t).Ok? by {
          var k :| 0 <= k < |vs[1..]| && vs[1..][k](t) == Err(rest.value) &&
                   forall j :: 0 <= j < k ==> vs[1..][j](t).Ok?;
          assert vs[k + 1](t) == Err(rest.value);
          assert forall j :: 0 <= j < k + 1 ==> vs[j](t).Ok?;
        }
        rest
      else rest
  }

  /** The loop over `custom_validators`, returning the first rejection. */
  method RunValidators(vs: seq<Validator>, t: string) returns (r: Option<string>)
    ensures r == FirstRejection(vs, t)
  {
    var i := 0;
    while i < |vs|
      invariant 0 <= i <= |vs|
      invariant FirstRejection(vs, t) == FirstRejection(vs[i..], t)
    {
      var outcome := vs[i](t);
      if outcome.Err? {
        assert FirstRejection(vs[i..], t) == Some(outcome.error);
        return Some(outcome.error);
      }
      assert vs[i..][1..] == vs[i + 1..];
      i := i + 1;
    }
    assert vs[i..] == [];
    return None;
  }

  function TooShort(s: StringSchema, min: usize): (e: ValidationError)
    ensures e.code == "string.too_short" && e.path == "" && e.details == NoDetails.(minLength := Some(min))
  {
    var e := DetailedErrors.WithDetails(DetailedErrors.New(ErrorCodes.Code(ErrorCodes.StringTooShort)),
                                         (d: Details) => d.(minLength := Some(min)));
    DetailedErrors.Message(e, MessageOr(s.messages, "string.too_short",
                                        "String must be at least " + NatToString(min) + " characters long"))
  }

  function TooLong(s: StringSchema, max: usize): (e: ValidationError)
    ensures e.code == "string.too_long" && e.path == "" && e.details == NoDetails.(maxLength := Some(max))
  {
    var e := DetailedErrors.WithDetails(DetailedErrors.New(ErrorCodes.Code(ErrorCodes.StringTooLong)),
                                         (d: Details) => d.(maxLength := Some(max)));
    DetailedErrors.Message(e, MessageOr(s.messages, "string.too_long",
                                        "String must be at most " + NatToString(max) + " characters long"))
  }

  function PatternMismatch(s: StringSchema, p: string): (e: ValidationError)
    ensures e.code == "string.pattern" && e.path == "" && e.details == NoDetails.(pattern := Some(p))
  {
    var e := DetailedErrors.WithDetails(DetailedErrors.New(ErrorCodes.Code(ErrorCodes.PatternMismatch)),
                                         (d: Details) => d.(pattern := Some(p)));
    DetailedErrors.Message(e, MessageOr(s.messages, "string.pattern", "String must match pattern: " + p))
  }

  function InvalidEmail(s: StringSchema): (e: ValidationError)
    ensures e.code == "string.email" && e.path == "" && e.details == NoDetails
  {
    DetailedErrors.Message(DetailedErrors.New(ErrorCodes.Code(ErrorCodes.InvalidEmail)),
                           MessageOr(s.messages, "string.email", "Must be a valid email address"))
  }

  /**
   * A custom validator's rejection becomes `ErrorCode::Custom(message)`, whose string
   * form is its code "custom"; the message table then gives it the generic text.
   */
  function Rejected(message: string): (e: ValidationError)
    ensures e.code == "custom" && e.path == "" && e.details == NoDetails
    ensures e.message == Some("Validation error")
  {
    DetailedErrors.New(ErrorCodes.Code(ErrorCodes.Custom(message)))
  }

  function Required(s: StringSchema): (e: ValidationError)
    ensures e.code == "object.required" && e.path == "" && e.details == NoDetails
  {
    DetailedErrors.Message(DetailedErrors.New(ErrorCodes.Code(ErrorCodes.RequiredField)),
                           MessageOr(s.messages, "string.required", "This field is required"))
  }

  function InvalidType(s: StringSchema, v: Value): (e: ValidationError)
    ensures e.code == "object.invalid_type" && e.path == ""
    ensures e.details == NoDetails.(expected := Some("string"), actual := Some(TypeName(v)))
  {
    var e := DetailedErrors.WithDetails(DetailedErrors.New(ErrorCodes.Code(ErrorCodes.InvalidType)),
                                         (d: Details) => d.(expected := Some("string"), actual := Some(TypeName(v))));
    DetailedErrors.Message(e, MessageOr(s.messages, "string.invalid_type", "Expected string, got " + TypeName(v)))
  }

  /** The checks on a string in their fixed order: length bounds, pattern, e-mail, validators. */
  function CheckString(ext: Externals, s: StringSchema, t: string): Option<ValidationError> {
    if s.minLength.Some? && ByteLen(t) < s.minLength.value then Some(TooShort(s, s.minLength.value))
    else if s.maxLength.Some? && ByteLen(t) > s.maxLength.value then Some(TooLong(s, s.maxLength.value))
    else if s.pattern.Some? && !ext.matches(s.pattern.value, t) then Some(PatternMismatch(s, s.pattern.value))
    else if s.email && !ext.matches(EmailPattern, t) then Some(InvalidEmail(s))
    else
      var rejection := FirstRejection(s.custom, t);
      if rejection.Some? then Some(Rejected(rejection.value)) else None
  }

  /** `StringSchema::validate`. */
  function Validate(ext: Externals, s: StringSchema, v: Value): Result<Value, ValidationError> {
    match v
    case Null => if s.optional then Ok(v) else Err(Required(s))
    case Str(t) =>
      var failure := CheckString(ext, s, t);
      if failure.Some? then Err(failure.value) else Ok(v)
    case _ => Err(InvalidType(s, v))
  }

  /** `StringSchema::validate` as the source runs it: early returns, then the validator loop. */
  method ValidateString(ext: Externals, s: StringSchema, v: Value) returns (r: Result<Value, ValidationError>)
    ensures r == Validate(ext, s, v)
  {
    if v.Null? && s.optional {
      return Ok(v);
    }
    if !v.Str? {
      return if v.Null? then Err(Required(s)) else Err(InvalidType(s, v));
    }
    var t := v.s;
    if s.minLength.Some? && ByteLen(t) < s.minLength.value {
      return Err(TooShort(s, s.minLength.value));
    }
    if s.maxLength.Some? && ByteLen(t) > s.maxLength.value {
      return Err(TooLong(s, s.maxLength.value));
    }
    if s.pattern.Some? && !ext.matches(s.pattern.value, t) {
      return Err(PatternMismatch(s, s.pattern.value));
    }
    if s.email && !ext.matches(EmailPattern, t) {
      return Err(InvalidEmail(s));
    }
    var rejection := RunValidators(s.custom, t);
    if rejection.Some? {
      return Err(Rejected(rejection.value));
    }
    return Ok(v);
  }

  /** What a string must satisfy, stated constraint by constraint. */
  predicate Satisfies(ext: Externals, s: StringSchema, t: string) {
    (s.minLength.None? || ByteLen(t) >= s.minLength.value) &&
    (s.maxLength.None? || ByteLen(t) <= s.maxLength.value) &&
    (s.pattern.None? || ext.matches(s.pattern.value, t)) &&
    (!s.email || ext.matches(EmailPattern, t)) &&
    (forall i :: 0 <= i < |s.custom| ==> s.custom[i](t).Ok?)
  }

  /** A string is accepted exactly when it meets every constraint, and comes back unchanged. */
  lemma AcceptsExactly(ext: Externals, s: StringSchema, t: string)
    ensures Validate(ext, s, Str(t)).Ok? <==> Satisfies(ext, s, t)
    ensures Validate(ext, s, Str(t)).Ok? ==> Validate(ext, s, Str(t)).value == Str(t)
  {
  }
}
