/** `BooleanSchema` (src/schemas/boolean.rs): an optional flag and message overrides. */
module BooleanSchemas {

  import opened Wrappers
  import opened Json
  import opened Errors
  import opened SchemaBase

  datatype BooleanSchema = BooleanSchema(optional: bool, messages: Messages)

  function Default(): (s: BooleanSchema)
    ensures !s.optional && s.messages == map[]
  {
    BooleanSchema(false, map[])
  }

  function Optional(s: BooleanSchema): (r: BooleanSchema)
    ensures r.optional && r.messages == s.messages
  {
    s.(optional := true)
  }

  function ErrorMessage(s: BooleanSchema, code: string, message: string): (r: BooleanSchema)
    ensures GetErrorMessage(r.messages, code) == Some(message)
    ensures forall c :: c != code ==> GetErrorMessage(r.messages, c) == GetErrorMessage(s.messages, c)
    ensures r.optional == s.optional
  {
    s.(messages := SetErrorMessage(s.messages, code, message))
  }

  function Required(s: BooleanSchema): (e: ValidationError)
    ensures e.code == "boolean.required" && e.path == "" && e.details == NoDetails
    ensures e.message == Some(MessageOr(s.messages, "boolean.required", "This field is required"))
  {
    WithMessage(New("boolean.required", ""), MessageOr(s.messages, "boolean.required", "This field is required"))
  }

  function InvalidType(s: BooleanSchema, v: Value): (e: ValidationError)
    ensures e.code == "boolean.invalid_type" && e.path == ""
    ensures e.details == NoDetails.(expected := Some("boolean"), actual := Some(TypeName(v)))
  {
    WithTypeInfo(WithMessage(New("boolean.invalid_type", ""),
                             MessageOr(s.messages, "boolean.invalid_type", "Expected boolean, got " + TypeName(v))),
                 "boolean", TypeName(v))
  }

  /** `BooleanSchema::validate`. */
  function Validate(s: BooleanSchema, v: Value): (r: Result<Value, ValidationError>)
    ensures r.Ok? <==> v.Bool? || (v.Null? && s.optional)
    ensures r.Ok? ==> r.value == v
    ensures v.Null? && !s.optional ==> r == Err(Required(s))
    ensures !v.Bool? && !v.Null? ==> r.Err? && r.error.code == "boolean.invalid_type" &&
                                     r.error.details.actual == Some(TypeName(v))
  {
    match v
    case Bool(_) => Ok(v)
    case Null => if s.optional then Ok(v) else Err(Required(s))
    case _ => Err(InvalidType(s, v))
  }
}
