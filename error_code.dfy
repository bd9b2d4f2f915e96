/** The closed table of error codes (`ErrorCode`) with their code strings and default messages. */
module ErrorCodes {

  import opened Wrappers

  datatype ErrorCode =
    | StringTooShort
    | StringTooLong
    | InvalidEmail
    | PatternMismatch
    | NumberTooSmall
    | NumberTooLarge
    | InvalidNumber
    | RequiredField
    | UnknownField
    | InvalidType
    | Custom(text: string)

  /** `default_message`: fixed text per variant; a custom code carries its own. */
  function DefaultMessage(c: ErrorCode): (m: string)
    ensures c.Custom? ==> m == c.text
    ensures !c.Custom? ==> |m| > 0
  {
    match c
    case StringTooShort => "String is too short"
    case StringTooLong => "String is too long"
    case InvalidEmail => "Invalid email format"
    case PatternMismatch => "String does not match pattern"
    case NumberTooSmall => "Number is too small"
    case NumberTooLarge => "Number is too large"
    case InvalidNumber => "Invalid number"
    case RequiredField => "Field is required"
    case UnknownField => "Unknown field"
    case InvalidType => "Invalid type"
    case Custom(text) => text
  }

  /** `code`: the dotted machine-readable identifier of a variant. */
  function Code(c: ErrorCode): (s: string)
    ensures c.Custom? <==> s == "custom"
  {
    match c
    case StringTooShort => "string.too_short"
    case StringTooLong => "string.too_long"
    case InvalidEmail => "string.email"
    case PatternMismatch => "string.pattern"
    case NumberTooSmall => "number.too_small"
    case NumberTooLarge => "number.too_large"
    case InvalidNumber => "number.invalid"
    case RequiredField => "object.required"
    case UnknownField => "object.unknown_field"
    case InvalidType => "object.invalid_type"
    case Custom(_) => "custom"
  }

  /** `Display` for ErrorCode writes `code()`. */
  function Display(c: ErrorCode): (s: string)
    ensures s == Code(c)
  {
    Code(c)
  }

  /** The inverse of `Code` on the non-custom variants. */
  function FromCode(s: string): (c: Option<ErrorCode>)
  {
    match s
    case "string.too_short" => Some(StringTooShort)
    case "string.too_long" => Some(StringTooLong)
    case "string.email" => Some(InvalidEmail)
    case "string.pattern" => Some(PatternMismatch)
    case "number.too_small" => Some(NumberTooSmall)
    case "number.too_large" => Some(NumberTooLarge)
    case "number.invalid" => Some(InvalidNumber)
    case "object.required" => Some(RequiredField)
    case "object.unknown_field" => Some(UnknownField)
    case "object.invalid_type" => Some(InvalidType)
    case _ => None
  }

  /** Every non-custom code string reads back as its own variant. */
  lemma CodeRoundTrip(c: ErrorCode)
    requires !c.Custom?
    ensures FromCode(Code(c)) == Some(c)
  {
  }

  /** Non-custom variants have pairwise distinct codes. */
  lemma CodesDistinct(a: ErrorCode, b: ErrorCode)
    requires !a.Custom? && !b.Custom? && a != b
    ensures Code(a) != Code(b)
  {
    CodeRoundTrip(a);
    CodeRoundTrip(b);
  }

  /** The payload of a custom code never shows in its code string. */
  lemma CustomCodeIgnoresPayload(x: string, y: string)
    ensures Code(Custom(x)) == Code(Custom(y)) == "custom"
    ensures DefaultMessage(Custom(x)) == x
  {
  }
}
