/**
 * The second error draft (`ValidationError::new(code)` with a message looked up from
 * a fixed code table and a bag of details), used by the string schema and the union.
 * It shares the error record and `with_path_prefix` of module Errors.
 */
module DetailedErrors {

  import opened Wrappers
  import opened Text
  import opened Errors
  import SchemaBase

  /**
   * `ValidationDetails::is_empty`: every field of the second draft's details is unset;
   * the first draft's integer `min` and `max` are no part of them.
   */
  predicate IsEmpty(d: Details)
    ensures IsEmpty(d) <==> d.(min := None, max := None) == NoDetails
  {
    d.minLength.None? && d.maxLength.None? && d.minValue.None? && d.maxValue.None? &&
    d.pattern.None? && d.expected.None? && d.actual.None? && d.fieldName.None?
  }

  /** Codes the message table knows. */
  const KnownCodes: set<string> := {
    "string.too_short", "string.too_long", "string.email", "string.pattern",
    "number.too_small", "number.too_large", "object.required", "object.unknown_field",
    "object.invalid_type", "array.min_items", "array.max_items", "array.type",
    "boolean.type", "number.type", "number.integer", "object.type"}

  /** The message template of a code; any other code gets "Validation error". */
  function DefaultTemplate(code: string): string {
    match code
    case "string.too_short" => "String must be at least {min_length} characters long"
    case "string.too_long" => "String must be at most {max_length} characters long"
    case "string.email" => "Invalid email address"
    case "string.pattern" => "String must match pattern: {pattern}"
    case "number.too_small" => "Number must be greater than or equal to {min_value}"
    case "number.too_large" => "Number must be less than or equal to {max_value}"
    case "object.required" => "Field '{field_name}' is required"
    case "object.unknown_field" => "Unknown field: {field_name}"
    case "object.invalid_type" => "Expected {expected_type}, got {actual_type}"
    case "array.min_items" => "Must have at least {min_items} items"
    case "array.max_items" => "Must have at most {max_items} items"
    case "array.type" => "Must be an array"
    case "boolean.type" => "Must be a boolean value"
    case "number.type" => "Must be a number"
    case "number.integer" => "Must be an integer"
    case "object.type" => "Must be an object"
    case _ => "Validation error"
  }

  /** Exactly the codes outside the table fall back to "Validation error". */
  lemma UnknownCodeTemplate(code: string)
    ensures code !in KnownCodes <==> DefaultTemplate(code) == "Validation error"
  {
  }

  /** `new(code)`: empty path, empty details, the code's template as message. */
  function New(code: string): (r: ValidationError)
    ensures r.code == code && r.path == "" && IsEmpty(r.details)
    ensures r.message == Some(DefaultTemplate(code))
  {
    ValidationError(code, "", Some(DefaultTemplate(code)), NoDetails)
  }

  /** `at`: replaces the path. */
  function At(e: ValidationError, path: string): (r: ValidationError)
    ensures r.path == path
    ensures r.code == e.code && r.message == e.message && r.details == e.details
  {
    e.(path := path)
  }

  /** `message` (and its alias `with_message`): replaces the message. */
  function Message(e: ValidationError, message: string): (r: ValidationError)
    ensures r.message == Some(message)
    ensures r.code == e.code && r.path == e.path && r.details == e.details
  {
    e.(message := Some(message))
  }

  /** `with_details`: the caller's update applies to the details only. */
  function WithDetails(e: ValidationError, update: Details -> Details): (r: ValidationError)
    ensures r.details == update(e.details)
    ensures r.code == e.code && r.path == e.path && r.message == e.message
  {
    e.(details := update(e.details))
  }

  /** `with_min`: stores the integer minimum as a float (`min as f64`). */
  function WithMinValue(e: ValidationError, min: i64): (r: ValidationError)
    ensures r.details == e.details.(minValue := Some(min as real))
    ensures r.code == e.code && r.path == e.path && r.message == e.message
  {
    e.(details := e.details.(minValue := Some(min as real)))
  }

  /** `with_max`: stores the integer maximum as a float. */
  function WithMaxValue(e: ValidationError, max: i64): (r: ValidationError)
    ensures r.details == e.details.(maxValue := Some(max as real))
    ensures r.code == e.code && r.path == e.path && r.message == e.message
  {
    e.(details := e.details.(maxValue := Some(max as real)))
  }

  /** `with_type_info`: sets expected and actual type names, nothing else. */
  function WithTypes(e: ValidationError, expected: string, actual: string): (r: ValidationError)
    ensures r.details == e.details.(expected := Some(expected), actual := Some(actual))
    ensures r.code == e.code && r.path == e.path && r.message == e.message
  {
    e.(details := e.details.(expected := Some(expected), actual := Some(actual)))
  }

  /** The template `format_message` starts from: the stored message, else the code's. */
  function Template(e: ValidationError): (t: string)
    ensures e.message.Some? ==> t == e.message.value
    ensures e.message.None? ==> t == DefaultTemplate(e.code)
  {
    if e.message.Some? then e.message.value else DefaultTemplate(e.code)
  }

  function Both(a: Option<string>, b: Option<string>, pick: bool): Option<string> {
    if a.Some? && b.Some? then (if pick then a else b) else None
  }

  /** A set floating-point bound as `f64::to_string` writes it. */
  function MapReal(ext: SchemaBase.Externals, o: Option<real>): Option<string> {
    if o.Some? then Some(ext.showNumber(o.value)) else None
  }

  /** The k-th placeholder of the second draft and its value; types only when both are set. */
  function Binding(ext: SchemaBase.Externals, d: Details, k: nat): (b: (string, Option<string>))
    requires k < 13
    ensures |b.0| > 0
  {
    match k
    case 0 => ("{min_length}", MapNat(d.minLength))
    case 1 => ("{min_items}", MapNat(d.minLength))
    case 2 => ("{max_length}", MapNat(d.maxLength))
    case 3 => ("{max_items}", MapNat(d.maxLength))
    case 4 => ("{min_value}", MapReal(ext, d.minValue))
    case 5 => ("{min}", MapReal(ext, d.minValue))
    case 6 => ("{max_value}", MapReal(ext, d.maxValue))
    case 7 => ("{max}", MapReal(ext, d.maxValue))
    case 8 => ("{pattern}", d.pattern)
    case 9 => ("{field_name}", d.fieldName)
    case 10 => ("{field}", d.fieldName)
    case 11 => ("{expected_type}", Both(d.expected, d.actual, true))
    case 12 => ("{actual_type}", Both(d.expected, d.actual, false))
  }

  /** All placeholders of the second draft, in replacement order. */
  function DetailBindings(ext: SchemaBase.Externals, d: Details): (bs: seq<(string, Option<string>)>)
    ensures |bs| == 13 && forall i :: 0 <= i < |bs| ==> |bs[i].0| > 0
  {
    seq(13, k requires 0 <= k < 13 => Binding(ext, d, k))
  }

  /** The bindings from the k-th on, applied one after another to the text. */
  function RenderFrom(ext: SchemaBase.Externals, text: string, d: Details, k: nat): string
    requires k <= 13
    decreases 13 - k
  {
    if k == 13 then text else RenderFrom(ext, Step(text, Binding(ext, d, k)), d, k + 1)
  }

  /** The text the second draft's `format_message` returns. */
  function Rendered(ext: SchemaBase.Externals, e: ValidationError): string {
    RenderFrom(ext, Template(e), e.details, 0)
  }

  /** Rendering from the k-th binding on is substitution of the remaining bindings. */
  lemma {:induction false} RenderFromSubstitutes(ext: SchemaBase.Externals, text: string, d: Details, k: nat)
    requires k <= 13
    ensures RenderFrom(ext, text, d, k) == Substitute(text, DetailBindings(ext, d)[k..])
    decreases 13 - k
  {
    if k < 13 {
      SubstituteFrom(text, DetailBindings(ext, d), k);
      RenderFromSubstitutes(ext, Step(text, Binding(ext, d, k)), d, k + 1);
    } else {
      assert DetailBindings(ext, d)[k..] == [];
    }
  }

  /** One `if let Some(x) = ... { msg = msg.replace(placeholder, &x) }` step. */
  method ReplaceIfSet(text: string, placeholder: string, value: Option<string>,
                      ghost ext: SchemaBase.Externals, ghost d: Details, ghost k: nat) returns (r: string)
    requires k < 13 && Binding(ext, d, k) == (placeholder, value)
    ensures r == Step(text, (placeholder, value))
    ensures RenderFrom(ext, r, d, k + 1) == RenderFrom(ext, text, d, k)
  {
    r := text;
    if value.Some? {
      r := Replace(text, placeholder, value.value);
    }
  }

  /**
   * `format_message(&mut self)`: fixes the template into the error's message, then
   * substitutes each set detail in turn; returns the text and the updated error.
   */
  method FormatMessage(ext: SchemaBase.Externals, e: ValidationError) returns (text: string, updated: ValidationError)
    ensures text == Rendered(ext, e)
    ensures updated == e.(message := Some(Template(e)))
  {
    var msg := if e.message.Some? then e.message.value else DefaultTemplate(e.code);
    updated := e.(message := Some(msg));
    var d := e.details;
    text := msg;
    text := ReplaceIfSet(text, "{min_length}", MapNat(d.minLength), ext, d, 0);
    text := ReplaceIfSet(text, "{min_items}", MapNat(d.minLength), ext, d, 1);
    text := ReplaceIfSet(text, "{max_length}", MapNat(d.maxLength), ext, d, 2);
    text := ReplaceIfSet(text, "{max_items}", MapNat(d.maxLength), ext, d, 3);
    text := ReplaceIfSet(text, "{min_value}", MapReal(ext, d.minValue), ext, d, 4);
    text := ReplaceIfSet(text, "{min}", MapReal(ext, d.minValue), ext, d, 5);
    text := ReplaceIfSet(text, "{max_value}", MapReal(ext, d.maxValue), ext, d, 6);
    text := ReplaceIfSet(text, "{max}", MapReal(ext, d.maxValue), ext, d, 7);
    text := ReplaceIfSet(text, "{pattern}", d.pattern, ext, d, 8);
    text := ReplaceIfSet(text, "{field_name}", d.fieldName, ext, d, 9);
    text := ReplaceIfSet(text, "{field}", d.fieldName, ext, d, 10);
    text := ReplaceIfSet(text, "{expected_type}", Both(d.expected, d.actual, true), ext, d, 11);
    text := ReplaceIfSet(text, "{actual_type}", Both(d.expected, d.actual, false), ext, d, 12);
  }

  /**
   * A stored message wins over the code's default, and with no detail set it is
   * returned as it stands (the display test with "Custom error message").
   */
  lemma StoredMessageWins(ext: SchemaBase.Externals, e: ValidationError, m: string)
    requires e.message == Some(m) && IsEmpty(e.details)
    ensures Rendered(ext, e) == m
  {
    RenderFromSubstitutes(ext, m, e.details, 0);
    assert DetailBindings(ext, e.details)[0..] == DetailBindings(ext, e.details);
    SubstituteUnset(m, DetailBindings(ext, e.details));
  }

  /** With only the minimum set, rendering replaces `{min_value}` at the end of a plain text. */
  lemma RenderMinOnly(ext: SchemaBase.Externals, x: real, p: string)
    requires forall i :: 0 <= i < |p| ==> p[i] != '{'
    requires forall i :: 0 <= i < |ext.showNumber(x)| ==> ext.showNumber(x)[i] != '{'
    ensures RenderFrom(ext, p + "{min_value}", NoDetails.(minValue := Some(x)), 0) == p + ext.showNumber(x)
  {
    var d := NoDetails.(minValue := Some(x));
    var t := p + "{min_value}";
    var text := p + ext.showNumber(x);
    assert RenderFrom(ext, t, d, 0) == RenderFrom(ext, t, d, 4);
    ReplaceAfterPlain(p, "{min_value}", ext.showNumber(x));
    assert RenderFrom(ext, t, d, 4) == RenderFrom(ext, text, d, 5);
    LeadAbsent(text, "{min}");
    ReplaceAbsent(text, "{min}", ext.showNumber(x));
    assert RenderFrom(ext, text, d, 5) == RenderFrom(ext, text, d, 6);
    RenderFromSubstitutes(ext, text, d, 6);
    assert Unset(DetailBindings(ext, d)[6..]);
    SubstituteUnset(text, DetailBindings(ext, d)[6..]);
  }

  /**
   * A minimum set through `with_details` on a "number.too_small" error is written into
   * the template with `f64::to_string` (the range test expects "... equal to 0" for 0.0).
   */
  lemma MinValueRendered(ext: SchemaBase.Externals, path: string, x: real)
    requires forall i :: 0 <= i < |ext.showNumber(x)| ==> ext.showNumber(x)[i] != '{'
    ensures var e := WithDetails(At(New("number.too_small"), path), (d: Details) => d.(minValue := Some(x)));
            Rendered(ext, e) == "Number must be greater than or equal to " + ext.showNumber(x)
  {
    var e := WithDetails(At(New("number.too_small"), path), (d: Details) => d.(minValue := Some(x)));
    var prefix := "Number must be greater than or equal to ";
    assert e.details == NoDetails.(minValue := Some(x));
    assert Template(e) == prefix + "{min_value}";
    RenderMinOnly(ext, x, prefix);
  }

  /** Only one of the two type names set: neither type placeholder is touched. */
  lemma TypesNeedBoth(ext: SchemaBase.Externals, d: Details)
    requires d.expected.None? || d.actual.None?
    ensures DetailBindings(ext, d)[11].1.None? && DetailBindings(ext, d)[12].1.None?
  {
  }
}
