/**
 * What every schema shares: the per-code message overrides (`HasErrorMessages` /
 * `ErrorMessage`), the integer widths the source casts between, and the operations of
 * foreign libraries (regex, float parsing and printing, Unicode case mapping), which the
 * model takes as parameters.
 */
module SchemaBase {

  import opened Wrappers
  import opened Errors

  type u32 = x: int | 0 <= x < 0x1_0000_0000
  const U32_MAX: u32 := 0xFFFF_FFFF

  /** Rust's `usize` on a 64-bit target. */
  type usize = x: int | 0 <= x < 0x1_0000_0000_0000_0000

  const I64_MIN: i64 := -0x8000_0000_0000_0000
  const I64_MAX: i64 := 0x7FFF_FFFF_FFFF_FFFF

  /**
   * The operations of foreign code the validators call:
   * `matches(pattern, s)` is `Regex::new(pattern).unwrap().is_match(s)`,
   * `parseF64` is `str::parse::<f64>` (None on a parse error),
   * `toLower`/`toUpper` are `str::to_lowercase`/`to_uppercase`,
   * `showNumber` is the `Display` text of an `f64` (`{}`, `to_string`: "42" for 42.0),
   * `showJsonFloat` that of a float-tagged serde_json `Number` ("42.0").
   */
  datatype Externals = Externals(
    matches: (string, string) -> bool,
    parseF64: string -> Option<real>,
    toLower: string -> string,
    toUpper: string -> string,
    showNumber: real -> string,
    showJsonFloat: real -> string)

  /** `error_messages`: a schema's message overrides, keyed by error code. */
  type Messages = map<string, string>

  /** `get_error_message(code)`: the stored override for that code, or None. */
  function GetErrorMessage(m: Messages, code: string): (r: Option<string>)
    ensures r.Some? <==> code in m
    ensures r.Some? ==> r.value == m[code]
  {
    if code in m then Some(m[code]) else None
  }

  /** `error_message(code, message)`: inserts the override, replacing an earlier one for that code. */
  function SetErrorMessage(m: Messages, code: string, message: string): (r: Messages)
    ensures GetErrorMessage(r, code) == Some(message)
    ensures forall c :: c != code ==> GetErrorMessage(r, c) == GetErrorMessage(m, c)
  {
    m[code := message]
  }

  /** `get_error_message(code).unwrap_or_else(|| fallback)`. */
  function MessageOr(m: Messages, code: string, fallback: string): (r: string)
    ensures code in m ==> r == m[code]
    ensures code !in m ==> r == fallback
  {
    GetErrorMessage(m, code).GetOr(fallback)
  }

  /** `n as i64` for a `usize`: the same 64 bits read as two's complement. */
  function UsizeToI64(n: usize): (r: i64)
    ensures (n - r) % 0x1_0000_0000_0000_0000 == 0
    ensures n <= I64_MAX ==> r == n
  {
    if n <= I64_MAX then n else n - 0x1_0000_0000_0000_0000
  }

  /** `x as i64` for an `f64`: rounds toward zero and saturates at the ends of the range. */
  function F64ToI64(x: real): (r: i64)
    ensures 0.0 <= x < (I64_MAX as real) + 1.0 ==> r as real <= x < r as real + 1.0
    ensures (I64_MIN as real) - 1.0 < x <= 0.0 ==> r as real - 1.0 < x <= r as real
    ensures x >= (I64_MAX as real) + 1.0 ==> r == I64_MAX
    ensures x <= (I64_MIN as real) - 1.0 ==> r == I64_MIN
  {
    if x >= (I64_MAX as real) + 1.0 then I64_MAX
    else if x <= (I64_MIN as real) - 1.0 then I64_MIN
    else if x >= 0.0 then x.Floor
    else -((-x).Floor)
  }
}
