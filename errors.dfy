/**
 * The validation error record shared by both error drafts of the repository, and
 * the operations of the first draft (`ValidationError::new(code, path)` with a flat
 * context of optional bounds, used by the object, array, number and boolean schemas).
 */
module Errors {

  import opened Wrappers
  import opened Text

  /** Rust's `i64`. */
  type i64 = x: int | -0x8000_0000_0000_0000 <= x < 0x8000_0000_0000_0000

  /**
   * The optional typed details of an error; the field name is set by no validator in
   * this core. `min` and `max` are the first draft's integer bounds, `minValue` and
   * `maxValue` the second draft's floating-point bounds (`min_value`, `max_value`).
   */
  datatype Details = Details(
    minLength: Option<nat>,
    maxLength: Option<nat>,
    min: Option<i64>,
    max: Option<i64>,
    minValue: Option<real>,
    maxValue: Option<real>,
    pattern: Option<string>,
    expected: Option<string>,
    actual: Option<string>,
    fieldName: Option<string>)

  const NoDetails: Details := Details(None, None, None, None, None, None, None, None, None, None)

  /** Code, dot-separated path from the root to the failing node, optional message, details. */
  datatype ValidationError = ValidationError(
    code: string,
    path: string,
    message: Option<string>,
    details: Details)

  /** The path after one composite validator has re-rooted it under `prefix`. */
  function PrefixPath(prefix: string, path: string): (r: string)
    ensures path == "" ==> r == prefix
    ensures path != "" ==> r == prefix + "." + path
  {
    if path == "" then prefix else prefix + "." + path
  }

  /**
   * `with_path_prefix`: an error at the origin (empty path) moves to `prefix`;
   * otherwise `prefix` and a dot go in front. Nothing but the path changes.
   */
  function WithPathPrefix(e: ValidationError, prefix: string): (r: ValidationError)
    ensures r.path == PrefixPath(prefix, e.path)
    ensures r.code == e.code && r.message == e.message && r.details == e.details
  {
    e.(path := PrefixPath(prefix, e.path))
  }

  /** Path segments joined by dots, root first. */
  function Join(segments: seq<string>): string {
    if segments == [] then ""
    else if |segments| == 1 then segments[0]
    else segments[0] + "." + Join(segments[1..])
  }

  /** Prefixes applied innermost first, as errors propagate outward. */
  function PrefixAll(e: ValidationError, prefixes: seq<string>): ValidationError
    decreases |prefixes|
  {
    if prefixes == [] then e else PrefixAll(WithPathPrefix(e, prefixes[0]), prefixes[1..])
  }

  function Reverse(s: seq<string>): (r: seq<string>)
    ensures |r| == |s|
    ensures forall i :: 0 <= i < |s| ==> r[i] == s[|s| - 1 - i]
  {
    if s == [] then [] else Reverse(s[1..]) + [s[0]]
  }

  predicate NonEmptySegments(s: seq<string>) {
    forall i :: 0 <= i < |s| ==> s[i] != ""
  }

  lemma {:induction false} JoinNonEmpty(s: seq<string>)
    requires NonEmptySegments(s) && s != []
    ensures Join(s) != ""
  {
    if |s| > 1 {
      assert |Join(s)| >= |s[0]| + 1;
    }
  }

  /**
   * Path composition is outward prefixing: an error raised at `leaf` and re-rooted by
   * prefixes p1 (innermost) ... pn (outermost) ends at the path pn. ... .p1.leaf.
   */
  lemma {:induction false} PrefixAllJoins(e: ValidationError, leaf: seq<string>, prefixes: seq<string>)
    requires NonEmptySegments(leaf) && NonEmptySegments(prefixes)
    requires e.path == Join(leaf)
    ensures PrefixAll(e, prefixes).path == Join(Reverse(prefixes) + leaf)
    ensures PrefixAll(e, prefixes).code == e.code
    decreases |prefixes|
  {
    if prefixes != [] {
      var p := prefixes[0];
      var e1 := WithPathPrefix(e, p);
      assert e1.path == Join([p] + leaf) by {
        if leaf != [] {
          JoinNonEmpty(leaf);
          assert ([p] + leaf)[1..] == leaf;
        }
      }
      assert NonEmptySegments([p] + leaf);
      PrefixAllJoins(e1, [p] + leaf, prefixes[1..]);
      assert PrefixAll(e, prefixes) == PrefixAll(e1, prefixes[1..]);
      assert Reverse(prefixes) == Reverse(prefixes[1..]) + [p];
      assert Reverse(prefixes[1..]) + ([p] + leaf) == Reverse(prefixes) + leaf;
    } else {
      assert Reverse(prefixes) + leaf == leaf;
    }
  }

  // ---- first draft: src/error.rs ----

  /** `new(code, path)`: no message and no details. */
  function New(code: string, path: string): (r: ValidationError)
    ensures r.code == code && r.path == path
    ensures r.message == None && r.details == NoDetails
  {
    ValidationError(code, path, None, NoDetails)
  }

  function WithMessage(e: ValidationError, message: string): (r: ValidationError)
    ensures r.message == Some(message)
    ensures r.code == e.code && r.path == e.path && r.details == e.details
  {
    e.(message := Some(message))
  }

  function WithMin(e: ValidationError, min: i64): (r: ValidationError)
    ensures r.details.min == Some(min) && r.details == e.details.(min := Some(min))
    ensures r.code == e.code && r.path == e.path && r.message == e.message
  {
    e.(details := e.details.(min := Some(min)))
  }

  function WithMax(e: ValidationError, max: i64): (r: ValidationError)
    ensures r.details.max == Some(max) && r.details == e.details.(max := Some(max))
    ensures r.code == e.code && r.path == e.path && r.message == e.message
  {
    e.(details := e.details.(max := Some(max)))
  }

  function WithMinLength(e: ValidationError, n: nat): (r: ValidationError)
    ensures r.details.minLength == Some(n) && r.details == e.details.(minLength := Some(n))
    ensures r.code == e.code && r.path == e.path && r.message == e.message
  {
    e.(details := e.details.(minLength := Some(n)))
  }

  function WithMaxLength(e: ValidationError, n: nat): (r: ValidationError)
    ensures r.details.maxLength == Some(n) && r.details == e.details.(maxLength := Some(n))
    ensures r.code == e.code && r.path == e.path && r.message == e.message
  {
    e.(details := e.details.(maxLength := Some(n)))
  }

  function WithPattern(e: ValidationError, pattern: string): (r: ValidationError)
    ensures r.details.pattern == Some(pattern) && r.details == e.details.(pattern := Some(pattern))
    ensures r.code == e.code && r.path == e.path && r.message == e.message
  {
    e.(details := e.details.(pattern := Some(pattern)))
  }

  function WithTypeInfo(e: ValidationError, expected: string, actual: string): (r: ValidationError)
    ensures r.details.expected == Some(expected) && r.details.actual == Some(actual)
    ensures r.details == e.details.(expected := Some(expected), actual := Some(actual))
    ensures r.code == e.code && r.path == e.path && r.message == e.message
  {
    e.(details := e.details.(expected := Some(expected), actual := Some(actual)))
  }

  /** Setters of different details commute: each touches only its own field. */
  lemma SettersCommute(e: ValidationError, min: i64, max: i64, n: nat, p: string)
    ensures WithMin(WithMax(e, max), min) == WithMax(WithMin(e, min), max)
    ensures WithMinLength(WithPattern(e, p), n) == WithPattern(WithMinLength(e, n), p)
    ensures WithPathPrefix(WithMin(e, min), p) == WithMin(WithPathPrefix(e, p), min)
  {
  }

  /**
   * Placeholder substitution: for each (placeholder, value) binding in order, a set
   * value replaces every occurrence of the placeholder; an unset one does nothing.
   */
  function Substitute(template: string, bindings: seq<(string, Option<string>)>): string
    requires forall i :: 0 <= i < |bindings| ==> |bindings[i].0| > 0
    decreases |bindings|
  {
    if bindings == [] then template
    else
      var next := if bindings[0].1.Some? then Replace(template, bindings[0].0, bindings[0].1.value) else template;
      Substitute(next, bindings[1..])
  }

  /** One binding applied. */
  function Step(template: string, b: (string, Option<string>)): string
    requires |b.0| > 0
  {
    if b.1.Some? then Replace(template, b.0, b.1.value) else template
  }

  lemma SubstituteFrom(template: string, bindings: seq<(string, Option<string>)>, k: nat)
    requires forall i :: 0 <= i < |bindings| ==> |bindings[i].0| > 0
    requires k < |bindings|
    ensures Substitute(template, bindings[k..]) == Substitute(Step(template, bindings[k]), bindings[k + 1..])
  {
    assert bindings[k..][1..] == bindings[k + 1..];
  }

  predicate Unset(bindings: seq<(string, Option<string>)>) {
    forall i :: 0 <= i < |bindings| ==> bindings[i].1.None?
  }

  /** With every detail unset, the template comes back untouched. */
  lemma {:induction false} SubstituteUnset(template: string, bindings: seq<(string, Option<string>)>)
    requires forall i :: 0 <= i < |bindings| ==> |bindings[i].0| > 0
    requires Unset(bindings)
    ensures Substitute(template, bindings) == template
    decreases |bindings|
  {
    if bindings != [] {
      assert bindings[0].1.None?;
      SubstituteUnset(template, bindings[1..]);
    }
  }

  /** A template mentioning none of the set placeholders comes back untouched. */
  lemma {:induction false} SubstituteAbsent(template: string, bindings: seq<(string, Option<string>)>)
    requires forall i :: 0 <= i < |bindings| ==> |bindings[i].0| > 0
    requires forall i :: 0 <= i < |bindings| ==> bindings[i].1.None? || !Contains(template, bindings[i].0)
    ensures Substitute(template, bindings) == template
    decreases |bindings|
  {
    if bindings != [] {
      if bindings[0].1.Some? {
        ReplaceAbsent(template, bindings[0].0, bindings[0].1.value);
      }
      SubstituteAbsent(template, bindings[1..]);
    }
  }

  function MapNat(o: Option<nat>): Option<string> {
    if o.Some? then Some(NatToString(o.value)) else None
  }

  function MapInt(o: Option<i64>): Option<string> {
    if o.Some? then Some(IntToString(o.value)) else None
  }

  /** The placeholders the first draft knows, in the order it replaces them. */
  function Bindings(d: Details): (bs: seq<(string, Option<string>)>)
    ensures |bs| == 4 && forall i :: 0 <= i < |bs| ==> |bs[i].0| > 0
  {
    [("{min_length}", MapNat(d.minLength)), ("{max_length}", MapNat(d.maxLength)),
     ("{min}", MapInt(d.min)), ("{max}", MapInt(d.max))]
  }

  /** The text `format_message` produces: the message (or "") with the set bounds substituted. */
  function Formatted(e: ValidationError): string {
    Substitute(e.message.GetOr(""), Bindings(e.details))
  }

  /** `format_message`: starts from the message and substitutes each set bound in turn. */
  method FormatMessage(e: ValidationError) returns (msg: string)
    ensures msg == Formatted(e)
  {
    ghost var bs := Bindings(e.details);
    msg := if e.message.Some? then e.message.value else "";
    assert Formatted(e) == Substitute(msg, bs[0..]);
    if e.details.minLength.Some? {
      msg := Replace(msg, "{min_length}", NatToString(e.details.minLength.value));
    }
    assert Formatted(e) == Substitute(msg, bs[1..]);
    if e.details.maxLength.Some? {
      msg := Replace(msg, "{max_length}", NatToString(e.details.maxLength.value));
    }
    assert Formatted(e) == Substitute(msg, bs[2..]);
    if e.details.min.Some? {
      msg := Replace(msg, "{min}", IntToString(e.details.min.value));
    }
    assert Formatted(e) == Substitute(msg, bs[3..]);
    if e.details.max.Some? {
      msg := Replace(msg, "{max}", IntToString(e.details.max.value));
    }
    assert Formatted(e) == Substitute(msg, bs[4..]);
  }

  /** A text with no '{', so no placeholder starts in it. */
  predicate BraceFree(s: string) {
    forall k :: 0 <= k < |s| ==> s[k] != '{'
  }

  lemma BraceFreeConcat(a: string, b: string)
    requires BraceFree(a) && BraceFree(b)
    ensures BraceFree(a + b)
  {
    forall k | 0 <= k < |a + b| ensures (a + b)[k] != '{' {
      if k >= |a| {
        assert (a + b)[k] == b[k - |a|];
      }
    }
  }

  /** After `{max}`, a brace-free text holds no `{min}`. */
  lemma MaxIsNotMin(q: string, w: string)
    requires BraceFree(q) && BraceFree(w)
    ensures !Contains(q + "{max}" + w, "{min}")
  {
    var s := q + "{max}" + w;
    forall i: nat | i <= |s| ensures !OccursAt(s, "{min}", i) {
      if i + 5 <= |s| {
        if i == |q| {
          assert s[i..i + 5][2] == s[i + 2] == 'a';
        } else {
          assert s[i..i + 5][0] == s[i];
          if i < |q| {
            assert s[i] == q[i];
          } else if i < |q| + 5 {
            assert s[i] == "{max}"[i - |q|];
          } else {
            assert s[i] == w[i - |q| - 5];
          }
        }
      }
    }
  }

  /** The `{min}` step: the one `{min}` becomes the bound's text. */
  lemma MinStep(p: string, q: string, w: string, a: string)
    requires BraceFree(p) && BraceFree(q) && BraceFree(w)
    ensures Replace(p + "{min}" + q + "{max}" + w, "{min}", a) == p + a + q + "{max}" + w
  {
    MaxIsNotMin(q, w);
    assert p + "{min}" + q + "{max}" + w == p + "{min}" + (q + "{max}" + w);
    ReplaceOnce(p, "{min}", q + "{max}" + w, a);
    assert p + a + (q + "{max}" + w) == p + a + q + "{max}" + w;
  }

  /** The `{max}` step: the one `{max}` becomes the bound's text. */
  lemma MaxStep(pre: string, w: string, b: string)
    requires BraceFree(pre) && BraceFree(w)
    ensures Replace(pre + "{max}" + w, "{max}", b) == pre + b + w
  {
    LeadAbsent(w, "{max}");
    ReplaceOnce(pre, "{max}", w, b);
  }

  /**
   * Both bounds set and no length: a message with `{min}` and then `{max}` in brace-free
   * text gets each placeholder replaced by its bound's decimal text.
   */
  lemma FormattedMinMax(e: ValidationError, p: string, q: string, w: string)
    requires e.message == Some(p + "{min}" + q + "{max}" + w)
    requires BraceFree(p) && BraceFree(q) && BraceFree(w)
    requires e.details.minLength.None? && e.details.maxLength.None?
    requires e.details.min.Some? && e.details.max.Some?
    ensures Formatted(e) == p + IntToString(e.details.min.value) + q + IntToString(e.details.max.value) + w
  {
    var a, b := IntToString(e.details.min.value), IntToString(e.details.max.value);
    var bs := Bindings(e.details);
    var m := p + "{min}" + q + "{max}" + w;
    assert bs[0..] == bs;
    SubstituteFrom(m, bs, 0);
    SubstituteFrom(m, bs, 1);
    SubstituteFrom(m, bs, 2);
    MinStep(p, q, w, a);
    var pre := p + a + q;
    SubstituteFrom(pre + "{max}" + w, bs, 3);
    assert BraceFree(a);
    BraceFreeConcat(p, a);
    BraceFreeConcat(p + a, q);
    MaxStep(pre, w, b);
    assert bs[4..] == [];
  }

  /** The text of the repository's formatting test. */
  lemma BetweenText(p: string, q: string)
    requires p == "Value must be between " && q == " and "
    ensures p + IntToString(5) + q + IntToString(10) + "" == "Value must be between 5 and 10"
  {
    assert IntToString(5) == "5" && IntToString(10) == "10";
  }

  /** The repository's formatting test: "Value must be between {min} and {max}" with 5 and 10. */
  lemma FormatsBetween(m: string)
    requires m == "Value must be between {min} and {max}"
    ensures Formatted(WithMax(WithMin(WithMessage(New("test", "field"), m), 5), 10)) == "Value must be between 5 and 10"
  {
    var e := WithMax(WithMin(WithMessage(New("test", "field"), m), 5), 10);
    var p, q := "Value must be between ", " and ";
    assert m == p + "{min}" + q + "{max}" + "";
    FormattedMinMax(e, p, q, "");
    BetweenText(p, q);
  }

  /** Without a message the text is empty; with no bound set it is the message itself. */
  lemma FormattedDefaults(e: ValidationError)
    ensures e.message.None? ==> Formatted(e) == ""
    ensures e.details.minLength.None? && e.details.maxLength.None? && e.details.min.None? && e.details.max.None?
            ==> Formatted(e) == e.message.GetOr("")
  {
    if e.message.None? {
      assert forall i: nat :: !OccursAt("", Bindings(e.details)[0].0, i);
      SubstituteAbsent("", Bindings(e.details));
    }
    if e.details.minLength.None? && e.details.maxLength.None? && e.details.min.None? && e.details.max.None? {
      SubstituteUnset(e.message.GetOr(""), Bindings(e.details));
    }
  }
}
