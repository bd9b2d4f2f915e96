/**
 * The transform pipeline (src/schemas/transform.rs): a `WithTransform` wrapper holds a
 * schema and a list of value-to-value transforms, runs them left to right over the
 * input and hands the result to the wrapped schema. Wrapping a wrapper nests, so
 * the outer list runs before the inner one. Everything that turns a wrapper into a
 * `SchemaType`, and every forwarding builder, throws the lists away.
 */
module Transforms {

  import opened Wrappers
  import Text
  import opened Json
  import opened SchemaBase
  import Schemas
  import StringSchemas
  import Engine

  datatype Transform =
    | Custom(f: Value -> Value)
    | ToLowerCase
    | ToUpperCase
    | Trim
    | ParseNumber
    | ToInteger
    | ToString

  /** The transforms that only touch strings. */
  predicate StringOnly(t: Transform) {
    t.ToLowerCase? || t.ToUpperCase? || t.Trim? || t.ParseNumber?
  }

  /** A real with no fractional part. */
  predicate Integral(x: real) {
    x.Floor as real == x
  }

  /**
   * `Transform::apply`. A parsed string becomes a float. ToInteger keeps an integer within
   * `i64` range and turns anything else into the float of its floor, so a float stays
   * tagged a float. ToString writes a number with `Number`'s `Display`: decimal digits for
   * an integer, `showJsonFloat` for a float.
   */
  function Apply(ext: Externals, t: Transform, v: Value): (r: Value)
    ensures StringOnly(t) && !v.Str? ==> r == v
    ensures t.ParseNumber? && v.Str? && ext.parseF64(v.s).None? ==> r == v
    ensures t.ParseNumber? && v.Str? && ext.parseF64(v.s).Some? ==> r == Num(Float(ext.parseF64(v.s).value))
    ensures t.ToInteger? && !v.Num? ==> r == v
    ensures t.ToInteger? && v.Num? ==>
              r.Num? && Integral(AsF64(r.n)) && AsF64(r.n) <= AsF64(v.n) < AsF64(r.n) + 1.0
    ensures t.ToInteger? && v.Num? && AsI64(v.n).Some? ==> r == v
    ensures t.ToInteger? && v.Num? && AsI64(v.n).None? ==> r.n.Float?
    ensures t.ToInteger? && v.Num? && v.n.Float? && Integral(v.n.f) ==> r == v
    ensures t.ToString? && (v.Str? || v.Arr? || v.Obj?) ==> r == v
    ensures t.ToString? && v.Bool? ==> r == Str(if v.b then "true" else "false")
    ensures t.ToString? && v.Null? ==> r == Str("null")
    ensures t.ToString? && v.Num? && v.n.Int? ==> r == Str(Text.IntToString(v.n.i))
    ensures t.ToString? && v.Num? && v.n.Float? ==> r == Str(ext.showJsonFloat(v.n.f))
  {
    match t
    case Custom(f) => f(v)
    case ToLowerCase => if v.Str? then Str(ext.toLower(v.s)) else v
    case ToUpperCase => if v.Str? then Str(ext.toUpper(v.s)) else v
    case Trim => if v.Str? then Str(Text.Trim(v.s)) else v
    case ParseNumber =>
      if v.Str? && ext.parseF64(v.s).Some? then Num(Float(ext.parseF64(v.s).value)) else v
    case ToInteger =>
      if v.Num? then (if AsI64(v.n).Some? then v else Num(Float(AsF64(v.n).Floor as real))) else v
    case ToString =>
      match v
      case Str(_) => v
      case Num(Int(i)) => Str(Text.IntToString(i))
      case Num(Float(x)) => Str(ext.showJsonFloat(x))
      case Bool(b) => Str(if b then "true" else "false")
      case Null => Str("null")
      case _ => v
  }

  /** Trimming, flooring and stringifying twice is doing it once. */
  lemma ApplyIdempotent(ext: Externals, t: Transform, v: Value)
    requires t.Trim? || t.ToInteger? || t.ToString?
    ensures Apply(ext, t, Apply(ext, t, v)) == Apply(ext, t, v)
  {
    if t.Trim? && v.Str? {
      Text.TrimIdempotent(v.s);
    }
  }

  /** The transforms applied in list order: the first one sees the input. */
  function ApplyAll(ext: Externals, ts: seq<Transform>, v: Value): Value
    decreases |ts|
  {
    if ts == [] then v else ApplyAll(ext, ts[1..], Apply(ext, ts[0], v))
  }

  /** Running two lists one after the other is running their concatenation. */
  lemma {:induction false} ApplyAllConcat(ext: Externals, a: seq<Transform>, b: seq<Transform>, v: Value)
    ensures ApplyAll(ext, a + b, v) == ApplyAll(ext, b, ApplyAll(ext, a, v))
    decreases |a|
  {
    if a != [] {
      assert (a + b)[0] == a[0] && (a + b)[1..] == a[1..] + b;
      ApplyAllConcat(ext, a[1..], b, Apply(ext, a[0], v));
    } else {
      assert a + b == b;
    }
  }

  /** Only string transforms in the list: a value that is not a string passes through untouched. */
  lemma {:induction false} StringTransformsKeepNonStrings(ext: Externals, ts: seq<Transform>, v: Value)
    requires forall i :: 0 <= i < |ts| ==> StringOnly(ts[i])
    requires !v.Str?
    ensures ApplyAll(ext, ts, v) == v
    decreases |ts|
  {
    if ts != [] {
      StringTransformsKeepNonStrings(ext, ts[1..], Apply(ext, ts[0], v));
    }
  }

  /** The loop of `WithTransform::validate` that reassigns the value once per transform. */
  method RunTransforms(ext: Externals, ts: seq<Transform>, v: Value) returns (r: Value)
    ensures r == ApplyAll(ext, ts, v)
  {
    var value := v;
    var i := 0;
    while i < |ts|
      invariant 0 <= i <= |ts|
      invariant ApplyAll(ext, ts, v) == ApplyAll(ext, ts[i..], value)
    {
      assert ts[i..][1..] == ts[i + 1..];
      value := Apply(ext, ts[i], value);
      i := i + 1;
    }
    r := value;
  }

  // ---- the wrapper ----

  /** `WithTransform<S>`: a schema, which may itself be a wrapper, and its transform list. */
  datatype WithTransform = WithTransform(schema: Inner, transforms: seq<Transform>)

  datatype Inner = Base(s: Schemas.Schema) | Wrapped(w: WithTransform)

  /** `WithTransform::new`: no transform yet. */
  function New(schema: Inner): (r: WithTransform)
    ensures r.schema == schema && r.transforms == []
  {
    WithTransform(schema, [])
  }

  /** The inherent `WithTransform::with_transform`: the transform goes to the end of this list. */
  function Push(w: WithTransform, t: Transform): (r: WithTransform)
    ensures r.schema == w.schema && r.transforms == w.transforms + [t]
  {
    w.(transforms := w.transforms + [t])
  }

  /** `into_inner`. */
  function IntoInner(w: WithTransform): (r: Inner)
    ensures New(r) == w.(transforms := [])
  {
    w.schema
  }

  /**
   * `Transformable::with_transform` (and so `transform`, `to_lowercase`, `trim`, ...): a new
   * wrapper around the receiver, whether that is a plain schema or already a wrapper.
   */
  function Chain(self: Inner, t: Transform): (r: WithTransform)
    ensures r.schema == self && r.transforms == [t]
  {
    Push(New(self), t)
  }

  /** `WithTransform::validate`: transform, then exactly the inner schema's result. */
  function Validate(ext: Externals, w: WithTransform, v: Value): Schemas.Outcome
    decreases w
  {
    var x := ApplyAll(ext, w.transforms, v);
    match w.schema
    case Base(s) => Schemas.Validate(ext, s, x)
    case Wrapped(inner) => Validate(ext, inner, x)
  }

  method ValidateWith(ext: Externals, w: WithTransform, v: Value) returns (r: Schemas.Outcome)
    ensures r == Validate(ext, w, v)
    decreases w
  {
    var value := RunTransforms(ext, w.transforms, v);
    match w.schema
    case Base(s) => r := Engine.ValidateSchemaType(ext, s, value);
    case Wrapped(inner) => r := ValidateWith(ext, inner, value);
  }

  /** `into_schema_type`: the innermost schema, every transform dropped. */
  function IntoSchemaType(w: WithTransform): (s: Schemas.Schema)
    ensures w.schema.Base? ==> s == w.schema.s
    decreases w
  {
    match w.schema
    case Base(s) => s
    case Wrapped(inner) => IntoSchemaType(inner)
  }

  /** Every transform of a wrapper and the wrappers inside it, in the order they run: outermost first. */
  function AllTransforms(w: WithTransform): seq<Transform>
    decreases w
  {
    w.transforms + match w.schema
                   case Base(_) => []
                   case Wrapped(inner) => AllTransforms(inner)
  }

  /**
   * A wrapper validates like its innermost schema on the input run through every
   * transform, outer lists first; it is `into_schema_type` that forgets those transforms.
   */
  lemma {:induction false} ValidateFlattens(ext: Externals, w: WithTransform, v: Value)
    ensures Validate(ext, w, v) == Schemas.Validate(ext, IntoSchemaType(w), ApplyAll(ext, AllTransforms(w), v))
    decreases w
  {
    match w.schema
    case Base(s) =>
      assert AllTransforms(w) == w.transforms;
    case Wrapped(inner) =>
      ValidateFlattens(ext, inner, ApplyAll(ext, w.transforms, v));
      ApplyAllConcat(ext, w.transforms, AllTransforms(inner), v);
  }

  /** The inherent `with_transform` runs the new transform after this wrapper's existing ones. */
  lemma PushRunsLast(ext: Externals, w: WithTransform, t: Transform, v: Value)
    ensures Validate(ext, Push(w, t), v) ==
            (match w.schema
             case Base(s) => Schemas.Validate(ext, s, Apply(ext, t, ApplyAll(ext, w.transforms, v)))
             case Wrapped(inner) => Validate(ext, inner, Apply(ext, t, ApplyAll(ext, w.transforms, v))))
  {
    ApplyAllConcat(ext, w.transforms, [t], v);
  }

  /** The trait's `with_transform` on a wrapper runs the new transform before all of the wrapper's. */
  lemma ChainRunsFirst(ext: Externals, w: WithTransform, t: Transform, v: Value)
    ensures Validate(ext, Chain(Wrapped(w), t), v) == Validate(ext, w, Apply(ext, t, v))
  {
    assert ApplyAll(ext, [t], v) == ApplyAll(ext, [], Apply(ext, t, v));
  }

  // ---- the forwarding builders ----

  /** The innermost schema is a string schema, as `impl<S: StringSchema> WithTransform<S>` needs. */
  predicate OverString(w: WithTransform)
    decreases w
  {
    match w.schema
    case Base(s) => s.String?
    case Wrapped(inner) => OverString(inner)
  }

  /** The innermost string schema. */
  function Leaf(w: WithTransform): StringSchemas.StringSchema
    requires OverString(w)
    decreases w
  {
    match w.schema
    case Base(s) => s.str
    case Wrapped(inner) => Leaf(inner)
  }

  /**
   * `into_inner().builder(..)` under `WithTransform::new` at every level of nesting: the
   * builder reaches the string schema, and every level's transform list comes back empty.
   */
  function Forward(w: WithTransform, f: StringSchemas.StringSchema -> StringSchemas.StringSchema): (r: WithTransform)
    requires OverString(w)
    ensures OverString(r) && Leaf(r) == f(Leaf(w))
    ensures AllTransforms(r) == [] && IntoSchemaType(r) == Schemas.String(f(Leaf(w)))
    decreases w
  {
    match w.schema
    case Base(s) => New(Base(Schemas.String(f(s.str))))
    case Wrapped(inner) => New(Wrapped(Forward(inner, f)))
  }

  /** After a forwarding builder the wrapper validates the raw input: no transform runs. */
  lemma ForwardDropsTransforms(ext: Externals, w: WithTransform, f: StringSchemas.StringSchema -> StringSchemas.StringSchema,
                               v: Value)
    requires OverString(w)
    ensures Validate(ext, Forward(w, f), v) == StringSchemas.Validate(ext, f(Leaf(w)), v)
  {
    ValidateFlattens(ext, Forward(w, f), v);
  }

  function MinLength(w: WithTransform, n: usize): (r: WithTransform)
    requires OverString(w)
    ensures AllTransforms(r) == [] && IntoSchemaType(r) == Schemas.String(StringSchemas.MinLength(Leaf(w), n))
  {
    Forward(w, s => StringSchemas.MinLength(s, n))
  }

  function MaxLength(w: WithTransform, n: usize): (r: WithTransform)
    requires OverString(w)
    ensures AllTransforms(r) == [] && IntoSchemaType(r) == Schemas.String(StringSchemas.MaxLength(Leaf(w), n))
  {
    Forward(w, s => StringSchemas.MaxLength(s, n))
  }

  function Pattern(w: WithTransform, p: string): (r: WithTransform)
    requires OverString(w)
    ensures AllTransforms(r) == [] && IntoSchemaType(r) == Schemas.String(StringSchemas.Pattern(Leaf(w), p))
  {
    Forward(w, s => StringSchemas.Pattern(s, p))
  }

  function Email(w: WithTransform): (r: WithTransform)
    requires OverString(w)
    ensures AllTransforms(r) == [] && IntoSchemaType(r) == Schemas.String(StringSchemas.Email(Leaf(w)))
  {
    Forward(w, s => StringSchemas.Email(s))
  }

  function Optional(w: WithTransform): (r: WithTransform)
    requires OverString(w)
    ensures AllTransforms(r) == [] && IntoSchemaType(r) == Schemas.String(StringSchemas.Optional(Leaf(w)))
  {
    Forward(w, s => StringSchemas.Optional(s))
  }

  function ErrorMessage(w: WithTransform, code: string, message: string): (r: WithTransform)
    requires OverString(w)
    ensures AllTransforms(r) == [] &&
            IntoSchemaType(r) == Schemas.String(StringSchemas.ErrorMessage(Leaf(w), code, message))
  {
    Forward(w, s => StringSchemas.ErrorMessage(s, code, message))
  }

  function CustomValidator(w: WithTransform, g: StringSchemas.Validator): (r: WithTransform)
    requires OverString(w)
    ensures AllTransforms(r) == [] && IntoSchemaType(r) == Schemas.String(StringSchemas.Custom(Leaf(w), g))
  {
    Forward(w, s => StringSchemas.Custom(s, g))
  }

  // ---- consequences ----

  /**
   * `trim().to_uppercase().min_length(n)` on a plain string schema (the inherent `trim`,
   * then the trait's `to_uppercase` on the wrapper): the minimum forgets both transforms, so a string is judged by its raw byte length and comes back neither
   * trimmed nor upper-cased ("  hi  " passes a minimum of 5).
   */
  lemma TransformsLostBeforeMinLength(ext: Externals, n: usize, s: string)
    ensures var w := MinLength(Chain(Wrapped(Chain(Base(Schemas.String(StringSchemas.Default())), Trim)), ToUpperCase), n);
            (Validate(ext, w, Str(s)).Ok? <==> Text.ByteLen(s) >= n) &&
            (Validate(ext, w, Str(s)).Ok? ==> Validate(ext, w, Str(s)).value == Str(s))
  {
    var w0 := Chain(Wrapped(Chain(Base(Schemas.String(StringSchemas.Default())), Trim)), ToUpperCase);
    ForwardDropsTransforms(ext, w0, t => StringSchemas.MinLength(t, n), Str(s));
  }

  /**
   * A trimmed string schema with a byte maximum that the trimmed text meets and the raw
   * text exceeds (" ab" under 2): the wrapper accepts the trimmed text, but once
   * `into_schema_type` has made a field, item or alternative of it the raw text is rejected.
   */
  lemma IntoSchemaTypeForgetsTrim(ext: Externals, n: usize, s: string)
    requires Text.ByteLen(Text.Trim(s)) <= n < Text.ByteLen(s)
    ensures var w := Chain(Base(Schemas.String(StringSchemas.MaxLength(StringSchemas.Default(), n))), Trim);
            Validate(ext, w, Str(s)) == Ok(Str(Text.Trim(s))) &&
            Schemas.Validate(ext, IntoSchemaType(w), Str(s)).Err?
  {
    var t := StringSchemas.MaxLength(StringSchemas.Default(), n);
    WrapperOfBase(ext, Schemas.String(t), Trim, Str(s));
    assert Apply(ext, Trim, Str(s)) == Str(Text.Trim(s));
    StringLeaf(ext, t, Str(Text.Trim(s)));
    StringLeaf(ext, t, Str(s));
    TrimMeetsMaxLength(ext, n, s);
  }

  /** A wrapper made by the trait's `with_transform` on a plain schema: one transform, then that schema. */
  lemma WrapperOfBase(ext: Externals, sch: Schemas.Schema, t: Transform, v: Value)
    ensures Validate(ext, Chain(Base(sch), t), v) == Schemas.Validate(ext, sch, Apply(ext, t, v))
  {
    assert ApplyAll(ext, [t], v) == ApplyAll(ext, [], Apply(ext, t, v));
  }

  /** Under a byte maximum that the trimmed text meets and the raw text exceeds. */
  lemma TrimMeetsMaxLength(ext: Externals, n: usize, s: string)
    requires Text.ByteLen(Text.Trim(s)) <= n < Text.ByteLen(s)
    ensures var t := StringSchemas.MaxLength(StringSchemas.Default(), n);
            StringSchemas.Validate(ext, t, Str(Text.Trim(s))) == Ok(Str(Text.Trim(s))) &&
            StringSchemas.Validate(ext, t, Str(s)).Err?
  {
    MaxLengthOnly(ext, n, Text.Trim(s));
    MaxLengthOnly(ext, n, s);
  }

  /** A string schema inside `SchemaType` validates as the string schema itself. */
  lemma StringLeaf(ext: Externals, t: StringSchemas.StringSchema, v: Value)
    ensures Schemas.Validate(ext, Schemas.String(t), v) == StringSchemas.Validate(ext, t, v)
  {
  }

  /** A string schema with nothing but a byte maximum. */
  lemma MaxLengthOnly(ext: Externals, n: usize, s: string)
    ensures StringSchemas.Validate(ext, StringSchemas.MaxLength(StringSchemas.Default(), n), Str(s)) ==
            if Text.ByteLen(s) > n then Err(StringSchemas.TooLong(StringSchemas.MaxLength(StringSchemas.Default(), n), n))
            else Ok(Str(s))
  {
    assert StringSchemas.FirstRejection([], s).None?;
  }
}
