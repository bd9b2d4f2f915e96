/**
 * Properties of `validate_schema_type` over every schema, by induction on the schema:
 * a validator hands back its input, except that a number schema hands back the float
 * `Number::from_f64` of the value it read (an integer comes back tagged a float, a coerced
 * string becomes a float); and validating the output again gives the same output, so
 * validation is idempotent.
 */
module ValidationProperties {

  import opened Wrappers
  import opened Json
  import opened Errors
  import opened SchemaBase
  import NumberSchemas
  import opened Schemas
  import opened UnionProperties

  /** An accepted value comes back unchanged or as a float. */
  lemma {:induction false} OutputIsInputOrNumber(ext: Externals, s: Schema, v: Value)
    requires Validate(ext, s, v).Ok?
    ensures Validate(ext, s, v).value == v || (Validate(ext, s, v).value.Num? && Validate(ext, s, v).value.n.Float?)
    decreases s
  {
    match s
    case Union(u) =>
      if u.strategy.All? {
        AllNeedsEvery(ext, u, v);
      } else {
        var k := SuccessIsAnAlternative(ext, u, v);
        assert u.schemas[k] in u.schemas;
        OutputIsInputOrNumber(ext, u.schemas[k], v);
      }
    case _ =>
  }

  /**
   * An accepted number comes back with its value, either as it was (an All union hands
   * back its input) or tagged a float (`Number::from_f64`: `json!(42)` as `json!(42.0)`).
   */
  lemma {:induction false} NumberComesBack(ext: Externals, s: Schema, x: Number)
    requires Validate(ext, s, Num(x)).Ok?
    ensures var w := Validate(ext, s, Num(x)).value;
            w == Num(x) || w == Num(Float(AsF64(x)))
    decreases s
  {
    match s
    case Union(u) =>
      if u.strategy.All? {
        AllNeedsEvery(ext, u, Num(x));
      } else {
        var k := SuccessIsAnAlternative(ext, u, Num(x));
        assert u.schemas[k] in u.schemas;
        NumberComesBack(ext, u.schemas[k], x);
      }
    case _ =>
  }

  /** A number schema that accepts an integer hands it back tagged a float, which is not the input. */
  lemma IntegerBecomesFloat(ext: Externals, n: NumberSchemas.NumberSchema, i: JsonInt)
    requires Validate(ext, Number(n), Num(Int(i))).Ok?
    ensures Validate(ext, Number(n), Num(Int(i))).value == Num(Float(i as real))
    ensures Validate(ext, Number(n), Num(Int(i))).value != Num(Int(i))
  {
  }

  /** Validating an accepted value's output again accepts it and gives the same output. */
  lemma {:induction false} Idempotent(ext: Externals, s: Schema, v: Value)
    requires Validate(ext, s, v).Ok?
    ensures Validate(ext, s, Validate(ext, s, v).value) == Validate(ext, s, v)
    decreases s
  {
    var w := Validate(ext, s, v).value;
    match s
    case Number(n) =>
      if v.Str? && w != v {
        assert w == Num(Float(ext.parseF64(v.s).value));
      }
    case Union(u) =>
      if u.strategy.All? {
        AllNeedsEvery(ext, u, v);
      } else if w != v {
        // the accepting alternative turned v into a number, which it accepts again
        var k := SuccessIsAnAlternative(ext, u, v);
        assert u.schemas[k] in u.schemas;
        OutputIsInputOrNumber(ext, u.schemas[k], v);
        Idempotent(ext, u.schemas[k], v);
        // so the union accepts that number, through an alternative that hands it back
        AnAlternativeSuffices(ext, u, w, k);
        var k' := SuccessIsAnAlternative(ext, u, w);
        assert u.schemas[k'] in u.schemas;
        NumberComesBack(ext, u.schemas[k'], w.n);
      }
    case Array(a) =>
    case Object(o) =>
    case String(t) =>
    case Boolean(b) =>
  }
}
