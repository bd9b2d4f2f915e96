/**
 * The alternative draft's validators as src/validators/mod.rs runs them: early returns,
 * the custom-validator loop, the `enumerate` loop over items and the loops over required
 * names and declared fields. Each method computes exactly module DraftValidators' function.
 */
module DraftEngine {

  import opened Wrappers
  import opened Text
  import opened Json
  import opened Errors
  import opened SchemaBase
  import StringSchemas
  import NumberSchemas
  import Schemas
  import Engine
  import opened DraftValidators

  method ValidateSchemaType(ext: Externals, s: Schemas.Schema, v: Value) returns (r: Schemas.Outcome)
    requires UnionFree(s)
    ensures r == DraftValidators.Validate(ext, s, v)
    decreases s, 2, 0
  {
    match s
    case String(t) => r := ValidateString(ext, t, v);
    case Number(n) => r := ValidateNumber(ext, n, v);
    case Boolean(_) => r := DraftValidators.ValidateBoolean(v);
    case Array(a) => r := ValidateArray(ext, a, v);
    case Object(o) => r := ValidateObject(ext, o, v);
  }

  method ValidateString(ext: Externals, s: StringSchemas.StringSchema, v: Value) returns (r: Schemas.Outcome)
    ensures r == DraftValidators.ValidateString(ext, s, v)
  {
    if v.Null? && s.optional {
      return Ok(v);
    }
    if !v.Str? {
      return if v.Null? then Err(StringRequired(s)) else Err(StringInvalidType(s, v));
    }
    var t := v.s;
    var len := ByteLen(t);
    if s.minLength.Some? && len < s.minLength.value {
      return Err(TooShort(s, len, s.minLength.value));
    }
    if s.maxLength.Some? && len > s.maxLength.value {
      return Err(TooLong(s, len, s.maxLength.value));
    }
    if s.pattern.Some? && !ext.matches(s.pattern.value, t) {
      return Err(PatternMismatch(s, s.pattern.value));
    }
    if s.email && !ext.matches(StringSchemas.EmailPattern, t) {
      return Err(InvalidEmail(s));
    }
    var rejection := StringSchemas.RunValidators(s.custom, t);
    if rejection.Some? {
      return Err(Rejected(rejection.value));
    }
    return Ok(v);
  }

  method ValidateNumber(ext: Externals, n: NumberSchemas.NumberSchema, v: Value) returns (r: Schemas.Outcome)
    ensures r == DraftValidators.ValidateNumber(ext, n, v)
  {
    var num: real;
    match v {
      case Num(x) => num := AsF64(x);
      case Str(t) =>
        if !n.coerce {
          return Err(NumberInvalidType(v));
        }
        var parsed := ext.parseF64(t);
        if parsed.None? {
          return Err(Unparsable());
        }
        num := parsed.value;
      case Null =>
        if n.optional {
          return Ok(v);
        }
        return Err(NumberRequired());
      case _ => return Err(NumberInvalidType(v));
    }
    if n.integer && NumberSchemas.HasFraction(num) {
      return Err(NotInteger());
    }
    if n.min.Some? && num < n.min.value {
      return Err(TooSmall(ext, num, n.min.value));
    }
    if n.max.Some? && num > n.max.value {
      return Err(TooLarge(ext, num, n.max.value));
    }
    return Ok(Num(Float(num)));
  }

  method ValidateArray(ext: Externals, a: Schemas.ArraySchema, v: Value) returns (r: Schemas.Outcome)
    requires UnionFree(a.item)
    ensures r == DraftValidators.ValidateArray(ext, a, v)
    decreases a, 1, 0
  {
    if !v.Arr? {
      if v.Null? && a.optional {
        return Ok(v);
      } else if v.Null? {
        return Err(RequiredError("array.required"));
      }
      return Err(InvalidTypeError("array", v));
    }
    var items := v.items;
    if a.minItems.Some? && |items| < a.minItems.value {
      return Err(MinItemsError(|items|, a.minItems.value));
    }
    if a.maxItems.Some? && |items| > a.maxItems.value {
      return Err(MaxItemsError(|items|, a.maxItems.value));
    }
    var i := 0;
    while i < |items|
      invariant 0 <= i <= |items|
      invariant Schemas.FirstItemFailure(ItemOutcomes(ext, a, items), 0) ==
                Schemas.FirstItemFailure(ItemOutcomes(ext, a, items), i)
    {
      var res := ValidateSchemaType(ext, a.item, items[i]);
      if res.Err? {
        return Err(WithPathPrefix(res.error, NatToString(i)));
      }
      i := i + 1;
    }
    return Ok(v);
  }

  method ValidateObject(ext: Externals, o: Schemas.ObjectSchema, v: Value) returns (r: Schemas.Outcome)
    requires forall f :: f in o.fields ==> UnionFree(f.1)
    ensures r == DraftValidators.ValidateObject(ext, o, v)
    decreases o, 1, 0
  {
    if !v.Obj? {
      if v.Null? && o.optional {
        return Ok(v);
      } else if v.Null? {
        return Err(RequiredError("object.required"));
      }
      return Err(InvalidTypeError("object", v));
    }
    var entries := v.entries;
    var missing := Engine.FindMissing(o.required, Keys(entries));
    if missing.Some? {
      return Err(MissingField(missing.value));
    }
    var failure := CheckFields(ext, o, entries);
    if failure.Some? {
      return Err(failure.value);
    }
    return Ok(v);
  }

  method CheckFields(ext: Externals, o: Schemas.ObjectSchema, entries: seq<(string, Value)>)
    returns (r: Option<ValidationError>)
    requires forall f :: f in o.fields ==> UnionFree(f.1)
    ensures r == Schemas.FirstFieldFailure(Schemas.Names(o.fields), FieldOutcomes(ext, o, entries), 0)
    decreases o, 0, 0
  {
    var k := 0;
    while k < |o.fields|
      invariant 0 <= k <= |o.fields|
      invariant Schemas.FirstFieldFailure(Schemas.Names(o.fields), FieldOutcomes(ext, o, entries), 0) ==
                Schemas.FirstFieldFailure(Schemas.Names(o.fields), FieldOutcomes(ext, o, entries), k)
    {
      var name := o.fields[k].0;
      var present := Lookup(entries, name);
      if present.Some? {
        assert o.fields[k] in o.fields;
        var res := ValidateSchemaType(ext, o.fields[k].1, present.value);
        if res.Err? {
          return Some(WithPathPrefix(res.error, name));
        }
      }
      k := k + 1;
    }
    return None;
  }
}
