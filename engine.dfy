/**
 * The validators as the source runs them: early returns and `for` loops over items,
 * required names, input keys, declared fields and union alternatives. Each method is
 * proved to compute exactly the specification in module Schemas.
 */
module Engine {

  import opened Wrappers
  import opened Text
  import opened Json
  import opened Errors
  import opened SchemaBase
  import Schemas
  import StringSchemas
  import NumberSchemas
  import BooleanSchemas

  /** `validate_schema_type`. */
  method ValidateSchemaType(ext: Externals, s: Schemas.Schema, v: Value) returns (r: Result<Value, ValidationError>)
    ensures r == Schemas.Validate(ext, s, v)
    decreases s, 2, 0
  {
    match s
    case String(t) => r := StringSchemas.ValidateString(ext, t, v);
    case Number(n) => r := NumberSchemas.Validate(ext, n, v);
    case Boolean(b) => r := BooleanSchemas.Validate(b, v);
    case Array(a) => r := ValidateArray(ext, a, v);
    case Object(o) => r := ValidateObject(ext, o, v);
    case Union(u) => r := ValidateUnion(ext, u, v);
  }

  /** `ArraySchema::validate`. */
  method ValidateArray(ext: Externals, a: Schemas.ArraySchema, v: Value) returns (r: Result<Value, ValidationError>)
    ensures r == Schemas.ValidateArray(ext, a, v)
    decreases a, 1, 0
  {
    if !v.Arr? {
      if v.Null? && a.optional {
        return Ok(v);
      } else if v.Null? {
        return Err(Schemas.ArrayRequired(a));
      }
      return Err(Schemas.ArrayInvalidType(a, v));
    }
    var items := v.items;
    if a.minItems.Some? && |items| < a.minItems.value {
      return Err(Schemas.MinItemsError(a, a.minItems.value));
    }
    if a.maxItems.Some? && |items| > a.maxItems.value {
      return Err(Schemas.MaxItemsError(a, a.maxItems.value));
    }
    var i := 0;
    while i < |items|
      invariant 0 <= i <= |items|
      invariant Schemas.FirstItemFailure(Schemas.ItemOutcomes(ext, a, items), 0) ==
                Schemas.FirstItemFailure(Schemas.ItemOutcomes(ext, a, items), i)
    {
      var res := ValidateSchemaType(ext, a.item, items[i]);
      if res.Err? {
        return Err(WithPathPrefix(res.error, NatToString(i)));
      }
      i := i + 1;
    }
    return Ok(v);
  }

  /** `ObjectSchema::validate`: three loops with early return. */
  method ValidateObject(ext: Externals, o: Schemas.ObjectSchema, v: Value) returns (r: Result<Value, ValidationError>)
    ensures r == Schemas.ValidateObject(ext, o, v)
    decreases o, 1, 0
  {
    if !v.Obj? {
      if v.Null? && o.optional {
        return Ok(v);
      } else if v.Null? {
        return Err(Schemas.ObjectRequired(o));
      }
      return Err(Schemas.ObjectInvalidType(o, v));
    }
    var entries := v.entries;
    var keys := Keys(entries);
    var missing := FindMissing(o.required, keys);
    if missing.Some? {
      return Err(Schemas.MissingField(o, missing.value));
    }
    if "object.unknown_field" in o.messages {
      var unknown := FindUnknown(keys, Schemas.Names(o.fields));
      if unknown.Some? {
        return Err(Schemas.UnknownField(o, unknown.value));
      }
    }
    var failure := CheckFields(ext, o, entries);
    if failure.Some? {
      return Err(failure.value);
    }
    return Ok(v);
  }

  /** The loop over the required set: the first name the input lacks. */
  method FindMissing(required: seq<string>, keys: seq<string>) returns (r: Option<string>)
    ensures r == Schemas.FirstMissing(required, keys, 0)
  {
    var i := 0;
    while i < |required|
      invariant 0 <= i <= |required|
      invariant Schemas.FirstMissing(required, keys, 0) == Schemas.FirstMissing(required, keys, i)
    {
      if required[i] !in keys {
        return Some(required[i]);
      }
      i := i + 1;
    }
    return None;
  }

  /** The strict-mode loop over the input keys: the first one no field declares. */
  method FindUnknown(keys: seq<string>, names: seq<string>) returns (r: Option<string>)
    ensures r == Schemas.FirstUnknown(keys, names, 0)
  {
    var j := 0;
    while j < |keys|
      invariant 0 <= j <= |keys|
      invariant Schemas.FirstUnknown(keys, names, 0) == Schemas.FirstUnknown(keys, names, j)
    {
      if keys[j] !in names {
        return Some(keys[j]);
      }
      j := j + 1;
    }
    return None;
  }

  /** The loop over the declared fields: a present field's failure, re-rooted under its name. */
  method CheckFields(ext: Externals, o: Schemas.ObjectSchema, entries: seq<(string, Value)>)
    returns (r: Option<ValidationError>)
    ensures r == Schemas.FirstFieldFailure(Schemas.Names(o.fields), Schemas.FieldOutcomes(ext, o, entries), 0)
    decreases o, 0, 0
  {
    var k := 0;
    while k < |o.fields|
      invariant 0 <= k <= |o.fields|
      invariant Schemas.FirstFieldFailure(Schemas.Names(o.fields), Schemas.FieldOutcomes(ext, o, entries), 0) ==
                Schemas.FirstFieldFailure(Schemas.Names(o.fields), Schemas.FieldOutcomes(ext, o, entries), k)
    {
      var name := o.fields[k].0;
      var present := Lookup(entries, name);
      if present.Some? {
        assert o.fields[k] in o.fields;
        var res := ValidateSchemaType(ext, o.fields[k].1, present.value);
        if res.Err? {
          return Some(WithPathPrefix(res.error, name));
        }
      }
      k := k + 1;
    }
    return None;
  }

  /** `UnionSchema::validate`. */
  method ValidateUnion(ext: Externals, u: Schemas.UnionSchema, v: Value) returns (r: Result<Value, ValidationError>)
    ensures r == Schemas.ValidateUnion(ext, u, v)
    decreases u, 1, 0
  {
    match u.strategy
    case First => r := FirstStrategy(ext, u, v);
    case All => r := AllStrategy(ext, u, v);
    case Best(score) => r := BestStrategy(ext, u, score, v);
  }

  /** First: return the first success; otherwise the last error, or "union.no_match". */
  method FirstStrategy(ext: Externals, u: Schemas.UnionSchema, v: Value) returns (r: Result<Value, ValidationError>)
    ensures r == Schemas.FirstOf(Schemas.Alternatives(ext, u, v), 0, None)
    decreases u, 0, 0
  {
    var lastError: Option<ValidationError> := None;
    var i := 0;
    while i < |u.schemas|
      invariant 0 <= i <= |u.schemas|
      invariant Schemas.FirstOf(Schemas.Alternatives(ext, u, v), 0, None) ==
                Schemas.FirstOf(Schemas.Alternatives(ext, u, v), i, lastError)
    {
      var res := ValidateSchemaType(ext, u.schemas[i], v);
      if res.Ok? {
        return res;
      }
      lastError := Some(res.error);
      i := i + 1;
    }
    return Err(lastError.GetOr(Schemas.NoMatch()));
  }

  /** All: the first error stops the loop; otherwise the input comes back. */
  method AllStrategy(ext: Externals, u: Schemas.UnionSchema, v: Value) returns (r: Result<Value, ValidationError>)
    ensures r == Schemas.AllOf(Schemas.Alternatives(ext, u, v), v, 0)
    decreases u, 0, 0
  {
    var i := 0;
    while i < |u.schemas|
      invariant 0 <= i <= |u.schemas|
      invariant Schemas.AllOf(Schemas.Alternatives(ext, u, v), v, 0) == Schemas.AllOf(Schemas.Alternatives(ext, u, v), v, i)
    {
      var res := ValidateSchemaType(ext, u.schemas[i], v);
      if res.Err? {
        return Err(res.error);
      }
      i := i + 1;
    }
    return Ok(v);
  }

  /** Best: the first success, or the error whose score is strictly below every earlier one's. */
  method BestStrategy(ext: Externals, u: Schemas.UnionSchema, score: Schemas.Scorer, v: Value)
    returns (r: Result<Value, ValidationError>)
    ensures r == Schemas.BestOf(Schemas.Alternatives(ext, u, v), score, 0, U32_MAX, None)
    decreases u, 0, 0
  {
    var bestResult: Option<(Value, ValidationError)> := None;
    var bestScore: u32 := U32_MAX;
    var i := 0;
    while i < |u.schemas|
      invariant 0 <= i <= |u.schemas|
      invariant Schemas.BestOf(Schemas.Alternatives(ext, u, v), score, 0, U32_MAX, None) ==
                Schemas.BestOf(Schemas.Alternatives(ext, u, v), score, i, bestScore,
                               if bestResult.Some? then Some(bestResult.value.1) else None)
    {
      var res := ValidateSchemaType(ext, u.schemas[i], v);
      if res.Ok? {
        return res;
      }
      var e := res.error;
      var s := score(e);
      if s < bestScore {
        bestScore := s;
        bestResult := Some((v, e));
      }
      i := i + 1;
    }
    if bestResult.Some? {
      return Err(bestResult.value.1);
    }
    return Err(Schemas.NoMatch());
  }
}
