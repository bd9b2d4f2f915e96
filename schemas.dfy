/**
 * The closed schema variant (`SchemaType`, src/schemas/mod.rs), the composite schemas
 * (array, object, union) and the recursive specification of validation
 * (`validate_schema_type` and each schema's `validate`). A composite's loop is specified
 * here by recursion over the loop index on the sequence of its children's outcomes;
 * module Engine runs it as the source does, stopping where the source returns early.
 */
module Schemas {

  import opened Wrappers
  import opened Text
  import opened Json
  import opened Errors
  import opened SchemaBase
  import DetailedErrors
  import StringSchemas
  import NumberSchemas
  import BooleanSchemas

  datatype Schema =
    | String(str: StringSchemas.StringSchema)
    | Number(num: NumberSchemas.NumberSchema)
    | Boolean(boolean: BooleanSchemas.BooleanSchema)
    | Array(array: ArraySchema)
    | Object(obj: ObjectSchema)
    | Union(union: UnionSchema)

  datatype ArraySchema = ArraySchema(
    item: Schema,
    minItems: Option<usize>,
    maxItems: Option<usize>,
    optional: bool,
    messages: Messages)

  /**
   * `fields` is the field map and `required` the required-name set; each is a sequence
   * with distinct names, in the (unspecified) order in which the source iterates them.
   */
  datatype ObjectSchema = ObjectSchema(
    fields: seq<(string, Schema)>,
    required: seq<string>,
    optional: bool,
    messages: Messages)

  /** `error_score` of the Best strategy. */
  type Scorer = ValidationError -> u32

  datatype Strategy = First | All | Best(score: Scorer)

  datatype UnionSchema = UnionSchema(schemas: seq<Schema>, strategy: Strategy, messages: Messages)

  // ---- names of an object's fields ----

  function Names(fields: seq<(string, Schema)>): (ns: seq<string>)
    ensures |ns| == |fields|
    ensures forall i :: 0 <= i < |fields| ==> ns[i] == fields[i].0
  {
    if fields == [] then [] else [fields[0].0] + Names(fields[1..])
  }

  predicate Distinct(ns: seq<string>) {
    forall i, j :: 0 <= i < j < |ns| ==> ns[i] != ns[j]
  }

  lemma DistinctCons(x: string, ns: seq<string>)
    requires x !in ns && Distinct(ns)
    ensures Distinct([x] + ns)
  {
    forall i, j | 0 <= i < j < |[x] + ns| ensures ([x] + ns)[i] != ([x] + ns)[j] {
      if i > 0 {
        assert ([x] + ns)[i] == ns[i - 1] && ([x] + ns)[j] == ns[j - 1];
      } else {
        assert ([x] + ns)[j] == ns[j - 1];
      }
    }
  }

  /** `fields.get(name)`. */
  function FieldSchema(fields: seq<(string, Schema)>, name: string): (r: Option<Schema>)
    ensures r.Some? <==> name in Names(fields)
    ensures r.Some? ==> (name, r.value) in fields
  {
    if fields == [] then None
    else if fields[0].0 == name then Some(fields[0].1)
    else FieldSchema(fields[1..], name)
  }

  // ---- builders ----

  /** `ArraySchema::new(item)`: no bounds, required, no override. */
  function NewArray(item: Schema): (a: ArraySchema)
    ensures a.item == item && a.minItems.None? && a.maxItems.None? && !a.optional && a.messages == map[]
  {
    ArraySchema(item, None, None, false, map[])
  }

  function MinItems(a: ArraySchema, n: usize): (r: ArraySchema)
    ensures r.minItems == Some(n) && r.(minItems := a.minItems) == a
  {
    a.(minItems := Some(n))
  }

  function MaxItems(a: ArraySchema, n: usize): (r: ArraySchema)
    ensures r.maxItems == Some(n) && r.(maxItems := a.maxItems) == a
  {
    a.(maxItems := Some(n))
  }

  function OptionalArray(a: ArraySchema): (r: ArraySchema)
    ensures r.optional && r.(optional := a.optional) == a
  {
    a.(optional := true)
  }

  function ArrayErrorMessage(a: ArraySchema, code: string, message: string): (r: ArraySchema)
    ensures GetErrorMessage(r.messages, code) == Some(message)
    ensures forall c :: c != code ==> GetErrorMessage(r.messages, c) == GetErrorMessage(a.messages, c)
    ensures r.(messages := a.messages) == a
  {
    a.(messages := SetErrorMessage(a.messages, code, message))
  }

  /** `ObjectSchema::default()`. */
  function NewObject(): (o: ObjectSchema)
    ensures o.fields == [] && o.required == [] && !o.optional && o.messages == map[]
  {
    ObjectSchema([], [], false, map[])
  }

  /** Field names and required names are each free of repeats, as in a map and a set. */
  predicate WellFormed(o: ObjectSchema) {
    Distinct(Names(o.fields)) && Distinct(o.required)
  }

  /** `fields.insert(name, schema)`: replaces the schema of a declared name, else adds the name. */
  function InsertField(fields: seq<(string, Schema)>, name: string, schema: Schema): (r: seq<(string, Schema)>)
    ensures FieldSchema(r, name) == Some(schema)
    ensures forall n :: n != name ==> FieldSchema(r, n) == FieldSchema(fields, n)
    ensures forall n :: n in Names(r) <==> n in Names(fields) || n == name
    ensures Distinct(Names(fields)) ==> Distinct(Names(r))
    decreases |fields|
  {
    if fields == [] then [(name, schema)]
    else if fields[0].0 == name then [(name, schema)] + fields[1..]
    else
      var rest := InsertField(fields[1..], name, schema);
      assert Names([fields[0]] + rest) == [fields[0].0] + Names(rest);
      assert Names(fields) == [fields[0].0] + Names(fields[1..]);
      assert Distinct(Names(fields)) ==> Distinct(Names([fields[0]] + rest)) by {
        if Distinct(Names(fields)) {
          assert fields[0].0 !in Names(fields[1..]);
          assert fields[0].0 !in Names(rest);
          DistinctCons(fields[0].0, Names(rest));
        }
      }
      [fields[0]] + rest
  }

  /** `required.insert(name)`: set insertion. */
  function InsertName(names: seq<string>, name: string): (r: seq<string>)
    ensures forall n :: n in r <==> n in names || n == name
    ensures Distinct(names) ==> Distinct(r)
  {
    if name in names then names else names + [name]
  }

  /** `field(name, schema)`: declares the field and makes it required. */
  function Field(o: ObjectSchema, name: string, schema: Schema): (r: ObjectSchema)
    ensures r.fields == InsertField(o.fields, name, schema) && r.required == InsertName(o.required, name)
    ensures r.optional == o.optional && r.messages == o.messages
    ensures WellFormed(o) ==> WellFormed(r)
  {
    o.(fields := InsertField(o.fields, name, schema), required := InsertName(o.required, name))
  }

  /** `optional_field(name, schema)`: declares the field; the required set is untouched. */
  function OptionalField(o: ObjectSchema, name: string, schema: Schema): (r: ObjectSchema)
    ensures r.fields == InsertField(o.fields, name, schema) && r.required == o.required
    ensures r.optional == o.optional && r.messages == o.messages
    ensures WellFormed(o) ==> WellFormed(r)
  {
    o.(fields := InsertField(o.fields, name, schema))
  }

  function OptionalObject(o: ObjectSchema): (r: ObjectSchema)
    ensures r.optional && r.(optional := o.optional) == o
  {
    o.(optional := true)
  }

  function ObjectErrorMessage(o: ObjectSchema, code: string, message: string): (r: ObjectSchema)
    ensures GetErrorMessage(r.messages, code) == Some(message)
    ensures forall c :: c != code ==> GetErrorMessage(r.messages, c) == GetErrorMessage(o.messages, c)
    ensures r.(messages := o.messages) == o
  {
    o.(messages := SetErrorMessage(o.messages, code, message))
  }

  /** `strict()`: an override for "object.unknown_field" whose "{field}" names the key. */
  function Strict(o: ObjectSchema): (r: ObjectSchema)
    ensures IsStrict(r)
    ensures r.messages["object.unknown_field"] == "Unknown field: {field}"
    ensures r.(messages := o.messages) == o
  {
    ObjectErrorMessage(o, "object.unknown_field", "Unknown field: {field}")
  }

  /** `UnionSchema::new(schemas)`: the First strategy, no override. */
  function NewUnion(schemas: seq<Schema>): (u: UnionSchema)
    ensures u.schemas == schemas && u.strategy.First? && u.messages == map[]
  {
    UnionSchema(schemas, First, map[])
  }

  function WithStrategy(u: UnionSchema, strategy: Strategy): (r: UnionSchema)
    ensures r.strategy == strategy && r.(strategy := u.strategy) == u
  {
    u.(strategy := strategy)
  }

  function UnionErrorMessage(u: UnionSchema, code: string, message: string): (r: UnionSchema)
    ensures GetErrorMessage(r.messages, code) == Some(message)
    ensures forall c :: c != code ==> GetErrorMessage(r.messages, c) == GetErrorMessage(u.messages, c)
    ensures r.(messages := u.messages) == u
  {
    u.(messages := SetErrorMessage(u.messages, code, message))
  }

  // ---- errors ----

  function MinItemsError(a: ArraySchema, min: usize): (e: ValidationError)
    ensures e.code == "array.min_items" && e.path == "" && e.details == NoDetails.(min := Some(UsizeToI64(min)))
  {
    var text := "Array must contain at least " + NatToString(min) + " items";
    WithMin(WithMessage(New("array.min_items", ""), MessageOr(a.messages, "array.min_items", text)), UsizeToI64(min))
  }

  function MaxItemsError(a: ArraySchema, max: usize): (e: ValidationError)
    ensures e.code == "array.max_items" && e.path == "" && e.details == NoDetails.(max := Some(UsizeToI64(max)))
  {
    var text := "Array must contain at most " + NatToString(max) + " items";
    WithMax(WithMessage(New("array.max_items", ""), MessageOr(a.messages, "array.max_items", text)), UsizeToI64(max))
  }

  function ArrayRequired(a: ArraySchema): (e: ValidationError)
    ensures e.code == "array.required" && e.path == "" && e.details == NoDetails
  {
    WithMessage(New("array.required", ""), MessageOr(a.messages, "array.required", "This field is required"))
  }

  function ArrayInvalidType(a: ArraySchema, v: Value): (e: ValidationError)
    ensures e.code == "array.invalid_type" && e.path == ""
    ensures e.details == NoDetails.(expected := Some("array"), actual := Some(TypeName(v)))
  {
    WithTypeInfo(WithMessage(New("array.invalid_type", ""),
                             MessageOr(a.messages, "array.invalid_type", "Expected array, got " + TypeName(v))),
                 "array", TypeName(v))
  }

  /** A required field absent from the input: the error sits at the field's name. */
  function MissingField(o: ObjectSchema, name: string): (e: ValidationError)
    ensures e.code == "object.required" && e.path == name && e.details == NoDetails
  {
    WithMessage(New("object.required", name), MessageOr(o.messages, "object.required", "Field " + name + " is required"))
  }

  /** An undeclared key in strict mode; "{field}" in the message becomes the key. */
  function UnknownField(o: ObjectSchema, key: string): (e: ValidationError)
    ensures e.code == "object.unknown_field" && e.path == key && e.details == NoDetails
  {
    var text := MessageOr(o.messages, "object.unknown_field", "Unknown field: " + key);
    WithMessage(New("object.unknown_field", key), Replace(text, "{field}", key))
  }

  function ObjectRequired(o: ObjectSchema): (e: ValidationError)
    ensures e.code == "object.required" && e.path == "" && e.details == NoDetails
  {
    WithMessage(New("object.required", ""), MessageOr(o.messages, "object.required", "This field is required"))
  }

  function ObjectInvalidType(o: ObjectSchema, v: Value): (e: ValidationError)
    ensures e.code == "object.invalid_type" && e.path == ""
    ensures e.details == NoDetails.(expected := Some("object"), actual := Some(TypeName(v)))
  {
    WithTypeInfo(WithMessage(New("object.invalid_type", ""),
                             MessageOr(o.messages, "object.invalid_type", "Expected object, got " + TypeName(v))),
                 "object", TypeName(v))
  }

  /** The union's own failure: code "union.no_match", second error draft. */
  function NoMatch(): (e: ValidationError)
    ensures e.code == "union.no_match" && e.path == "" && e.details == NoDetails
    ensures e.message == Some("Value did not match any schema")
  {
    DetailedErrors.Message(DetailedErrors.New("union.no_match"), "Value did not match any schema")
  }

  // ---- object loops that do not recurse into schemas ----

  /** The first required name (from index i on) that is not a key of the input. */
  function FirstMissing(required: seq<string>, keys: seq<string>, i: nat): (r: Option<string>)
    requires i <= |required|
    ensures r.None? <==> forall j :: i <= j < |required| ==> required[j] in keys
    ensures r.Some? ==> r.value !in keys && exists j :: i <= j < |required| && required[j] == r.value &&
                                                       forall k :: i <= k < j ==> required[k] in keys
    decreases |required| - i
  {
    if i == |required| then None
    else if required[i] !in keys then Some(required[i])
    else FirstMissing(required, keys, i + 1)
  }

  /** The first input key (from index i on) that names no declared field. */
  function FirstUnknown(keys: seq<string>, names: seq<string>, i: nat): (r: Option<string>)
    requires i <= |keys|
    ensures r.None? <==> forall j :: i <= j < |keys| ==> keys[j] in names
    ensures r.Some? ==> r.value !in names && exists j :: i <= j < |keys| && keys[j] == r.value &&
                                                       forall k :: i <= k < j ==> keys[k] in names
    decreases |keys| - i
  {
    if i == |keys| then None
    else if keys[i] !in names then Some(keys[i])
    else FirstUnknown(keys, names, i + 1)
  }

  /** Strict mode is nothing but an override for "object.unknown_field" being present. */
  predicate IsStrict(o: ObjectSchema) {
    "object.unknown_field" in o.messages
  }

  // ---- validation: `validate_schema_type` and the composites ----

  /** What a validator returns: the accepted (possibly converted) value, or an error. */
  type Outcome = Result<Value, ValidationError>

  /** `validate_schema_type`: each variant goes to its own validator. */
  function Validate(ext: Externals, s: Schema, v: Value): Outcome
    decreases s, 2, 0
  {
    match s
    case String(t) => StringSchemas.Validate(ext, t, v)
    case Number(n) => NumberSchemas.Validate(ext, n, v)
    case Boolean(b) => BooleanSchemas.Validate(b, v)
    case Array(a) => ValidateArray(ext, a, v)
    case Object(o) => ValidateObject(ext, o, v)
    case Union(u) => ValidateUnion(ext, u, v)
  }

  /** `ArraySchema::validate`. */
  function ValidateArray(ext: Externals, a: ArraySchema, v: Value): Outcome
    decreases a, 1, 0
  {
    match v
    case Arr(items) =>
      if a.minItems.Some? && |items| < a.minItems.value then Err(MinItemsError(a, a.minItems.value))
      else if a.maxItems.Some? && |items| > a.maxItems.value then Err(MaxItemsError(a, a.maxItems.value))
      else
        var failure := FirstItemFailure(ItemOutcomes(ext, a, items), 0);
        if failure.Some? then Err(failure.value) else Ok(v)
    case Null => if a.optional then Ok(v) else Err(ArrayRequired(a))
    case _ => Err(ArrayInvalidType(a, v))
  }

  /** The item schema's outcome on each item, in order. */
  function ItemOutcomes(ext: Externals, a: ArraySchema, items: seq<Value>): (rs: seq<Outcome>)
    ensures |rs| == |items|
    decreases a, 0, 0
  {
    seq(|items|, j requires 0 <= j < |items| => Validate(ext, a.item, items[j]))
  }

  /** The `enumerate` loop from index i: the first failing item's error under its index. */
  function FirstItemFailure(rs: seq<Outcome>, i: nat): Option<ValidationError>
    requires i <= |rs|
    decreases |rs| - i
  {
    if i == |rs| then None
    else if rs[i].Err? then Some(WithPathPrefix(rs[i].error, NatToString(i)))
    else FirstItemFailure(rs, i + 1)
  }

  /**
   * `ObjectSchema::validate`: the required names, then (in strict mode) the input keys,
   * then the declared fields present in the input; the input itself on success.
   */
  function ValidateObject(ext: Externals, o: ObjectSchema, v: Value): Outcome
    decreases o, 1, 0
  {
    match v
    case Obj(entries) =>
      var missing := FirstMissing(o.required, Keys(entries), 0);
      if missing.Some? then Err(MissingField(o, missing.value))
      else
        var unknown := if IsStrict(o) then FirstUnknown(Keys(entries), Names(o.fields), 0) else None;
        if unknown.Some? then Err(UnknownField(o, unknown.value))
        else
          var failure := FirstFieldFailure(Names(o.fields), FieldOutcomes(ext, o, entries), 0);
          if failure.Some? then Err(failure.value) else Ok(v)
    case Null => if o.optional then Ok(v) else Err(ObjectRequired(o))
    case _ => Err(ObjectInvalidType(o, v))
  }

  /** Each declared field's outcome on its value in the input; None where the input lacks it. */
  function FieldOutcomes(ext: Externals, o: ObjectSchema, entries: seq<(string, Value)>): (rs: seq<Option<Outcome>>)
    ensures |rs| == |o.fields|
    decreases o, 0, 0
  {
    seq(|o.fields|, j requires 0 <= j < |o.fields| =>
      var present := Lookup(entries, o.fields[j].0);
      if present.None? then None
      else assert o.fields[j] in o.fields; Some(Validate(ext, o.fields[j].1, present.value)))
  }

  /** The loop over declared fields from index i: a present field's failure under its name. */
  function FirstFieldFailure(names: seq<string>, rs: seq<Option<Outcome>>, i: nat): Option<ValidationError>
    requires |names| == |rs| && i <= |rs|
    decreases |rs| - i
  {
    if i == |rs| then None
    else if rs[i].Some? && rs[i].value.Err? then Some(WithPathPrefix(rs[i].value.error, names[i]))
    else FirstFieldFailure(names, rs, i + 1)
  }

  /** `UnionSchema::validate`, by strategy. */
  function ValidateUnion(ext: Externals, u: UnionSchema, v: Value): Outcome
    decreases u, 1, 0
  {
    var rs := Alternatives(ext, u, v);
    match u.strategy
    case First => FirstOf(rs, 0, None)
    case All => AllOf(rs, v, 0)
    case Best(score) => BestOf(rs, score, 0, U32_MAX, None)
  }

  /** Each alternative's outcome on the input, in order. */
  function Alternatives(ext: Externals, u: UnionSchema, v: Value): (rs: seq<Outcome>)
    ensures |rs| == |u.schemas|
    decreases u, 0, 0
  {
    seq(|u.schemas|, j requires 0 <= j < |u.schemas| => Validate(ext, u.schemas[j], v))
  }

  /** First: the loop from index i, with the last error seen so far. */
  function FirstOf(rs: seq<Outcome>, i: nat, last: Option<ValidationError>): Outcome
    requires i <= |rs|
    decreases |rs| - i
  {
    if i == |rs| then Err(last.GetOr(NoMatch()))
    else if rs[i].Ok? then rs[i]
    else FirstOf(rs, i + 1, Some(rs[i].error))
  }

  /** All: every alternative from index i must accept; the original input comes back. */
  function AllOf(rs: seq<Outcome>, v: Value, i: nat): Outcome
    requires i <= |rs|
    decreases |rs| - i
  {
    if i == |rs| then Ok(v)
    else if rs[i].Err? then Err(rs[i].error)
    else AllOf(rs, v, i + 1)
  }

  /** Best: the loop from index i, with the best score and the error recorded with it. */
  function BestOf(rs: seq<Outcome>, score: Scorer, i: nat, bestScore: u32, best: Option<ValidationError>): Outcome
    requires i <= |rs|
    decreases |rs| - i
  {
    if i == |rs| then (if best.Some? then Err(best.value) else Err(NoMatch()))
    else if rs[i].Ok? then rs[i]
    else if score(rs[i].error) < bestScore then BestOf(rs, score, i + 1, score(rs[i].error), Some(rs[i].error))
    else BestOf(rs, score, i + 1, bestScore, best)
  }
}
