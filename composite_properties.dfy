/**
 * What the array and object validators promise, proved of the specification in module
 * Schemas: which inputs they accept, which check reports first, and where a nested
 * failure ends up in the error path.
 */
module CompositeProperties {

  import opened Wrappers
  import opened Text
  import opened Json
  import opened Errors
  import opened SchemaBase
  import StringSchemas
  import opened Schemas

  // ---- arrays ----

  /** The item loop finds no failure exactly when every outcome from index i is a success. */
  lemma {:induction false} ItemsAccepted(rs: seq<Outcome>, i: nat)
    requires i <= |rs|
    ensures FirstItemFailure(rs, i).None? <==> forall j :: i <= j < |rs| ==> rs[j].Ok?
    decreases |rs| - i
  {
    if i < |rs| {
      ItemsAccepted(rs, i + 1);
    }
  }

  lemma {:induction false} ItemsFirstFailure(rs: seq<Outcome>, i: nat, k: nat)
    requires i <= k < |rs| && rs[k].Err?
    requires forall j :: i <= j < k ==> rs[j].Ok?
    ensures FirstItemFailure(rs, i) == Some(WithPathPrefix(rs[k].error, NatToString(k)))
    decreases k - i
  {
    if i < k {
      ItemsFirstFailure(rs, i + 1, k);
    }
  }

  /**
   * Null passes exactly when optional, else "array.required" at the root; any other
   * non-array fails "array.invalid_type" recording "array" and the input's type name.
   */
  lemma ArrayShape(ext: Externals, a: ArraySchema, v: Value)
    ensures v.Null? ==> (ValidateArray(ext, a, v).Ok? <==> a.optional)
    ensures v.Null? && !a.optional ==>
              ValidateArray(ext, a, v).Err? &&
              ValidateArray(ext, a, v).error.code == "array.required" && ValidateArray(ext, a, v).error.path == ""
    ensures !v.Null? && !v.Arr? ==>
              ValidateArray(ext, a, v).Err? &&
              ValidateArray(ext, a, v).error.code == "array.invalid_type" &&
              ValidateArray(ext, a, v).error.details.expected == Some("array") &&
              ValidateArray(ext, a, v).error.details.actual == Some(TypeName(v))
  {
  }

  /** Item counts within the bounds (both inclusive). */
  predicate WithinBounds(a: ArraySchema, n: nat) {
    (a.minItems.None? || n >= a.minItems.value) && (a.maxItems.None? || n <= a.maxItems.value)
  }

  /**
   * An array is accepted exactly when its length is within the inclusive bounds and every
   * item is accepted; then the input itself comes back.
   */
  lemma ArrayAcceptsExactly(ext: Externals, a: ArraySchema, items: seq<Value>)
    ensures ValidateArray(ext, a, Arr(items)).Ok? <==>
            WithinBounds(a, |items|) && forall j :: 0 <= j < |items| ==> Validate(ext, a.item, items[j]).Ok?
    ensures ValidateArray(ext, a, Arr(items)).Ok? ==> ValidateArray(ext, a, Arr(items)).value == Arr(items)
  {
    var rs := ItemOutcomes(ext, a, items);
    assert forall j :: 0 <= j < |rs| ==> rs[j] == Validate(ext, a.item, items[j]);
    ItemsAccepted(rs, 0);
  }

  /**
   * The bounds are checked before any item, the minimum before the maximum: a short array
   * fails "array.min_items" whatever its items are, even when the bounds contradict.
   */
  lemma ArrayBoundsFirst(ext: Externals, a: ArraySchema, items: seq<Value>)
    requires !WithinBounds(a, |items|)
    ensures a.minItems.Some? && |items| < a.minItems.value ==>
            ValidateArray(ext, a, Arr(items)) == Err(MinItemsError(a, a.minItems.value))
    ensures (a.minItems.None? || |items| >= a.minItems.value) ==>
            ValidateArray(ext, a, Arr(items)) == Err(MaxItemsError(a, a.maxItems.value))
  {
  }

  /** The first rejected item's error comes back with its decimal index put in front of its path. */
  lemma ArrayFirstFailingItem(ext: Externals, a: ArraySchema, items: seq<Value>, k: nat)
    requires WithinBounds(a, |items|)
    requires k < |items| && Validate(ext, a.item, items[k]).Err?
    requires forall j :: 0 <= j < k ==> Validate(ext, a.item, items[j]).Ok?
    ensures ValidateArray(ext, a, Arr(items)) == Err(WithPathPrefix(Validate(ext, a.item, items[k]).error, NatToString(k)))
    ensures ValidateArray(ext, a, Arr(items)).error.path ==
            PrefixPath(NatToString(k), Validate(ext, a.item, items[k]).error.path)
  {
    var rs := ItemOutcomes(ext, a, items);
    assert forall j :: 0 <= j < |rs| ==> rs[j] == Validate(ext, a.item, items[j]);
    ItemsFirstFailure(rs, 0, k);
  }

  // ---- objects ----

  /** The j-th declared field is absent from the input or its value is accepted. */
  predicate FieldAccepts(ext: Externals, o: ObjectSchema, entries: seq<(string, Value)>, j: nat)
    requires j < |o.fields|
  {
    var present := Lookup(entries, o.fields[j].0);
    present.None? || Validate(ext, o.fields[j].1, present.value).Ok?
  }

  /** An outcome of the field loop that is not a failure: an absent field, or an accepted one. */
  predicate Passes(r: Option<Outcome>) {
    r.None? || r.value.Ok?
  }

  lemma {:induction false} FieldsAccepted(names: seq<string>, rs: seq<Option<Outcome>>, i: nat)
    requires |names| == |rs| && i <= |rs|
    ensures FirstFieldFailure(names, rs, i).None? <==> forall j :: i <= j < |rs| ==> Passes(rs[j])
    decreases |rs| - i
  {
    if i < |rs| {
      FieldsAccepted(names, rs, i + 1);
    }
  }

  lemma {:induction false} FieldsFirstFailure(names: seq<string>, rs: seq<Option<Outcome>>, i: nat, k: nat)
    requires |names| == |rs| && i <= k < |rs| && !Passes(rs[k])
    requires forall j :: i <= j < k ==> Passes(rs[j])
    ensures FirstFieldFailure(names, rs, i) == Some(WithPathPrefix(rs[k].value.error, names[k]))
    decreases k - i
  {
    if i < k {
      FieldsFirstFailure(names, rs, i + 1, k);
    }
  }

  /** The field loop's outcomes are the declared fields' verdicts. */
  lemma FieldOutcomesAgree(ext: Externals, o: ObjectSchema, entries: seq<(string, Value)>)
    ensures forall j :: 0 <= j < |o.fields| ==>
              (Passes(FieldOutcomes(ext, o, entries)[j]) <==> FieldAccepts(ext, o, entries, j))
    ensures forall j :: 0 <= j < |o.fields| && !FieldAccepts(ext, o, entries, j) ==>
              FieldOutcomes(ext, o, entries)[j] == Some(Validate(ext, o.fields[j].1, Lookup(entries, o.fields[j].0).value))
  {
  }

  /**
   * Null passes exactly when optional, else "object.required" at the root; any other
   * non-object fails "object.invalid_type" recording "object" and the input's type name.
   */
  lemma ObjectShape(ext: Externals, o: ObjectSchema, v: Value)
    ensures v.Null? ==> (ValidateObject(ext, o, v).Ok? <==> o.optional)
    ensures v.Null? && !o.optional ==>
              ValidateObject(ext, o, v).Err? &&
              ValidateObject(ext, o, v).error.code == "object.required" && ValidateObject(ext, o, v).error.path == ""
    ensures !v.Null? && !v.Obj? ==>
              ValidateObject(ext, o, v).Err? &&
              ValidateObject(ext, o, v).error.code == "object.invalid_type" &&
              ValidateObject(ext, o, v).error.details.expected == Some("object") &&
              ValidateObject(ext, o, v).error.details.actual == Some(TypeName(v))
  {
  }

  /** Every required name is a key of the input. */
  predicate HasRequired(o: ObjectSchema, entries: seq<(string, Value)>) {
    forall n :: n in o.required ==> n in Keys(entries)
  }

  /** Every key of the input names a declared field. */
  predicate OnlyDeclared(o: ObjectSchema, entries: seq<(string, Value)>) {
    forall k :: k in Keys(entries) ==> k in Names(o.fields)
  }

  /**
   * An object is accepted exactly when it has every required key, has no undeclared key
   * if strict, and every declared field it has is accepted; undeclared keys are accepted
   * when not strict; the input itself comes back.
   */
  lemma ObjectAcceptsExactly(ext: Externals, o: ObjectSchema, entries: seq<(string, Value)>)
    ensures ValidateObject(ext, o, Obj(entries)).Ok? <==>
            HasRequired(o, entries) && (IsStrict(o) ==> OnlyDeclared(o, entries)) &&
            forall j :: 0 <= j < |o.fields| ==> FieldAccepts(ext, o, entries, j)
    ensures ValidateObject(ext, o, Obj(entries)).Ok? ==> ValidateObject(ext, o, Obj(entries)).value == Obj(entries)
  {
    FieldOutcomesAgree(ext, o, entries);
    FieldsAccepted(Names(o.fields), FieldOutcomes(ext, o, entries), 0);
    var keys := Keys(entries);
    assert FirstMissing(o.required, keys, 0).None? <==> HasRequired(o, entries);
    assert FirstUnknown(keys, Names(o.fields), 0).None? <==> OnlyDeclared(o, entries) by {
      if OnlyDeclared(o, entries) {
        assert forall j :: 0 <= j < |keys| ==> keys[j] in Names(o.fields) by {
          forall j | 0 <= j < |keys| ensures keys[j] in Names(o.fields) {
            assert keys[j] in Keys(entries);
          }
        }
      }
    }
  }

  /**
   * A missing required field is reported before anything else: code "object.required",
   * at a path that is a required name absent from the input.
   */
  lemma ObjectMissingFirst(ext: Externals, o: ObjectSchema, entries: seq<(string, Value)>, name: string)
    requires name in o.required && name !in Keys(entries)
    ensures ValidateObject(ext, o, Obj(entries)).Err?
    ensures ValidateObject(ext, o, Obj(entries)).error.code == "object.required"
    ensures ValidateObject(ext, o, Obj(entries)).error.path in o.required
    ensures ValidateObject(ext, o, Obj(entries)).error.path !in Keys(entries)
  {
    var missing := FirstMissing(o.required, Keys(entries), 0);
    assert missing.Some?;
    var j :| 0 <= j < |o.required| && o.required[j] == missing.value;
  }

  /**
   * In strict mode, with every required key present, an undeclared key is reported as
   * "object.unknown_field" at that key, the override's "{field}" replaced by the key.
   */
  lemma StrictRejectsUnknown(ext: Externals, o: ObjectSchema, entries: seq<(string, Value)>, key: string)
    requires IsStrict(o) && HasRequired(o, entries)
    requires key in Keys(entries) && key !in Names(o.fields)
    ensures ValidateObject(ext, o, Obj(entries)).Err?
    ensures var e := ValidateObject(ext, o, Obj(entries)).error;
            e.code == "object.unknown_field" && e.path in Keys(entries) && e.path !in Names(o.fields) &&
            e.message == Some(Replace(o.messages["object.unknown_field"], "{field}", e.path))
  {
    var keys := Keys(entries);
    assert FirstMissing(o.required, keys, 0).None?;
    var unknown := FirstUnknown(keys, Names(o.fields), 0);
    var i :| 0 <= i < |keys| && keys[i] == key;
    assert unknown.Some?;
    var j :| 0 <= j < |keys| && keys[j] == unknown.value;
  }

  /**
   * Once the required and strict checks pass, the first declared field that is present and
   * rejected decides the error, with the field's name put in front of the inner path.
   */
  lemma ObjectFirstFailingField(ext: Externals, o: ObjectSchema, entries: seq<(string, Value)>, k: nat)
    requires HasRequired(o, entries) && (IsStrict(o) ==> OnlyDeclared(o, entries))
    requires k < |o.fields| && !FieldAccepts(ext, o, entries, k)
    requires forall j :: 0 <= j < k ==> FieldAccepts(ext, o, entries, j)
    ensures ValidateObject(ext, o, Obj(entries)) ==
            Err(WithPathPrefix(Validate(ext, o.fields[k].1, Lookup(entries, o.fields[k].0).value).error, o.fields[k].0))
  {
    FieldOutcomesAgree(ext, o, entries);
    FieldsFirstFailure(Names(o.fields), FieldOutcomes(ext, o, entries), 0, k);
    var keys := Keys(entries);
    assert FirstMissing(o.required, keys, 0).None?;
    if IsStrict(o) {
      assert FirstUnknown(keys, Names(o.fields), 0).None? by {
        forall j | 0 <= j < |keys| ensures keys[j] in Names(o.fields) {
          assert keys[j] in Keys(entries);
        }
      }
    }
  }

  /**
   * `field` makes the name required and `optional_field` leaves the required set alone, so
   * declaring a name optional after declaring it required keeps it required, with the
   * later schema.
   */
  lemma OptionalAfterFieldStaysRequired(o: ObjectSchema, name: string, first: Schema, second: Schema)
    ensures name in Field(o, name, first).required
    ensures OptionalField(o, name, second).required == o.required
    ensures var r := OptionalField(Field(o, name, first), name, second);
            name in r.required && FieldSchema(r.fields, name) == Some(second)
  {
  }

  // ---- nested paths ----

  /** An object schema with the single required field `name`. */
  function Wrap(name: string, inner: Schema): Schema {
    Object(ObjectSchema([(name, inner)], [name], false, map[]))
  }

  /** `Wrap` is what the builders make of `field(name, inner)` on an empty object. */
  lemma WrapIsField(name: string, inner: Schema)
    ensures Wrap(name, inner) == Object(Field(NewObject(), name, inner))
  {
  }

  /** The innermost schema: a string of at least five bytes. */
  function ZipSchema(): Schema {
    String(StringSchemas.MinLength(StringSchemas.Default(), 5))
  }

  /**
   * Three levels of single-field objects around a rejecting leaf whose error sits at the
   * root: with non-empty names the error keeps its code and is reported at "outer.middle.inner".
   */
  lemma NestedFieldPath(ext: Externals, outer: string, middle: string, inner: string, leaf: Schema, x: Value)
    requires outer != "" && middle != "" && inner != ""
    requires Validate(ext, leaf, x).Err? && Validate(ext, leaf, x).error.path == ""
    ensures var r := Validate(ext, Wrap(outer, Wrap(middle, Wrap(inner, leaf))),
                              Obj([(outer, Obj([(middle, Obj([(inner, x)]))]))]));
            r.Err? && r.error.code == Validate(ext, leaf, x).error.code &&
            r.error.path == outer + "." + middle + "." + inner
  {
    var s1, v1 := Wrap(inner, leaf), Obj([(inner, x)]);
    var s2, v2 := Wrap(middle, s1), Obj([(middle, v1)]);
    NestedStep(ext, inner, leaf, x);
    NestedStep(ext, middle, s1, v1);
    NestedStep(ext, outer, s2, v2);
    assert Validate(ext, s2, v2).error.path == middle + "." + inner;
    assert outer + "." + (middle + "." + inner) == outer + "." + middle + "." + inner;
  }

  /** A zipcode of three bytes under a five-byte minimum: "string.too_short" at the root. */
  lemma ZipTooShort(ext: Externals)
    ensures var r := Validate(ext, ZipSchema(), Str("123"));
            r.Err? && r.error.code == "string.too_short" && r.error.path == ""
  {
    assert ByteLen("123") == 3;
  }

  /** One level of nesting: a rejected single field is reported under its name. */
  lemma NestedStep(ext: Externals, name: string, inner: Schema, x: Value)
    requires Validate(ext, inner, x).Err?
    ensures Validate(ext, Wrap(name, inner), Obj([(name, x)])) ==
            Err(WithPathPrefix(Validate(ext, inner, x).error, name))
  {
    var o := Wrap(name, inner).obj;
    var entries := [(name, x)];
    assert Keys(entries) == [name];
    assert !FieldAccepts(ext, o, entries, 0);
    ObjectFirstFailingField(ext, o, entries, 0);
  }
}
