/**
 * How the alternative draft of the validators (src/validators/mod.rs) relates to the
 * schemas' own validators: the same inputs are accepted with the same results wherever
 * the draft has the feature, the errors differ only in codes and messages, and the two
 * features the draft lacks (optional booleans, strict objects) are exactly where the
 * verdicts part.
 */
module DraftProperties {

  import opened Wrappers
  import opened Json
  import opened Errors
  import opened SchemaBase
  import StringSchemas
  import NumberSchemas
  import BooleanSchemas
  import S = Schemas
  import D = DraftValidators
  import opened CompositeProperties

  /** The two validations agree on the verdict and, on acceptance, on the value returned. */
  predicate Agree(r1: S.Outcome, r2: S.Outcome) {
    (r1.Ok? <==> r2.Ok?) && (r1.Ok? ==> r1.value == r2.value)
  }

  // ---- leaves ----

  /**
   * The draft's strings accept what the schema's own validator accepts. Its errors carry
   * the same code and details except that null fails "string.required", a wrongly typed
   * value "string.invalid_type", and a custom rejection "string.custom" with the
   * validator's own message where the schema reports "custom" with a generic text.
   */
  lemma DraftString(ext: Externals, s: StringSchemas.StringSchema, v: Value)
    ensures Agree(D.ValidateString(ext, s, v), StringSchemas.Validate(ext, s, v))
    ensures v.Null? && !s.optional ==>
              D.ValidateString(ext, s, v).Err? && D.ValidateString(ext, s, v).error.code == "string.required" &&
              StringSchemas.Validate(ext, s, v).error.code == "object.required"
    ensures !v.Null? && !v.Str? ==>
              D.ValidateString(ext, s, v) == Err(D.StringInvalidType(s, v)) &&
              StringSchemas.Validate(ext, s, v).error.code == "object.invalid_type"
    ensures v.Str? && StringSchemas.Validate(ext, s, v).Err? ==>
              var main := StringSchemas.Validate(ext, s, v).error;
              var draft := D.ValidateString(ext, s, v).error;
              if main.code == "custom" then
                StringSchemas.FirstRejection(s.custom, v.s).Some? &&
                draft == D.Rejected(StringSchemas.FirstRejection(s.custom, v.s).value) &&
                main.message == Some("Validation error")
              else
                draft.code == main.code && draft.details == main.details
  {
  }

  /**
   * The draft's numbers accept what the schema's own validator accepts and fail with the
   * same code and details; only the messages differ.
   */
  lemma DraftNumber(ext: Externals, n: NumberSchemas.NumberSchema, v: Value)
    ensures Agree(D.ValidateNumber(ext, n, v), NumberSchemas.Validate(ext, n, v))
    ensures D.ValidateNumber(ext, n, v).Err? ==>
              D.ValidateNumber(ext, n, v).error.code == NumberSchemas.Validate(ext, n, v).error.code &&
              D.ValidateNumber(ext, n, v).error.details == NumberSchemas.Validate(ext, n, v).error.details
  {
  }

  /** The draft's numbers read no override: whatever the message table, the result is the same. */
  lemma DraftNumberIgnoresMessages(ext: Externals, n: NumberSchemas.NumberSchema, code: string, message: string, v: Value)
    ensures D.ValidateNumber(ext, NumberSchemas.ErrorMessage(n, code, message), v) == D.ValidateNumber(ext, n, v)
  {
  }

  /** An optional boolean schema accepts null; the draft rejects it, as it rejects every non-boolean. */
  lemma DraftBooleanRejectsNull(b: BooleanSchemas.BooleanSchema)
    requires b.optional
    ensures BooleanSchemas.Validate(b, Null) == Ok(Null)
    ensures D.ValidateBoolean(Null).Err? && D.ValidateBoolean(Null).error.code == "boolean.invalid_type"
  {
  }

  // ---- arrays ----

  /** Two item loops over outcomes with the same verdicts both find a failure or both find none. */
  lemma ItemLoopsAgree(rs1: seq<S.Outcome>, rs2: seq<S.Outcome>)
    requires |rs1| == |rs2|
    requires forall j :: 0 <= j < |rs1| ==> (rs1[j].Ok? <==> rs2[j].Ok?)
    ensures S.FirstItemFailure(rs1, 0).None? <==> S.FirstItemFailure(rs2, 0).None?
  {
    ItemsAccepted(rs1, 0);
    ItemsAccepted(rs2, 0);
  }

  /** An array agrees between the two once its items do. */
  lemma DraftArray(ext: Externals, a: S.ArraySchema, v: Value)
    requires D.UnionFree(a.item)
    requires v.Arr? ==> forall j :: 0 <= j < |v.items| ==>
               Agree(D.Validate(ext, a.item, v.items[j]), S.Validate(ext, a.item, v.items[j]))
    ensures Agree(D.ValidateArray(ext, a, v), S.ValidateArray(ext, a, v))
  {
    if v.Arr? {
      var rs1 := D.ItemOutcomes(ext, a, v.items);
      var rs2 := S.ItemOutcomes(ext, a, v.items);
      assert forall j :: 0 <= j < |rs1| ==> rs1[j] == D.Validate(ext, a.item, v.items[j]);
      assert forall j :: 0 <= j < |rs2| ==> rs2[j] == S.Validate(ext, a.item, v.items[j]);
      ItemLoopsAgree(rs1, rs2);
    }
  }

  /** In the draft too, the first rejected item's error comes back under its decimal index. */
  lemma DraftFirstFailingItem(ext: Externals, a: S.ArraySchema, items: seq<Value>, k: nat)
    requires D.UnionFree(a.item) && WithinBounds(a, |items|)
    requires k < |items| && D.Validate(ext, a.item, items[k]).Err?
    requires forall j :: 0 <= j < k ==> D.Validate(ext, a.item, items[j]).Ok?
    ensures D.ValidateArray(ext, a, Arr(items)) ==
            Err(WithPathPrefix(D.Validate(ext, a.item, items[k]).error, Text.NatToString(k)))
  {
    var rs := D.ItemOutcomes(ext, a, items);
    assert forall j :: 0 <= j < |rs| ==> rs[j] == D.Validate(ext, a.item, items[j]);
    ItemsFirstFailure(rs, 0, k);
  }

  // ---- objects ----

  /** Two field loops over outcomes that pass at the same indices both find a failure or both find none. */
  lemma FieldLoopsAgree(names: seq<string>, rs1: seq<Option<S.Outcome>>, rs2: seq<Option<S.Outcome>>)
    requires |names| == |rs1| == |rs2|
    requires forall j :: 0 <= j < |rs1| ==> (Passes(rs1[j]) <==> Passes(rs2[j]))
    ensures S.FirstFieldFailure(names, rs1, 0).None? <==> S.FirstFieldFailure(names, rs2, 0).None?
  {
    FieldsAccepted(names, rs1, 0);
    FieldsAccepted(names, rs2, 0);
  }

  /** The two field loops pass at the same indices once the present fields' verdicts agree. */
  lemma FieldVerdictsAgree(ext: Externals, o: S.ObjectSchema, entries: seq<(string, Value)>)
    requires forall f :: f in o.fields ==> D.UnionFree(f.1)
    requires forall f, x :: f in o.fields && Lookup(entries, f.0) == Some(x) ==>
               Agree(D.Validate(ext, f.1, x), S.Validate(ext, f.1, x))
    ensures forall j :: 0 <= j < |o.fields| ==>
              (Passes(D.FieldOutcomes(ext, o, entries)[j]) <==> Passes(S.FieldOutcomes(ext, o, entries)[j]))
  {
    var rs1 := D.FieldOutcomes(ext, o, entries);
    var rs2 := S.FieldOutcomes(ext, o, entries);
    forall j | 0 <= j < |o.fields| ensures Passes(rs1[j]) <==> Passes(rs2[j]) {
      assert o.fields[j] in o.fields;
      var present := Lookup(entries, o.fields[j].0);
      if present.Some? {
        assert rs1[j] == Some(D.Validate(ext, o.fields[j].1, present.value));
        assert rs2[j] == Some(S.Validate(ext, o.fields[j].1, present.value));
      }
    }
  }

  /** An object that is not strict agrees between the two once its present fields do. */
  lemma DraftObject(ext: Externals, o: S.ObjectSchema, v: Value)
    requires forall f :: f in o.fields ==> D.UnionFree(f.1)
    requires !S.IsStrict(o)
    requires v.Obj? ==> forall f, x :: f in o.fields && Lookup(v.entries, f.0) == Some(x) ==>
               Agree(D.Validate(ext, f.1, x), S.Validate(ext, f.1, x))
    ensures Agree(D.ValidateObject(ext, o, v), S.ValidateObject(ext, o, v))
  {
    if v.Obj? {
      FieldVerdictsAgree(ext, o, v.entries);
      FieldLoopsAgree(S.Names(o.fields), D.FieldOutcomes(ext, o, v.entries), S.FieldOutcomes(ext, o, v.entries));
    }
  }

  /**
   * A missing required name is reported before any field is looked at: the first
   * required name the input lacks, as "object.required" with the draft's fixed message.
   */
  lemma DraftObjectMissingFirst(ext: Externals, o: S.ObjectSchema, entries: seq<(string, Value)>, name: string)
    requires forall f :: f in o.fields ==> D.UnionFree(f.1)
    requires name in o.required && name !in Keys(entries)
    ensures var r := D.ValidateObject(ext, o, Obj(entries));
            r.Err? && r.error == D.MissingField(r.error.path) && r.error.path !in Keys(entries) &&
            exists j :: 0 <= j < |o.required| && o.required[j] == r.error.path &&
                        forall i :: 0 <= i < j ==> o.required[i] in Keys(entries)
  {
    var missing := S.FirstMissing(o.required, Keys(entries), 0);
    assert missing.Some?;
  }

  /**
   * With every required name present, the first declared field that is present and
   * rejected decides: its error, re-rooted under the field's name, whatever follows.
   */
  lemma DraftObjectFirstFailingField(ext: Externals, o: S.ObjectSchema, entries: seq<(string, Value)>, k: nat)
    requires forall f :: f in o.fields ==> D.UnionFree(f.1)
    requires HasRequired(o, entries)
    requires k < |o.fields| && !Passes(D.FieldOutcomes(ext, o, entries)[k])
    requires forall j :: 0 <= j < k ==> Passes(D.FieldOutcomes(ext, o, entries)[j])
    ensures Lookup(entries, o.fields[k].0).Some?
    ensures D.ValidateObject(ext, o, Obj(entries)) ==
            Err(WithPathPrefix(D.Validate(ext, o.fields[k].1, Lookup(entries, o.fields[k].0).value).error, o.fields[k].0))
  {
    var rs := D.FieldOutcomes(ext, o, entries);
    FieldsFirstFailure(S.Names(o.fields), rs, 0, k);
    assert S.FirstMissing(o.required, Keys(entries), 0).None?;
  }

  /** The draft has no strict mode: `strict()` changes nothing it computes. */
  lemma DraftIgnoresStrict(ext: Externals, o: S.ObjectSchema, v: Value)
    requires forall f :: f in o.fields ==> D.UnionFree(f.1)
    ensures D.ValidateObject(ext, S.Strict(o), v) == D.ValidateObject(ext, o, v)
  {
    if v.Obj? {
      assert D.FieldOutcomes(ext, S.Strict(o), v.entries) == D.FieldOutcomes(ext, o, v.entries);
    }
  }

  /**
   * Where the verdicts part: an input the draft accepts but that has a key no field
   * declares is rejected by a strict schema with "object.unknown_field".
   */
  lemma DraftAcceptsUnknownKey(ext: Externals, o: S.ObjectSchema, entries: seq<(string, Value)>, key: string)
    requires forall f :: f in o.fields ==> D.UnionFree(f.1)
    requires S.IsStrict(o) && key in Keys(entries) && key !in S.Names(o.fields)
    requires D.ValidateObject(ext, o, Obj(entries)).Ok?
    ensures S.ValidateObject(ext, o, Obj(entries)).Err?
    ensures S.ValidateObject(ext, o, Obj(entries)).error.code == "object.unknown_field"
  {
    var keys := Keys(entries);
    var i :| 0 <= i < |keys| && keys[i] == key;
    assert S.FirstUnknown(keys, S.Names(o.fields), 0).Some?;
  }

  // ---- the whole tree ----

  /** Neither of the draft's missing features occurs anywhere in the schema: no optional boolean, no strict object. */
  ghost predicate Comparable(s: S.Schema)
    decreases s
  {
    match s
    case Boolean(b) => !b.optional
    case Array(a) => Comparable(a.item)
    case Object(o) => !S.IsStrict(o) && forall f :: f in o.fields ==> Comparable(f.1)
    case _ => true
  }

  /**
   * On every union-free schema without optional booleans and strict objects, the draft
   * and the schemas' own validation accept the same inputs and return the same values.
   */
  lemma {:induction false} SameVerdicts(ext: Externals, s: S.Schema, v: Value)
    requires D.UnionFree(s) && Comparable(s)
    ensures Agree(D.Validate(ext, s, v), S.Validate(ext, s, v))
    decreases s
  {
    match s
    case String(t) => DraftString(ext, t, v);
    case Number(n) => DraftNumber(ext, n, v);
    case Boolean(b) =>
    case Array(a) =>
      if v.Arr? {
        forall j | 0 <= j < |v.items|
          ensures Agree(D.Validate(ext, a.item, v.items[j]), S.Validate(ext, a.item, v.items[j]))
        {
          SameVerdicts(ext, a.item, v.items[j]);
        }
      }
      DraftArray(ext, a, v);
    case Object(o) =>
      if v.Obj? {
        forall f, x | f in o.fields && Lookup(v.entries, f.0) == Some(x)
          ensures Agree(D.Validate(ext, f.1, x), S.Validate(ext, f.1, x))
        {
          SameVerdicts(ext, f.1, x);
        }
      }
      DraftObject(ext, o, v);
  }
}
