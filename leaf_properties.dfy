/**
 * What the string and number validators promise: how null and wrongly typed input
 * fail, which check reports first, that string length is counted in bytes, that the
 * single pattern slot keeps the last pattern set, and how number coercion behaves.
 */
module LeafProperties {

  import opened Wrappers
  import opened Text
  import opened Json
  import opened Errors
  import opened SchemaBase
  import opened StringSchemas
  import NumberSchemas

  // ---- strings ----

  /**
   * Null passes exactly when optional and otherwise fails with the required-field code;
   * any other non-string fails with the invalid-type code, recording "string" and the
   * input's type name; an accepted value comes back unchanged.
   */
  lemma StringShape(ext: Externals, s: StringSchema, v: Value)
    ensures v.Null? ==> (Validate(ext, s, v).Ok? <==> s.optional)
    ensures v.Null? && !s.optional ==>
              Validate(ext, s, v).Err? &&
              Validate(ext, s, v).error.code == "object.required" && Validate(ext, s, v).error.path == ""
    ensures !v.Null? && !v.Str? ==>
              Validate(ext, s, v).Err? &&
              Validate(ext, s, v).error.code == "object.invalid_type" &&
              Validate(ext, s, v).error.details.expected == Some("string") &&
              Validate(ext, s, v).error.details.actual == Some(TypeName(v))
    ensures Validate(ext, s, v).Ok? ==> Validate(ext, s, v).value == v
  {
  }

  predicate MinOk(s: StringSchema, t: string) {
    s.minLength.None? || ByteLen(t) >= s.minLength.value
  }

  predicate MaxOk(s: StringSchema, t: string) {
    s.maxLength.None? || ByteLen(t) <= s.maxLength.value
  }

  predicate PatternOk(ext: Externals, s: StringSchema, t: string) {
    s.pattern.None? || ext.matches(s.pattern.value, t)
  }

  predicate EmailOk(ext: Externals, s: StringSchema, t: string) {
    !s.email || ext.matches(EmailPattern, t)
  }

  /**
   * Only the first failing check is reported, in the order minimum, maximum, pattern,
   * e-mail, custom validators: each error code appears exactly when its own check fails
   * and every earlier one passes. The length errors carry their bound.
   */
  lemma StringCheckOrder(ext: Externals, s: StringSchema, t: string)
    ensures var r := Validate(ext, s, Str(t));
            (r.Err? && r.error.code == "string.too_short" <==> !MinOk(s, t)) &&
            (r.Err? && r.error.code == "string.too_long" <==> MinOk(s, t) && !MaxOk(s, t)) &&
            (r.Err? && r.error.code == "string.pattern" <==> MinOk(s, t) && MaxOk(s, t) && !PatternOk(ext, s, t)) &&
            (r.Err? && r.error.code == "string.email" <==>
               MinOk(s, t) && MaxOk(s, t) && PatternOk(ext, s, t) && !EmailOk(ext, s, t)) &&
            (r.Err? && r.error.code == "custom" <==>
               MinOk(s, t) && MaxOk(s, t) && PatternOk(ext, s, t) && EmailOk(ext, s, t) &&
               exists i :: 0 <= i < |s.custom| && s.custom[i](t).Err?)
    ensures var r := Validate(ext, s, Str(t));
            (!MinOk(s, t) ==> r.error.details.minLength == s.minLength) &&
            (MinOk(s, t) && !MaxOk(s, t) ==> r.error.details.maxLength == s.maxLength)
  {
  }

  /**
   * Length is the UTF-8 byte count, not the character count: a string of at most n
   * characters but more than n bytes (one "é" under a maximum of 1) is too long.
   */
  lemma LengthCountsBytes(ext: Externals, s: StringSchema, n: usize, t: string)
    requires s.minLength.None? || s.minLength.value <= ByteLen(t)
    requires |t| <= n < ByteLen(t)
    ensures !IsAscii(t)
    ensures var r := Validate(ext, MaxLength(s, n), Str(t));
            r.Err? && r.error.code == "string.too_long" && r.error.details.maxLength == Some(n)
  {
    ByteLenBounds(t);
    var m := MaxLength(s, n);
    assert MinOk(m, t) && !MaxOk(m, t);
    StringCheckOrder(ext, m, t);
  }

  /** One "é" is two bytes, so it meets the premise above. */
  lemma AccentIsTwoBytes()
    ensures |"\U{E9}"| == 1 && ByteLen("\U{E9}") == 2
  {
  }

  /** One pattern slot: `pattern`, `url`, `uuid` and `ip` each replace what was there; the last wins. */
  lemma LastPatternWins(s: StringSchema, p: string, q: string)
    ensures Pattern(Pattern(s, p), q) == Pattern(s, q)
    ensures Url(Pattern(s, p)).pattern == Some(UrlPattern)
    ensures Pattern(Uuid(s), q).pattern == Some(q)
    ensures Ip(Url(s)).pattern == Some(IpPattern)
  {
  }

  /** The codes whose overrides string validation reads. */
  predicate ReadByValidate(code: string) {
    code == "string.too_short" || code == "string.too_long" || code == "string.pattern" ||
    code == "string.email" || code == "string.required" || code == "string.invalid_type"
  }

  /** An override under a code that string validation never reads changes nothing. */
  lemma UnreadOverride(ext: Externals, s: StringSchema, code: string, message: string, v: Value)
    requires !ReadByValidate(code)
    ensures Validate(ext, ErrorMessage(s, code, message), v) == Validate(ext, s, v)
  {
    var r := ErrorMessage(s, code, message);
    assert ReadAlike(s, r);
    ValidateAlike(ext, s, r, v);
  }

  /** The two schemas' overrides agree on every code string validation reads. */
  ghost predicate ReadAlike(s: StringSchema, r: StringSchema) {
    forall c :: ReadByValidate(c) ==> GetErrorMessage(r.messages, c) == GetErrorMessage(s.messages, c)
  }

  /** Two string schemas that differ only in overrides validation never reads validate alike. */
  lemma ValidateAlike(ext: Externals, s: StringSchema, r: StringSchema, v: Value)
    requires ReadAlike(s, r) && r.(messages := s.messages) == s
    ensures Validate(ext, r, v) == Validate(ext, s, v)
  {
    SameTypeErrors(s, r, v);
    SameCheckErrors(s, r);
    if v.Str? {
      CheckAlike(ext, s, r, v.s);
    }
  }

  /** The checks on a string give the same result once each check's error is the same. */
  lemma CheckAlike(ext: Externals, s: StringSchema, r: StringSchema, t: string)
    requires r.(messages := s.messages) == s
    requires s.minLength.Some? ==> TooShort(r, s.minLength.value) == TooShort(s, s.minLength.value)
    requires s.maxLength.Some? ==> TooLong(r, s.maxLength.value) == TooLong(s, s.maxLength.value)
    requires s.pattern.Some? ==> PatternMismatch(r, s.pattern.value) == PatternMismatch(s, s.pattern.value)
    requires InvalidEmail(r) == InvalidEmail(s)
    ensures CheckString(ext, r, t) == CheckString(ext, s, t)
  {
    assert r.minLength == s.minLength && r.maxLength == s.maxLength && r.pattern == s.pattern &&
           r.email == s.email && r.custom == s.custom;
  }

  lemma SameTypeErrors(s: StringSchema, r: StringSchema, v: Value)
    requires ReadAlike(s, r)
    ensures InvalidType(r, v) == InvalidType(s, v) && Required(r) == Required(s) && InvalidEmail(r) == InvalidEmail(s)
  {
    assert ReadByValidate("string.invalid_type") && ReadByValidate("string.required") && ReadByValidate("string.email");
  }

  lemma SameCheckErrors(s: StringSchema, r: StringSchema)
    requires ReadAlike(s, r)
    ensures s.minLength.Some? ==> TooShort(r, s.minLength.value) == TooShort(s, s.minLength.value)
    ensures s.maxLength.Some? ==> TooLong(r, s.maxLength.value) == TooLong(s, s.maxLength.value)
    ensures s.pattern.Some? ==> PatternMismatch(r, s.pattern.value) == PatternMismatch(s, s.pattern.value)
  {
    assert ReadByValidate("string.too_short") && ReadByValidate("string.too_long") && ReadByValidate("string.pattern");
  }

  /**
   * The override that `url`, `uuid` and `ip` store is never read: a mismatch reports
   * "string.pattern" with the "string.pattern" message, so each validates exactly as the
   * bare pattern does.
   */
  lemma FormatMessagesUnused(ext: Externals, s: StringSchema, v: Value)
    ensures Validate(ext, Url(s), v) == Validate(ext, Pattern(s, UrlPattern), v)
    ensures Validate(ext, Uuid(s), v) == Validate(ext, Pattern(s, UuidPattern), v)
    ensures Validate(ext, Ip(s), v) == Validate(ext, Pattern(s, IpPattern), v)
  {
    UnreadOverride(ext, Pattern(s, UrlPattern), "string.url", "Invalid URL format", v);
    UnreadOverride(ext, Pattern(s, UuidPattern), "string.uuid", "Invalid UUID format", v);
    UnreadOverride(ext, Pattern(s, IpPattern), "string.ip", "Invalid IP address format", v);
  }

  // ---- numbers ----

  /**
   * Null passes exactly when optional, else "number.required"; a string is read only when
   * coercing, and an unreadable one fails "number.invalid_type" with actual
   * "string (not a valid number)"; any other non-number fails "number.invalid_type" with
   * expected "number" and the type name.
   */
  lemma NumberShape(ext: Externals, s: NumberSchemas.NumberSchema, v: Value)
    ensures v.Null? ==> (NumberSchemas.Validate(ext, s, v).Ok? <==> s.optional)
    ensures v.Null? && !s.optional ==> NumberSchemas.Validate(ext, s, v) == Err(NumberSchemas.Required(s))
    ensures v.Str? && s.coerce && ext.parseF64(v.s).Some? ==>
            NumberSchemas.Validate(ext, s, v) == NumberSchemas.ValidateNumber(ext, s, ext.parseF64(v.s).value)
    ensures v.Str? && s.coerce && ext.parseF64(v.s).None? ==>
            NumberSchemas.Validate(ext, s, v).Err? &&
            NumberSchemas.Validate(ext, s, v).error.details.actual == Some("string (not a valid number)")
    ensures (v.Bool? || v.Arr? || v.Obj? || (v.Str? && !s.coerce)) ==>
            NumberSchemas.Validate(ext, s, v).Err? &&
            NumberSchemas.Validate(ext, s, v).error.code == "number.invalid_type" &&
            NumberSchemas.Validate(ext, s, v).error.details.expected == Some("number") &&
            NumberSchemas.Validate(ext, s, v).error.details.actual == Some(TypeName(v))
  {
  }

  /** A coerced string that reads as an acceptable number comes back as that float, not as the string. */
  lemma CoercedComesBackANumber(ext: Externals, s: NumberSchemas.NumberSchema, t: string)
    requires s.coerce && ext.parseF64(t).Some?
    requires NumberSchemas.Validate(ext, s, Str(t)).Ok?
    ensures NumberSchemas.Validate(ext, s, Str(t)).value == Num(Float(ext.parseF64(t).value))
    ensures NumberSchemas.Validate(ext, s, Str(t)) != Ok(Str(t))
  {
  }

  /**
   * The integer check comes first, then the minimum, then the maximum, both inclusive;
   * each code appears exactly when its check fails and the earlier ones pass, and the
   * bound errors carry the bound cast to `i64`.
   */
  lemma NumberCheckOrder(ext: Externals, s: NumberSchemas.NumberSchema, x: real)
    ensures var r := NumberSchemas.ValidateNumber(ext, s, x);
            var intOk := !s.integer || !NumberSchemas.HasFraction(x);
            var minOk := s.min.None? || x >= s.min.value;
            (r.Err? && r.error.code == "number.integer" <==> !intOk) &&
            (r.Err? && r.error.code == "number.min" <==> intOk && !minOk) &&
            (r.Err? && r.error.code == "number.max" <==> intOk && minOk && s.max.Some? && x > s.max.value) &&
            (intOk && !minOk ==> r.error.details.min == Some(F64ToI64(s.min.value))) &&
            (intOk && minOk && s.max.Some? && x > s.max.value ==> r.error.details.max == Some(F64ToI64(s.max.value)))
  {
  }
}
