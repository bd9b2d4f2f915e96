# rusty-zod's validation engine, in Dafny

This project models the core of rusty-zod, a Rust library for checking JSON values
against schemas in the style of Zod, and proves what that core promises.

What a schema is:

- A schema is one of six variants (`SchemaType`): string, number, boolean, array,
  object or union.
- Each is built by chaining value-returning builders (`min_length`, `field`, `strict`,
  `strategy`, `error_message`, ...).
- `validate_schema_type` sends a JSON value to its variant's validator.

How the validators behave:

- Every validator fails fast: its checks run in a fixed order and the first failure is
  the error.
- Arrays and objects recurse into their children. A failing child's error is re-rooted
  under the item's decimal index or the field's name (`with_path_prefix`).
- A union tries its alternatives under one of three strategies:
  - First: the first success, else the last error;
  - All: every alternative must accept, and the input comes back;
  - Best: the first success, else the error with the least score.
- A `WithTransform` wrapper runs value transforms (lower/upper case, trim, number
  parsing, flooring, stringifying) before its inner schema.

Errors:

- The repository carries two drafts of the error type, and both are modelled.
  - The first (`src/error.rs`) has a flat context of bounds.
  - The second (`src/error/validation_error.rs`) has a per-code message table and
    `{placeholder}` rendering.
- The error-code enumeration (`src/error/error_code.rs`) is modelled too.

The alternative validators:

- `src/validators/mod.rs` is a second, free-standing set of validators over the same
  schemas.
- It is modelled as well, together with proofs of where it agrees with the schemas'
  own validators and where their verdicts part.

How the model is built:

- Each schema is a datatype, and its builders are functions on values.
- The specification of validation is a recursive function (`Schemas.Validate`).
- A composite's loop is specified by recursion over the loop index, on the sequence of
  its children's outcomes.
- The imperative side is in modules `Engine`, `DraftEngine` and the loop methods.
  There, the source's loops and early returns are written as `while` loops and
  `return`. Each is proved equal to its specification function.
- Calls the core makes into code it does not define are fields of one `Externals`
  value, passed in: the regex engine, `f64` parsing, number formatting and Unicode
  case mapping.

| file | module | what it holds |
|---|---|---|
| wrappers.dfy | Wrappers | `Option`, `Result` |
| json.dfy | Json | JSON values, serde_json numbers with their integer/float tag, object keys and lookup, type names |
| text.dfy | Text | `to_string` of integers, `str::replace`, UTF-8 byte length, `trim` |
| error_code.dfy | ErrorCodes | the `ErrorCode` enumeration, its codes and messages |
| errors.dfy | Errors | the shared error record, path prefixing, the first draft's builders and `format_message` |
| validation_error.dfy | DetailedErrors | the second draft: code table, builders, `format_message` |
| schema_base.dfy | SchemaBase | integer widths, message overrides, `Externals` |
| string_schema.dfy | StringSchemas | `StringSchema`, its builders, errors and validator |
| number_schema.dfy | NumberSchemas | `NumberSchema` |
| boolean_schema.dfy | BooleanSchemas | `BooleanSchema` |
| schemas.dfy | Schemas | `SchemaType`, array/object/union schemas, the specification of validation |
| engine.dfy | Engine | the validators as loops with early returns |
| transform.dfy | Transforms | `Transform::apply`, `WithTransform` and its builders |
| union_properties.dfy | UnionProperties | the three union strategies |
| composite_properties.dfy | CompositeProperties | arrays, objects, nesting and paths |
| leaf_properties.dfy | LeafProperties | strings and numbers |
| validation_properties.dfy | ValidationProperties | properties over every schema |
| draft_validators.dfy | DraftValidators | the alternative validators as functions |
| draft_engine.dfy | DraftEngine | the alternative validators as loops with early returns |
| draft_properties.dfy | DraftProperties | where the two sets of validators agree and where they part |

Observations the proofs record:

- The overrides that `url()`, `uuid()` and `ip()` store, under "string.url",
  "string.uuid" and "string.ip", are never read. A mismatch reports "string.pattern"
  like any other pattern (`LeafProperties.FormatMessagesUnused`).
- A custom validator's message does not reach the string schema's error. The
  conversion of `ErrorCode::Custom(msg)` to a code string yields "custom", and the
  second draft's table then gives "Validation error" (`DraftProperties.DraftString`).
- `into_schema_type` and every forwarding builder of `WithTransform` drop the
  transforms (`Transforms.TransformsLostBeforeMinLength`,
  `Transforms.IntoSchemaTypeForgetsTrim`).
- A number schema hands back `Number::from_f64` of the value it read, so an accepted
  integer such as `json!(42)` comes back as the float `json!(42.0)`, which serde_json
  tells apart from the input (`ValidationProperties.IntegerBecomesFloat`). An All union
  hands back its input, so there the integer stays as it was.

## Model

| member | source | states |
|---|---|---|
| Json.Lookup | src/schemas/object.rs:99 | `obj.get(name)`: the value under the first entry with that key, none when the key is absent |
| Json.AsF64 | src/schemas/number.rs:79 | `as_f64`: an integer's value, or the float itself |
| Json.AsI64 | src/schemas/transform.rs:61 | `as_i64`: defined exactly on the integers within `i64` range, with their value |
| Json.LookupDistinct | src/schemas/object.rs:99 | on a serde_json map, whose keys are distinct, `obj.get(name)` finds the one entry with that key |
| Json.TypeName | src/schemas/mod.rs:164-173 | the type name reported for each JSON variant |
| Text.NatToString | src/schemas/array.rs:78 | an index renders as a non-empty run of decimal digits without a leading zero |
| Text.NatToStringRoundTrip | src/schemas/array.rs:78 | reading a rendered index back gives the index |
| Text.NatToStringInjective | src/schemas/array.rs:78 | distinct indices give distinct path segments |
| Text.IntToString | src/error.rs:40-45 | a rendered bound starts with '-' exactly when it is negative, and holds only '-' and digits |
| Text.ReplaceAbsent | src/error.rs:40-45 | replacing a placeholder that does not occur leaves the text as it is |
| Text.LeadAbsent | src/error/validation_error.rs:167-174 | a text without a placeholder's first character does not contain the placeholder |
| Text.ReplacePlainPrefix | src/error.rs:40-45 | a prefix without the placeholder's first character passes through `replace` untouched |
| Text.ReplaceOnce | src/error.rs:40-45 | one placeholder between such a prefix and a rest without it becomes the replacement, and nothing else changes |
| Text.ReplaceAfterPlain | src/error/validation_error.rs:167-168 | a placeholder at the end of a text free of its first character is replaced exactly once, at the end |
| Text.ReplaceWhole | src/schemas/object.rs:92 | a text that is exactly the placeholder becomes the replacement |
| Text.Utf8Width | src/schemas/string.rs:118 | a character takes one to four bytes, and one exactly when it is ASCII |
| Text.ByteLenBounds | src/schemas/string.rs:117-137 | the byte length lies between the character count and four times it, and equals the count exactly on ASCII text |
| Text.TrimStart | src/schemas/transform.rs:43 | a suffix of the input that starts with no whitespace, every removed character being whitespace; the input itself when it already does |
| Text.TrimEnd | src/schemas/transform.rs:43 | a prefix of the input that ends with no whitespace, every removed character being whitespace; the input itself when it already does |
| Text.Trim | src/schemas/transform.rs:43 | a slice of the input with no whitespace at either end, everything outside it being whitespace |
| Text.TrimIdempotent | src/schemas/transform.rs:41-47 | trimming twice is trimming once |
| ErrorCodes.DefaultMessage | src/error/error_code.rs:26-47 | a custom code's message is its own text; every other code has a non-empty fixed message |
| ErrorCodes.Code | src/error/error_code.rs:49-70 | the code string is "custom" exactly for a custom code |
| ErrorCodes.Display | src/error/error_code.rs:73-77 | an error code displays as its code string, not its message |
| ErrorCodes.CodeRoundTrip | src/error/error_code.rs:49-70 | every variant other than Custom is recovered from its code string |
| ErrorCodes.CodesDistinct | src/error/error_code.rs:49-70 | distinct variants have distinct code strings, Custom payloads aside |
| ErrorCodes.CustomCodeIgnoresPayload | src/error/error_code.rs:45-68 | every custom code is "custom" whatever its message, while its default message is that message |
| Errors.PrefixPath | src/error.rs:102-109 | an empty path becomes the prefix; any other gets the prefix and a dot in front |
| Errors.WithPathPrefix | src/error.rs:102-109 | the path is re-rooted under the prefix and nothing else changes; the second draft's `with_path_prefix` at src/error/validation_error.rs:98-106 is the same operation |
| Errors.PrefixAllJoins | src/error.rs:102-109 | prefixes applied innermost first give the path outermost-to-innermost, joined by dots, ahead of the origin path, and keep the code |
| Errors.New | src/error.rs:49-64 | the given code and path, no message, no details |
| Errors.WithMessage | src/error.rs:66-69 | sets the message and nothing else |
| Errors.WithMin | src/error.rs:71-74 | sets the minimum and nothing else |
| Errors.WithMax | src/error.rs:76-79 | sets the maximum and nothing else |
| Errors.WithMinLength | src/error.rs:81-84 | sets the minimum length and nothing else |
| Errors.WithMaxLength | src/error.rs:86-89 | sets the maximum length and nothing else |
| Errors.WithPattern | src/error.rs:91-94 | sets the pattern and nothing else |
| Errors.WithTypeInfo | src/error.rs:96-100 | sets the expected and actual type names and nothing else |
| Errors.SettersCommute | src/error.rs:66-109 | setters of different fields, and path prefixing, can be applied in either order |
| Errors.SubstituteFrom | src/error.rs:32-47 | substituting the bindings from k on is one step with binding k, then the bindings after it |
| Errors.SubstituteUnset | src/error.rs:32-47 | with no bound set, the message comes back untouched |
| Errors.SubstituteAbsent | src/error.rs:32-47 | a message mentioning no set placeholder comes back untouched |
| Errors.Bindings | src/error.rs:34-46 | the four placeholders of the first draft, each non-empty |
| Errors.FormatMessage | src/error.rs:32-47 | the loop over the set bounds yields the substituted message, or "" without one |
| Errors.MinStep | src/error.rs:40-42 | the `{min}` step replaces the one `{min}` of a brace-free message by the bound's text |
| Errors.MaxStep | src/error.rs:43-45 | the `{max}` step replaces the one `{max}` of a brace-free message by the bound's text |
| Errors.FormattedMinMax | src/error.rs:32-47 | with both bounds set, a message holding `{min}` and then `{max}` gets each replaced by its bound's decimal text |
| Errors.FormatsBetween | src/error.rs:117-124 | "Value must be between {min} and {max}" with 5 and 10 formats as "Value must be between 5 and 10" |
| Errors.FormattedDefaults | src/error.rs:32-47 | no message gives ""; no bound set gives the message as it is |
| DetailedErrors.IsEmpty | src/error/validation_error.rs:39-48 | the details are empty exactly when none of the second draft's eight fields is set |
| DetailedErrors.UnknownCodeTemplate | src/error/validation_error.rs:54-71 | exactly the codes outside the table get "Validation error" |
| DetailedErrors.New | src/error/validation_error.rs:52-82 | the code, an empty path, empty details and the code's template as message |
| DetailedErrors.At | src/error/validation_error.rs:84-87 | replaces the path and nothing else |
| DetailedErrors.Message | src/error/validation_error.rs:89-92 | replaces the message and nothing else |
| DetailedErrors.WithDetails | src/error/validation_error.rs:108-111 | the caller's update applies to the details only |
| DetailedErrors.WithMinValue | src/error/validation_error.rs:113-116 | stores the integer minimum as the float `min_value` and changes nothing else |
| DetailedErrors.WithMaxValue | src/error/validation_error.rs:118-121 | stores the integer maximum as the float `max_value` and changes nothing else |
| DetailedErrors.WithTypes | src/error/validation_error.rs:123-127 | sets both type names and nothing else |
| DetailedErrors.Template | src/error/validation_error.rs:130-152 | rendering starts from the stored message, else from the code's template |
| DetailedErrors.Binding | src/error/validation_error.rs:157-188 | each of the thirteen placeholders is a non-empty text |
| DetailedErrors.DetailBindings | src/error/validation_error.rs:157-188 | the thirteen placeholders in the order they are replaced |
| DetailedErrors.RenderFromSubstitutes | src/error/validation_error.rs:157-188 | the replacement chain is substitution of the remaining bindings in order |
| DetailedErrors.ReplaceIfSet | src/error/validation_error.rs:159-188 | one `if let` step replaces a set placeholder, and the rest of the chain is unchanged by it |
| DetailedErrors.FormatMessage | src/error/validation_error.rs:129-192 | the returned text is the rendered template; the error keeps its template as message and changes nothing else |
| DetailedErrors.StoredMessageWins | src/error/validation_error.rs:130-131 | a stored message with no details set is returned as it stands |
| DetailedErrors.RenderMinOnly | src/error/validation_error.rs:157-188 | with only `min_value` set, a plain text ending in `{min_value}` gets the float's text in its place and nothing else changes |
| DetailedErrors.MinValueRendered | src/error/validation_error.rs:298-317 | a "number.too_small" error with `min_value` set through `with_details` renders as "Number must be greater than or equal to " and the float's `to_string` |
| DetailedErrors.TypesNeedBoth | src/error/validation_error.rs:182-188 | with only one type name set, neither type placeholder is replaced |
| SchemaBase.GetErrorMessage | src/schemas/mod.rs:144-146 | the override under a code, if any |
| SchemaBase.SetErrorMessage | src/schemas/object.rs:44-47 | the override under the code is the new message; the others stay |
| SchemaBase.MessageOr | src/schemas/object.rs:80-81 | the override when there is one, else the default text |
| SchemaBase.UsizeToI64 | src/schemas/array.rs:63 | `as i64` on a `usize`: the value when it fits, else wrapped into the `i64` range |
| SchemaBase.F64ToI64 | src/schemas/number.rs:119 | `as i64` on a float: truncated toward zero and saturated at the `i64` bounds |
| StringSchemas.Default | src/schemas/string.rs:19-31 | no bound, pattern, e-mail check, override or validator; required |
| StringSchemas.MinLength | src/schemas/string.rs:34-37 | sets the minimum, keeps the rest |
| StringSchemas.MaxLength | src/schemas/string.rs:39-42 | sets the maximum, keeps the rest |
| StringSchemas.Pattern | src/schemas/string.rs:44-47 | the single pattern slot holds the new pattern, whatever it held |
| StringSchemas.Email | src/schemas/string.rs:49-52 | turns the e-mail check on, keeps the rest |
| StringSchemas.Optional | src/schemas/string.rs:54-57 | makes the schema optional, keeps the rest |
| StringSchemas.ErrorMessage | src/schemas/string.rs:59-62 | the override under the code is the message; other codes and settings are kept |
| StringSchemas.Custom | src/schemas/string.rs:64-70 | appends the validator after those registered before it |
| StringSchemas.Url | src/schemas/string.rs:72-75 | the URL pattern in the pattern slot plus an override under "string.url" |
| StringSchemas.Uuid | src/schemas/string.rs:77-80 | the UUID pattern in the pattern slot plus an override under "string.uuid" |
| StringSchemas.Ip | src/schemas/string.rs:82-85 | the IPv4 pattern in the pattern slot plus an override under "string.ip" |
| StringSchemas.FirstRejection | src/schemas/string.rs:159-163 | none exactly when every validator accepts; otherwise the message of the first one that rejects |
| StringSchemas.RunValidators | src/schemas/string.rs:159-163 | the loop over the validators stops at the first rejection and returns its message |
| StringSchemas.TooShort | src/schemas/string.rs:119-124 | "string.too_short" at the root with the minimum recorded |
| StringSchemas.TooLong | src/schemas/string.rs:130-135 | "string.too_long" at the root with the maximum recorded |
| StringSchemas.PatternMismatch | src/schemas/string.rs:141-146 | "string.pattern" at the root with the pattern recorded |
| StringSchemas.InvalidEmail | src/schemas/string.rs:153-155 | "string.email" at the root |
| StringSchemas.Rejected | src/schemas/string.rs:161 | a custom rejection is the code "custom" with the generic text |
| StringSchemas.Required | src/schemas/string.rs:167-169 | null on a required string: "object.required" at the root |
| StringSchemas.InvalidType | src/schemas/string.rs:170-176 | "object.invalid_type" recording "string" and the input's type name |
| StringSchemas.ValidateString | src/schemas/string.rs:113-178 | the validator with its early returns computes the specification |
| StringSchemas.AcceptsExactly | src/schemas/string.rs:113-166 | a string is accepted exactly when it meets both byte bounds, the pattern, the e-mail check and every validator; it comes back unchanged |
| NumberSchemas.Default | src/schemas/number.rs:17-28 | no bound, no integer check, no coercion, required, no override |
| NumberSchemas.Min | src/schemas/number.rs:31-34 | sets the minimum, keeps the rest |
| NumberSchemas.Max | src/schemas/number.rs:36-39 | sets the maximum, keeps the rest |
| NumberSchemas.Integer | src/schemas/number.rs:41-44 | turns the integer check on, keeps the rest |
| NumberSchemas.Coerce | src/schemas/number.rs:46-49 | turns string coercion on, keeps the rest |
| NumberSchemas.Optional | src/schemas/number.rs:51-54 | makes the schema optional, keeps the rest |
| NumberSchemas.ErrorMessage | src/schemas/number.rs:56-59 | the override under the code is the message; other codes and settings are kept |
| NumberSchemas.NotInteger | src/schemas/number.rs:108-112 | "number.integer" at the root |
| NumberSchemas.TooSmall | src/schemas/number.rs:114-120 | "number.min" at the root with the minimum cast to `i64` |
| NumberSchemas.TooLarge | src/schemas/number.rs:123-129 | "number.max" at the root with the maximum cast to `i64` |
| NumberSchemas.Unparsable | src/schemas/number.rs:85-88 | "number.invalid_type" with "number" expected and "string (not a valid number)" found |
| NumberSchemas.Required | src/schemas/number.rs:91-93 | null on a required number: "number.required" at the root |
| NumberSchemas.InvalidType | src/schemas/number.rs:94-97 | "number.invalid_type" with "number" expected and the input's type name found |
| NumberSchemas.ValidateNumber | src/schemas/number.rs:107-133 | a number is accepted exactly when it passes the integer check and both inclusive bounds, and then comes back as the float `from_f64` makes of it |
| BooleanSchemas.Default | src/schemas/boolean.rs:7-11 | required, no override |
| BooleanSchemas.Optional | src/schemas/boolean.rs:14-17 | makes the schema optional, keeps the overrides |
| BooleanSchemas.ErrorMessage | src/schemas/boolean.rs:19-22 | the override under the code is the message; other codes and the optional flag are kept |
| BooleanSchemas.Required | src/schemas/boolean.rs:36-38 | "boolean.required" at the root |
| BooleanSchemas.InvalidType | src/schemas/boolean.rs:39-42 | "boolean.invalid_type" with "boolean" expected and the input's type name found |
| BooleanSchemas.Validate | src/schemas/boolean.rs:32-44 | a boolean comes back as itself, null passes exactly when optional, anything else is the wrong type |
| Schemas.Names | src/schemas/object.rs:10 | the declared field names, in order |
| Schemas.DistinctCons | src/schemas/object.rs:10 | a new name in front of distinct names keeps them distinct |
| Schemas.FieldSchema | src/schemas/object.rs:88 | `fields.get(name)`: present exactly for a declared name, and then that field's schema |
| Schemas.NewArray | src/schemas/array.rs:17-25 | the item schema, no bounds, required, no override |
| Schemas.MinItems | src/schemas/array.rs:27-30 | sets the minimum item count, keeps the rest |
| Schemas.MaxItems | src/schemas/array.rs:32-35 | sets the maximum item count, keeps the rest |
| Schemas.OptionalArray | src/schemas/array.rs:37-40 | makes the array optional, keeps the rest |
| Schemas.ArrayErrorMessage | src/schemas/array.rs:42-45 | the override under the code is the message; the rest is kept |
| Schemas.NewObject | src/schemas/object.rs:16-25 | no field, nothing required, required itself, no override |
| Schemas.InsertField | src/schemas/object.rs:29 | map insertion: the name now has the new schema, other names keep theirs, names stay distinct |
| Schemas.InsertName | src/schemas/object.rs:30 | set insertion: the name is added, names stay distinct |
| Schemas.Field | src/schemas/object.rs:28-32 | declares the field and makes its name required, keeping the names distinct |
| Schemas.OptionalField | src/schemas/object.rs:34-37 | declares the field and leaves the required set alone |
| Schemas.OptionalObject | src/schemas/object.rs:39-42 | makes the object optional, keeps the rest |
| Schemas.ObjectErrorMessage | src/schemas/object.rs:44-47 | the override under the code is the message; the rest is kept |
| Schemas.Strict | src/schemas/object.rs:49-51 | strict mode is the "object.unknown_field" override "Unknown field: {field}" |
| Schemas.NewUnion | src/schemas/mod.rs:60-66 | the alternatives, the First strategy, no override |
| Schemas.WithStrategy | src/schemas/mod.rs:68-71 | sets the strategy, keeps the rest |
| Schemas.UnionErrorMessage | src/schemas/mod.rs:73-76 | the override under the code is the message; the rest is kept |
| Schemas.MinItemsError | src/schemas/array.rs:60-63 | "array.min_items" at the root with the minimum cast to `i64` |
| Schemas.MaxItemsError | src/schemas/array.rs:69-72 | "array.max_items" at the root with the maximum cast to `i64` |
| Schemas.ArrayRequired | src/schemas/array.rs:84-87 | "array.required" at the root |
| Schemas.ArrayInvalidType | src/schemas/array.rs:88-91 | "array.invalid_type" with "array" expected and the input's type name found |
| Schemas.MissingField | src/schemas/object.rs:79-81 | "object.required" at the missing field's name |
| Schemas.UnknownField | src/schemas/object.rs:89-92 | "object.unknown_field" at the undeclared key |
| Schemas.ObjectRequired | src/schemas/object.rs:108-111 | "object.required" at the root |
| Schemas.ObjectInvalidType | src/schemas/object.rs:112-115 | "object.invalid_type" with "object" expected and the input's type name found |
| Schemas.NoMatch | src/schemas/mod.rs:96-97 | "union.no_match" at the root with its fixed message |
| Schemas.FirstMissing | src/schemas/object.rs:77-83 | none exactly when every required name from index i is a key of the input; otherwise a required name that is absent |
| Schemas.FirstUnknown | src/schemas/object.rs:86-95 | none exactly when every input key from index i is declared; otherwise an input key that is not |
| Schemas.ItemOutcomes | src/schemas/array.rs:76-80 | one outcome per item |
| Schemas.FieldOutcomes | src/schemas/object.rs:98-104 | one outcome per declared field |
| Schemas.Alternatives | src/schemas/mod.rs:86-129 | one outcome per alternative |
| Engine.ValidateSchemaType | src/schemas/mod.rs:153-162 | the dispatch computes the specification on every schema |
| Engine.ValidateArray | src/schemas/array.rs:55-93 | the bounds and the item loop with its early return compute the specification |
| Engine.ValidateObject | src/schemas/object.rs:73-117 | the required, strict and field loops with their early returns compute the specification |
| Engine.FindMissing | src/schemas/object.rs:77-83 | the loop over required names finds the first one missing from the input |
| Engine.FindUnknown | src/schemas/object.rs:86-95 | the loop over input keys finds the first undeclared one |
| Engine.CheckFields | src/schemas/object.rs:98-104 | the loop over declared fields finds the first present field that fails, under its name |
| Engine.ValidateUnion | src/schemas/mod.rs:86-129 | the strategy dispatch computes the specification |
| Engine.FirstStrategy | src/schemas/mod.rs:88-98 | the First loop returns the first success, else the last error, else "union.no_match" |
| Engine.AllStrategy | src/schemas/mod.rs:99-104 | the All loop stops at the first error, else returns the input |
| Engine.BestStrategy | src/schemas/mod.rs:105-127 | the Best loop returns the first success, else the error recorded with the least score |
| UnionProperties.FirstOfReachesSuccess | src/schemas/mod.rs:88-95 | after only errors, the First loop returns the first success |
| UnionProperties.FirstOfAllFail | src/schemas/mod.rs:89-97 | when every outcome fails, First returns the last error, or the recorded one when none is left |
| UnionProperties.FirstOfWitness | src/schemas/mod.rs:88-95 | a First success is one of the outcomes |
| UnionProperties.FirstOfSucceeds | src/schemas/mod.rs:88-95 | First succeeds once any later outcome succeeds |
| UnionProperties.AllOfAccepts | src/schemas/mod.rs:99-103 | All succeeds exactly when every outcome does, and then returns the input |
| UnionProperties.AllOfStopsAt | src/schemas/mod.rs:99-103 | All returns the first error |
| UnionProperties.BestOfReachesSuccess | src/schemas/mod.rs:109-111 | after only errors, the Best loop returns the first success |
| UnionProperties.BestOfSucceeds | src/schemas/mod.rs:109-111 | Best succeeds once any later outcome succeeds |
| UnionProperties.BestOfKeeps | src/schemas/mod.rs:112-126 | errors scoring no less than the recorded best leave it in place |
| UnionProperties.BestOfFinds | src/schemas/mod.rs:112-126 | with all failing, the earliest error of strictly least score is returned |
| UnionProperties.BestOfWitness | src/schemas/mod.rs:109-111 | a Best success is one of the outcomes |
| UnionProperties.FirstSuccessWins | src/schemas/mod.rs:88-120 | First and Best return exactly the first accepting alternative's result |
| UnionProperties.FirstAllFailLastError | src/schemas/mod.rs:89-97 | First with every alternative failing returns the last one's error; with none, "union.no_match" |
| UnionProperties.AllNeedsEvery | src/schemas/mod.rs:99-104 | All accepts exactly when every alternative accepts the input, and returns the input, so an empty union accepts |
| UnionProperties.AllFirstError | src/schemas/mod.rs:99-104 | All fails with the first rejecting alternative's error |
| UnionProperties.BestEarliestLeastScore | src/schemas/mod.rs:105-127 | Best with every alternative failing returns the earliest error of least score |
| UnionProperties.BestAllMaxNoMatch | src/schemas/mod.rs:107-127 | an error scored `u32::MAX` is never kept: all so scored gives "union.no_match" |
| UnionProperties.SuccessIsAnAlternative | src/schemas/mod.rs:86-129 | a First or Best success is some alternative's own result |
| UnionProperties.AnAlternativeSuffices | src/schemas/mod.rs:86-129 | First and Best accept when any one alternative accepts |
| CompositeProperties.ItemsAccepted | src/schemas/array.rs:76-80 | the item loop finds no failure exactly when every item from index i is accepted |
| CompositeProperties.ItemsFirstFailure | src/schemas/array.rs:76-80 | the item loop reports the first failing item's error under its index |
| CompositeProperties.ArrayShape | src/schemas/array.rs:84-91 | null passes exactly when optional, else "array.required"; any other non-array is the wrong type |
| CompositeProperties.ArrayAcceptsExactly | src/schemas/array.rs:55-83 | an array is accepted exactly when its length is within the inclusive bounds and every item is accepted; it comes back unchanged |
| CompositeProperties.ArrayBoundsFirst | src/schemas/array.rs:58-74 | the minimum is checked before the maximum and both before any item |
| CompositeProperties.ArrayFirstFailingItem | src/schemas/array.rs:76-80 | the first rejected item's error comes back under its decimal index |
| CompositeProperties.FieldsAccepted | src/schemas/object.rs:98-104 | the field loop finds no failure exactly when every field from index i is absent or accepted |
| CompositeProperties.FieldsFirstFailure | src/schemas/object.rs:98-104 | the field loop reports the first failing field's error under its name |
| CompositeProperties.FieldOutcomesAgree | src/schemas/object.rs:98-104 | the field loop's outcomes are the declared fields' verdicts on the input |
| CompositeProperties.ObjectShape | src/schemas/object.rs:108-115 | null passes exactly when optional, else "object.required"; any other non-object is the wrong type |
| CompositeProperties.ObjectAcceptsExactly | src/schemas/object.rs:73-107 | an object is accepted exactly when it has every required key, no undeclared key if strict, and every present field accepted; it comes back unchanged |
| CompositeProperties.ObjectMissingFirst | src/schemas/object.rs:77-83 | a missing required field is reported first, at a required name absent from the input |
| CompositeProperties.StrictRejectsUnknown | src/schemas/object.rs:85-95 | in strict mode an undeclared key fails "object.unknown_field" at that key, the key put into the message |
| CompositeProperties.ObjectFirstFailingField | src/schemas/object.rs:98-104 | past the key checks, the first present rejected field decides the error, under its name |
| CompositeProperties.OptionalAfterFieldStaysRequired | src/schemas/object.rs:28-37 | declaring a field optional after declaring it required keeps it required, with the later schema |
| CompositeProperties.WrapIsField | src/schemas/object.rs:28-32 | a single-field wrapper is what `field` makes on an empty object |
| CompositeProperties.NestedFieldPath | src/schemas/object.rs:98-104 | three nested objects report a leaf's error at "outer.middle.inner" with its code |
| CompositeProperties.ZipTooShort | src/schemas/string.rs:117-125 | a three-byte zipcode under a five-byte minimum fails "string.too_short" at the root |
| CompositeProperties.NestedStep | src/schemas/object.rs:98-104 | one level of nesting puts the field's name in front of the inner error's path |
| ValidationProperties.OutputIsInputOrNumber | src/schemas/mod.rs:153-162 | an accepted value comes back unchanged or as a float-tagged number |
| ValidationProperties.NumberComesBack | src/schemas/number.rs:132 | through any schema, an accepted number comes back as it was (an All union) or as the float of its value |
| ValidationProperties.IntegerBecomesFloat | src/schemas/number.rs:132 | a number schema hands an accepted integer back as a float, which differs from the input |
| ValidationProperties.Idempotent | src/schemas/mod.rs:153-162 | validating an accepted value's output again accepts it with the same output |
| LeafProperties.StringShape | src/schemas/string.rs:113-178 | null passes exactly when optional; a non-string fails with the invalid-type code and both type names; an accepted string comes back unchanged |
| LeafProperties.StringCheckOrder | src/schemas/string.rs:117-163 | each string error code appears exactly when its check fails and every earlier one passes: minimum, maximum, pattern, e-mail, validators |
| LeafProperties.LengthCountsBytes | src/schemas/string.rs:128-137 | the maximum counts UTF-8 bytes: a short non-ASCII text can be too long |
| LeafProperties.AccentIsTwoBytes | src/schemas/string.rs:129 | one "é" is one character and two bytes |
| LeafProperties.LastPatternWins | src/schemas/string.rs:44-85 | `pattern`, `url`, `uuid` and `ip` share one slot: the last one set wins |
| LeafProperties.UnreadOverride | src/schemas/string.rs:113-178 | an override under a code string validation never reads changes no result |
| LeafProperties.ValidateAlike | src/schemas/string.rs:113-178 | two schemas that differ only in unread overrides validate alike |
| LeafProperties.CheckAlike | src/schemas/string.rs:117-163 | the checks give the same result once each check's error is the same |
| LeafProperties.SameTypeErrors | src/schemas/string.rs:150-176 | the type and e-mail errors read only their own codes' overrides |
| LeafProperties.SameCheckErrors | src/schemas/string.rs:117-148 | the length and pattern errors read only their own codes' overrides |
| LeafProperties.FormatMessagesUnused | src/schemas/string.rs:72-85 | `url`, `uuid` and `ip` validate exactly as their bare patterns |
| LeafProperties.NumberShape | src/schemas/number.rs:75-99 | null passes exactly when optional; strings are read only when coercing; an unreadable string and any other non-number fail the invalid-type code |
| LeafProperties.CoercedComesBackANumber | src/schemas/number.rs:82-84 | a coerced string that is accepted comes back as the float it reads as, not as the string |
| LeafProperties.NumberCheckOrder | src/schemas/number.rs:107-133 | the integer check, then the minimum, then the maximum, both inclusive; each bound error records its bound |
| Transforms.Apply | src/schemas/transform.rs:24-80 | each transform's effect per JSON variant: a custom one is its function; strings only for case and trim; a readable string parses to a float; ToInteger keeps an `i64` integer and floors anything else into a float; `to_string` of scalars, with a number written by `Number`'s `Display` (digits for an integer, `showJsonFloat` for a float) |
| Transforms.ApplyIdempotent | src/schemas/transform.rs:41-77 | trimming, flooring and stringifying twice is doing it once |
| Transforms.ApplyAllConcat | src/schemas/transform.rs:193-196 | running two transform lists in turn is running their concatenation |
| Transforms.StringTransformsKeepNonStrings | src/schemas/transform.rs:27-58 | string-only transforms leave any non-string untouched |
| Transforms.RunTransforms | src/schemas/transform.rs:193-196 | the loop runs the transforms in list order |
| Transforms.New | src/schemas/transform.rs:135-140 | a wrapper around the schema with no transform |
| Transforms.Push | src/schemas/transform.rs:142-145 | the inherent `with_transform` appends to this wrapper's list |
| Transforms.IntoInner | src/schemas/transform.rs:147-149 | `into_inner` returns the wrapped schema; re-wrapping it gives the wrapper without its list |
| Transforms.Chain | src/schemas/transform.rs:185-189 | the trait's `with_transform` makes a new wrapper around the receiver |
| Transforms.ValidateWith | src/schemas/transform.rs:191-199 | transform, then the wrapped schema's result |
| Transforms.IntoSchemaType | src/schemas/transform.rs:201-203 | a wrapper of a plain schema becomes that schema |
| Transforms.ValidateFlattens | src/schemas/transform.rs:191-203 | a wrapper validates like its innermost schema on the input run through every list, outer lists first |
| Transforms.PushRunsLast | src/schemas/transform.rs:142-145 | the inherent `with_transform` runs after the existing transforms |
| Transforms.ChainRunsFirst | src/schemas/transform.rs:185-189 | the trait's `with_transform` on a wrapper runs before all of its transforms |
| Transforms.Forward | src/schemas/transform.rs:152-183 | a forwarding builder reaches the string schema and empties every level's transform list |
| Transforms.ForwardDropsTransforms | src/schemas/transform.rs:152-183 | after a forwarding builder the raw input is validated |
| Transforms.MinLength | src/schemas/transform.rs:153-155 | forwards `min_length`, dropping the transforms |
| Transforms.MaxLength | src/schemas/transform.rs:157-159 | forwards `max_length`, dropping the transforms |
| Transforms.Pattern | src/schemas/transform.rs:161-163 | forwards `pattern`, dropping the transforms |
| Transforms.Email | src/schemas/transform.rs:165-167 | forwards `email`, dropping the transforms |
| Transforms.Optional | src/schemas/transform.rs:169-171 | forwards `optional`, dropping the transforms |
| Transforms.ErrorMessage | src/schemas/transform.rs:173-175 | forwards `error_message`, dropping the transforms |
| Transforms.CustomValidator | src/schemas/transform.rs:177-182 | forwards `custom`, dropping the transforms |
| Transforms.TransformsLostBeforeMinLength | src/schemas/transform.rs:152-155 | `trim().to_uppercase().min_length(n)` judges the raw string and returns it unchanged |
| Transforms.IntoSchemaTypeForgetsTrim | src/schemas/transform.rs:201-203 | a trimmed string the wrapper accepts can be rejected once `into_schema_type` has dropped the trim |
| Transforms.MaxLengthOnly | src/schemas/string.rs:128-137 | a schema with only a byte maximum accepts exactly the strings within it |
| DraftValidators.TooShort | src/validators/mod.rs:9-15 | "string.too_short" at the root with the minimum recorded |
| DraftValidators.TooLong | src/validators/mod.rs:18-24 | "string.too_long" at the root with the maximum recorded |
| DraftValidators.PatternMismatch | src/validators/mod.rs:27-33 | "string.pattern" at the root with the pattern recorded |
| DraftValidators.InvalidEmail | src/validators/mod.rs:36-42 | "string.email" at the root |
| DraftValidators.Rejected | src/validators/mod.rs:45-49 | "string.custom" carrying the validator's own message |
| DraftValidators.StringRequired | src/validators/mod.rs:54-56 | "string.required" at the root |
| DraftValidators.StringInvalidType | src/validators/mod.rs:57-60 | "string.invalid_type" with "string" expected and the input's type name found |
| DraftValidators.Unparsable | src/validators/mod.rs:74-76 | "number.invalid_type" with "number" expected and "string (not a valid number)" found |
| DraftValidators.NumberRequired | src/validators/mod.rs:79-80 | "number.required" at the root |
| DraftValidators.NumberInvalidType | src/validators/mod.rs:81-83 | "number.invalid_type" with "number" expected and the input's type name found |
| DraftValidators.NotInteger | src/validators/mod.rs:86-89 | "number.integer" at the root |
| DraftValidators.TooSmall | src/validators/mod.rs:91-97 | "number.min" with the minimum cast to `i64` |
| DraftValidators.TooLarge | src/validators/mod.rs:99-105 | "number.max" with the maximum cast to `i64` |
| DraftValidators.ValidateBoolean | src/validators/mod.rs:115-123 | exactly booleans are accepted, as themselves; null too is the wrong type |
| DraftValidators.MinItemsError | src/validators/mod.rs:134-139 | "array.min_items" at the root, with no bound recorded |
| DraftValidators.MaxItemsError | src/validators/mod.rs:141-146 | "array.max_items" at the root, with no bound recorded |
| DraftValidators.RequiredError | src/validators/mod.rs:157-158 | the given required code at the root |
| DraftValidators.InvalidTypeError | src/validators/mod.rs:159-161 | the kind's invalid-type code with it expected and the input's type name found |
| DraftValidators.MissingField | src/validators/mod.rs:174-178 | "object.required" at the missing field's name |
| DraftValidators.ItemOutcomes | src/validators/mod.rs:148-152 | one outcome per item |
| DraftValidators.FieldOutcomes | src/validators/mod.rs:181-187 | one outcome per declared field |
| DraftEngine.ValidateSchemaType | src/validators/mod.rs:215-223 | the dispatch computes the draft's specification on every union-free schema |
| DraftEngine.ValidateString | src/validators/mod.rs:4-62 | the string validator with its early returns computes the draft's specification |
| DraftEngine.ValidateNumber | src/validators/mod.rs:69-108 | the number validator with its early returns computes the draft's specification |
| DraftEngine.ValidateArray | src/validators/mod.rs:130-163 | the bounds and the item loop compute the draft's specification |
| DraftEngine.ValidateObject | src/validators/mod.rs:170-198 | the required loop and the field loop compute the draft's specification |
| DraftEngine.CheckFields | src/validators/mod.rs:181-187 | the loop over declared fields finds the first present field that fails, under its name |
| DraftProperties.DraftString | src/validators/mod.rs:4-62 | both string validators accept the same inputs with the same values; their errors differ only in the required, invalid-type and custom codes and in messages |
| DraftProperties.DraftNumber | src/validators/mod.rs:69-108 | both number validators accept the same inputs with the same values and fail with the same code and details |
| DraftProperties.DraftNumberIgnoresMessages | src/validators/mod.rs:69-108 | the draft's number errors read no override |
| DraftProperties.DraftBooleanRejectsNull | src/validators/mod.rs:115-123 | an optional boolean schema accepts null where the draft rejects it |
| DraftProperties.ItemLoopsAgree | src/validators/mod.rs:148-152 | item loops over outcomes with the same verdicts both fail or both pass |
| DraftProperties.DraftArray | src/validators/mod.rs:130-163 | both array validators agree once their items do |
| DraftProperties.DraftFirstFailingItem | src/validators/mod.rs:148-152 | the draft too reports the first rejected item's error under its index |
| DraftProperties.FieldLoopsAgree | src/validators/mod.rs:181-187 | field loops passing at the same indices both fail or both pass |
| DraftProperties.FieldVerdictsAgree | src/validators/mod.rs:181-187 | the field loops pass at the same indices once the present fields' verdicts agree |
| DraftProperties.DraftObject | src/validators/mod.rs:170-198 | both object validators agree on non-strict objects once their fields do |
| DraftProperties.DraftObjectMissingFirst | src/validators/mod.rs:174-179 | a missing required name fails the draft first: the first required name the input lacks, as "object.required" with the draft's fixed message |
| DraftProperties.DraftObjectFirstFailingField | src/validators/mod.rs:181-187 | with every required name present, the first present field the draft rejects gives its error under the field's name |
| DraftProperties.DraftIgnoresStrict | src/validators/mod.rs:170-190 | `strict()` changes nothing the draft computes |
| DraftProperties.DraftAcceptsUnknownKey | src/validators/mod.rs:170-190 | an input the draft accepts with an undeclared key fails a strict schema with "object.unknown_field" |
| DraftProperties.SameVerdicts | src/validators/mod.rs:215-223 | on every union-free schema without optional booleans and strict objects, both sets of validators accept the same inputs with the same values |

## Left out

- Regular expressions: `Regex::new(..).is_match` is the external `matches`. Its
  semantics, and the panic on an invalid pattern, are not modelled.
- Floating point: a serde_json number is an integer or a float (`Json.Number`), and
  floats are reals, as are the second draft's `min_value` and `max_value` details.
  - `parse::<f64>` is the external `parseF64`. `{}` formatting of an `f64` is
    `showNumber`, and `Display` of a float-tagged `Number` is `showJsonFloat`.
  - NaN, infinities and rounding are not modelled. That includes the rounding of
    `as_f64` on integers beyond 2^53.
  - `fract() != 0.0` is "is not an integer".
- Transforms.Apply: `parse::<f64>` also reads "NaN" and "inf", and ParseNumber's
  `from_f64(n).unwrap()` panics on them. `parseF64` yields only reals, so that panic is
  not modelled.
- NumberSchemas.ValidateNumber: a coerced "inf" or "NaN" that passes the checks reaches
  `from_f64(num).unwrap()` and panics; not modelled, for the same reason.
- DetailedErrors.WithMinValue: stores the integer bound exactly; the rounding of
  `min as f64` above 2^53 in magnitude is not modelled.
- DetailedErrors.WithMaxValue: likewise for `max as f64`.
- Case mapping: `to_lowercase` and `to_uppercase` are the externals `toLower` and
  `toUpper`; Unicode case tables are not modelled.
- Serialization: serde derive, `to_json`, `Display` of errors other than the code
  enumeration's, `ParseError` and `ObjectSchema::parse` from text are not part of this
  model. They are formatting and I/O around the engine.
- The `macros.rs` schema macros, the factory functions of `lib.rs` and `Arc`/`Send`/
  `Sync` are left out. They build the same values as the builders, or are about
  sharing between threads.
- `HashMap` and `HashSet` iteration order is unspecified. The model fixes it as the
  order of a sequence, so "the first missing field" or "the first unknown key" is the
  first in that order. The lemmas state only what holds for every order: some missing
  required name, some undeclared key.
- An object's entries need not have distinct keys (`Json.DistinctKeys`). A sequence with a
  repeated key stands for no serde_json value; on one, lookups take the first entry with
  the key, and the key loops see every entry. No lemma assumes distinct keys.
- Builders consume and return values, so aliasing does not arise. `format_message` of
  the second draft is a method that returns the updated error, not an update in place.
- StringSchemas.Rejected: the source turns `ErrorCode::Custom(msg)` into a code string, and
  the model takes that conversion as `code()`. So the error has code "custom", the
  custom message is lost and the table gives "Validation error".
- The second draft's `field_name` detail is set by no validator in this core, so no
  error carries it.
- The specification functions evaluate every child's outcome, a sequence, while the
  methods of `Engine` and `DraftEngine` stop at the source's early returns. The results
  are proved equal, but the amount of work done is not modelled.
- DraftEngine.ValidateSchemaType: the alternative validators have no arm for unions,
  which in Rust would not compile. The model requires a union-free schema.
- The trait helpers `transform`, `to_lowercase`, `to_uppercase`, `trim`,
  `parse_number`, `to_integer` and `to_string` (src/schemas/transform.rs:86-121) each
  call the trait's `with_transform` on one transform, which is `Transforms.Chain`.
  So do `StringSchema`'s inherent `trim`, `to_lower_case` and `to_upper_case`
  (src/schemas/string.rs:87-97), on a plain string schema.
- Some tests of the repository expect behaviour the code does not have, and the model
  follows the code:
  - src/lib.rs:160-173;
  - src/schemas/string.rs:262-263: it expects code "string.custom" and the custom
    validator's text, where the code gives "custom" and "Validation error" (see
    StringSchemas.Rejected above);
  - src/schemas/string.rs:292-322;
  - src/tests.rs:129.
