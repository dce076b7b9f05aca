/**
 * The part of zod (version 3) that the core's schemas use: `z.object` over string and
 * number fields, the `.min`, `.email` and `.max` checks, a `required_error` message,
 * one `.refine` comparing two fields, and `safeParse`.
 *
 * zod's own rules, as the schemas rely on them:
 *  - the fields are checked in the order the object declares them, each adding its
 *    issues, and unknown properties are dropped from the parsed value;
 *  - a value of the wrong type gives one issue, "Required" (or the field's
 *    `required_error`) when it is `undefined` and "Expected <type>, received <type>"
 *    otherwise; a type error aborts the object, so a refinement is not run;
 *  - a string runs all its checks, each failing one adding an issue;
 *  - `.min(n)` compares the UTF-16 length; `.max(n)` on a number is inclusive;
 *  - the refinement runs when no field had a type error, even if a check failed.
 * What `.email` accepts is a parameter (`isEmail`).
 */
module Schema {
  import opened Wrappers
  import opened JsValue
  import opened Text

  /** One entry of `error.issues`: where, and the message. */
  datatype Issue = Issue(path: seq<string>, message: string)

  datatype StringCheck = MinLength(bound: nat, message: string) | EmailFormat(message: string)

  datatype FieldType =
    | StringType(requiredError: Option<string>, checks: seq<StringCheck>)
    | NumberType(maxValue: real, maxMessage: string)

  datatype Field = Field(name: string, kind: FieldType)

  /** `.refine(data => data[left] === data[right], { message, path })`. */
  datatype Refinement = SameValue(left: string, right: string, message: string, path: seq<string>)

  datatype ObjectSchema = ObjectSchema(shape: seq<Field>, refinement: Option<Refinement>)

  /** Reading a property of a parsed JSON object. */
  function Property(fields: map<string, Value>, name: string): Value {
    if name in fields then fields[name] else Undefined
  }

  /** The message of an invalid-type issue. */
  function TypeIssueMessage(v: Value, expected: string, requiredError: Option<string>): (m: string)
    ensures v.Undefined? && requiredError.Some? ==> m == requiredError.value
    ensures v.Undefined? && requiredError.None? ==> m == "Required"
    ensures !v.Undefined? ==> m == "Expected " + expected + ", received " + TypeName(v)
  {
    if v.Undefined? then (if requiredError.Some? then requiredError.value else "Required")
    else "Expected " + expected + ", received " + TypeName(v)
  }

  // ----- the reference: what it means for a value to satisfy a schema -----

  predicate CheckPasses(c: StringCheck, s: string, isEmail: string -> bool) {
    match c
    case MinLength(bound, _) => Utf16Length(s) >= bound
    case EmailFormat(_) => isEmail(s)
  }

  predicate FieldValid(kind: FieldType, v: Value, isEmail: string -> bool) {
    match kind
    case StringType(_, checks) => v.Str? && forall i :: 0 <= i < |checks| ==> CheckPasses(checks[i], v.s, isEmail)
    case NumberType(maxValue, _) => v.Number? && v.n <= maxValue
  }

  /** The value has the type the field declares (whatever its checks say). */
  predicate FieldTyped(kind: FieldType, v: Value) {
    if kind.StringType? then v.Str? else v.Number?
  }

  predicate ShapeValid(shape: seq<Field>, fields: map<string, Value>, isEmail: string -> bool) {
    forall i :: 0 <= i < |shape| ==> FieldValid(shape[i].kind, Property(fields, shape[i].name), isEmail)
  }

  predicate ShapeTyped(shape: seq<Field>, fields: map<string, Value>) {
    forall i :: 0 <= i < |shape| ==> FieldTyped(shape[i].kind, Property(fields, shape[i].name))
  }

  predicate RefinementHolds(refinement: Option<Refinement>, fields: map<string, Value>) {
    refinement.None? || Property(fields, refinement.value.left) == Property(fields, refinement.value.right)
  }

  // ----- the checks, issue by issue -----

  function StringCheckIssues(s: string, checks: seq<StringCheck>, path: seq<string>, isEmail: string -> bool): (r: seq<Issue>)
    ensures |r| <= |checks|
    ensures forall k :: 0 <= k < |r| ==> r[k].path == path
    ensures r == [] <==> forall i :: 0 <= i < |checks| ==> CheckPasses(checks[i], s, isEmail)
    ensures r != [] ==> exists i :: 0 <= i < |checks| && !CheckPasses(checks[i], s, isEmail) && r[0].message == checks[i].message
    decreases |checks|
  {
    if checks == [] then []
    else
      var rest := StringCheckIssues(s, checks[1..], path, isEmail);
      assert forall i :: 1 <= i < |checks| ==> checks[i] == checks[1..][i - 1];
      if CheckPasses(checks[0], s, isEmail) then rest else [Issue(path, checks[0].message)] + rest
  }

  /** The issues of one field, and whether it had a type error. */
  datatype FieldResult = FieldResult(issues: seq<Issue>, typeError: bool)

  function CheckField(f: Field, v: Value, isEmail: string -> bool): (r: FieldResult)
    ensures r.issues == [] <==> FieldValid(f.kind, v, isEmail)
    ensures r.typeError <==> !FieldTyped(f.kind, v)
    ensures r.typeError ==> |r.issues| == 1
    ensures forall k :: 0 <= k < |r.issues| ==> r.issues[k].path == [f.name]
  {
    match f.kind
    case StringType(requiredError, checks) =>
      if v.Str? then FieldResult(StringCheckIssues(v.s, checks, [f.name], isEmail), false)
      else FieldResult([Issue([f.name], TypeIssueMessage(v, "string", requiredError))], true)
    case NumberType(maxValue, maxMessage) =>
      if v.Number? then FieldResult(if v.n > maxValue then [Issue([f.name], maxMessage)] else [], false)
      else FieldResult([Issue([f.name], TypeIssueMessage(v, "number", None))], true)
  }

  /** The fields in declaration order: their issues concatenated, and whether any had a type error. */
  function CheckShape(shape: seq<Field>, fields: map<string, Value>, isEmail: string -> bool): (r: FieldResult)
    ensures r.typeError ==> r.issues != []
    decreases |shape|
  {
    if shape == [] then FieldResult([], false)
    else
      var head := CheckField(shape[0], Property(fields, shape[0].name), isEmail);
      var rest := CheckShape(shape[1..], fields, isEmail);
      FieldResult(head.issues + rest.issues, head.typeError || rest.typeError)
  }

  function RefinementIssues(refinement: Option<Refinement>, fields: map<string, Value>): (r: seq<Issue>)
    ensures r == [] <==> RefinementHolds(refinement, fields)
  {
    if RefinementHolds(refinement, fields) then []
    else [Issue(refinement.value.path, refinement.value.message)]
  }

  function ShapeNames(shape: seq<Field>): set<string> {
    set i | 0 <= i < |shape| :: shape[i].name
  }

  /** `schema.safeParse(input)`: the parsed object, or every issue found. */
  function SafeParse(schema: ObjectSchema, input: Value, isEmail: string -> bool): (r: Result<map<string, Value>, seq<Issue>>)
    ensures r.Err? ==> r.error != []
    ensures r.Ok? ==> input.Object? && r.value.Keys == input.fields.Keys * ShapeNames(schema.shape)
    ensures r.Ok? ==> forall k :: k in r.value ==> r.value[k] == input.fields[k]
  {
    if !input.Object? then Err([Issue([], TypeIssueMessage(input, "object", None))])
    else
      var checked := CheckShape(schema.shape, input.fields, isEmail);
      if checked.typeError then Err(checked.issues)
      else
        var issues := checked.issues + RefinementIssues(schema.refinement, input.fields);
        if issues == [] then Ok(map k | k in input.fields && k in ShapeNames(schema.shape) :: input.fields[k])
        else Err(issues)
  }

  // ----- properties -----

  /** One step of CheckShape, for proofs about a given schema. */
  lemma CheckShapeCons(shape: seq<Field>, fields: map<string, Value>, isEmail: string -> bool)
    requires shape != []
    ensures var head := CheckField(shape[0], Property(fields, shape[0].name), isEmail);
      var rest := CheckShape(shape[1..], fields, isEmail);
      CheckShape(shape, fields, isEmail) == FieldResult(head.issues + rest.issues, head.typeError || rest.typeError)
  {
  }

  lemma OneField(shape: seq<Field>, fields: map<string, Value>, isEmail: string -> bool)
    requires |shape| == 1
    ensures var c0 := CheckField(shape[0], Property(fields, shape[0].name), isEmail);
      CheckShape(shape, fields, isEmail) == FieldResult(c0.issues, c0.typeError)
  {
    assert shape[1..] == [];
    CheckShapeCons(shape, fields, isEmail);
    var c0 := CheckField(shape[0], Property(fields, shape[0].name), isEmail);
    assert c0.issues + [] == c0.issues;
  }

  lemma TwoFields(shape: seq<Field>, fields: map<string, Value>, isEmail: string -> bool)
    requires |shape| == 2
    ensures var c0 := CheckField(shape[0], Property(fields, shape[0].name), isEmail);
      var c1 := CheckField(shape[1], Property(fields, shape[1].name), isEmail);
      CheckShape(shape, fields, isEmail) == FieldResult(c0.issues + c1.issues, c0.typeError || c1.typeError)
  {
    var s1 := shape[1..];
    assert s1[0] == shape[1];
    OneField(s1, fields, isEmail);
    CheckShapeCons(shape, fields, isEmail);
  }

  /** Checking a three-field object is checking each field in turn. */
  lemma ThreeFields(shape: seq<Field>, fields: map<string, Value>, isEmail: string -> bool)
    requires |shape| == 3
    ensures var c0 := CheckField(shape[0], Property(fields, shape[0].name), isEmail);
      var c1 := CheckField(shape[1], Property(fields, shape[1].name), isEmail);
      var c2 := CheckField(shape[2], Property(fields, shape[2].name), isEmail);
      CheckShape(shape, fields, isEmail) == FieldResult(c0.issues + c1.issues + c2.issues, c0.typeError || c1.typeError || c2.typeError)
  {
    var s1 := shape[1..];
    assert s1[0] == shape[1] && s1[1] == shape[2];
    TwoFields(s1, fields, isEmail);
    CheckShapeCons(shape, fields, isEmail);
    var c0 := CheckField(shape[0], Property(fields, shape[0].name), isEmail);
    var c1 := CheckField(shape[1], Property(fields, shape[1].name), isEmail);
    var c2 := CheckField(shape[2], Property(fields, shape[2].name), isEmail);
    IssuesAssoc(c0.issues, c1.issues, c2.issues);
  }

  lemma IssuesAssoc(a: seq<Issue>, b: seq<Issue>, c: seq<Issue>)
    ensures a + (b + c) == a + b + c
  {
  }

  /** Checking a four-field object is checking each field in turn. */
  lemma FourFields(shape: seq<Field>, fields: map<string, Value>, isEmail: string -> bool)
    requires |shape| == 4
    ensures var c0 := CheckField(shape[0], Property(fields, shape[0].name), isEmail);
      var rest := CheckShape(shape[1..], fields, isEmail);
      && rest.issues == CheckField(shape[1], Property(fields, shape[1].name), isEmail).issues
                      + CheckField(shape[2], Property(fields, shape[2].name), isEmail).issues
                      + CheckField(shape[3], Property(fields, shape[3].name), isEmail).issues
      && rest.typeError == (CheckField(shape[1], Property(fields, shape[1].name), isEmail).typeError
                            || CheckField(shape[2], Property(fields, shape[2].name), isEmail).typeError
                            || CheckField(shape[3], Property(fields, shape[3].name), isEmail).typeError)
      && CheckShape(shape, fields, isEmail) == FieldResult(c0.issues + rest.issues, c0.typeError || rest.typeError)
  {
    var s1 := shape[1..];
    assert s1[0] == shape[1] && s1[1] == shape[2] && s1[2] == shape[3];
    ThreeFields(s1, fields, isEmail);
    CheckShapeCons(shape, fields, isEmail);
  }

  /** The issues are empty exactly when every field is valid; a type error is a field of the wrong type. */
  lemma {:induction false} CheckShapeMeaning(shape: seq<Field>, fields: map<string, Value>, isEmail: string -> bool)
    ensures CheckShape(shape, fields, isEmail).issues == [] <==> ShapeValid(shape, fields, isEmail)
    ensures !CheckShape(shape, fields, isEmail).typeError <==> ShapeTyped(shape, fields)
    decreases |shape|
  {
    if shape != [] {
      CheckShapeMeaning(shape[1..], fields, isEmail);
      assert forall i :: 1 <= i < |shape| ==> shape[i] == shape[1..][i - 1];
      var head := CheckField(shape[0], Property(fields, shape[0].name), isEmail);
      if ShapeValid(shape[1..], fields, isEmail) && head.issues == [] {
        forall i | 0 <= i < |shape| ensures FieldValid(shape[i].kind, Property(fields, shape[i].name), isEmail) {
          if i > 0 { assert shape[i] == shape[1..][i - 1]; }
        }
      }
      if ShapeTyped(shape[1..], fields) && !head.typeError {
        forall i | 0 <= i < |shape| ensures FieldTyped(shape[i].kind, Property(fields, shape[i].name)) {
          if i > 0 { assert shape[i] == shape[1..][i - 1]; }
        }
      }
    }
  }

  /** `safeParse` succeeds exactly when the input is an object, every field is valid and the refinement holds. */
  lemma SafeParseAccepts(schema: ObjectSchema, input: Value, isEmail: string -> bool)
    ensures SafeParse(schema, input, isEmail).Ok? <==>
      input.Object? && ShapeValid(schema.shape, input.fields, isEmail) && RefinementHolds(schema.refinement, input.fields)
  {
    if input.Object? {
      CheckShapeMeaning(schema.shape, input.fields, isEmail);
      if ShapeValid(schema.shape, input.fields, isEmail) {
        forall i | 0 <= i < |schema.shape| ensures FieldTyped(schema.shape[i].kind, Property(input.fields, schema.shape[i].name)) {
          assert FieldValid(schema.shape[i].kind, Property(input.fields, schema.shape[i].name), isEmail);
        }
      }
    }
  }

  /**
   * The first issue reported belongs to the first field that fails: the issues come
   * in declaration order.
   */
  lemma {:induction false} FirstIssueIsFirstFailure(shape: seq<Field>, fields: map<string, Value>, isEmail: string -> bool, k: nat)
    requires k < |shape|
    requires forall j :: 0 <= j < k ==> FieldValid(shape[j].kind, Property(fields, shape[j].name), isEmail)
    requires !FieldValid(shape[k].kind, Property(fields, shape[k].name), isEmail)
    ensures CheckShape(shape, fields, isEmail).issues != []
    ensures CheckShape(shape, fields, isEmail).issues[0]
         == CheckField(shape[k], Property(fields, shape[k].name), isEmail).issues[0]
    decreases k
  {
    if k > 0 {
      assert FieldValid(shape[0].kind, Property(fields, shape[0].name), isEmail);
      forall j | 0 <= j < k - 1 ensures FieldValid(shape[1..][j].kind, Property(fields, shape[1..][j].name), isEmail) {
        assert shape[1..][j] == shape[j + 1];
      }
      FirstIssueIsFirstFailure(shape[1..], fields, isEmail, k - 1);
    }
  }

  /** The same, for the issues `safeParse` reports on an object. */
  lemma SafeParseFirstIssue(schema: ObjectSchema, fields: map<string, Value>, isEmail: string -> bool, k: nat)
    requires k < |schema.shape|
    requires forall j :: 0 <= j < k ==> FieldValid(schema.shape[j].kind, Property(fields, schema.shape[j].name), isEmail)
    requires !FieldValid(schema.shape[k].kind, Property(fields, schema.shape[k].name), isEmail)
    ensures SafeParse(schema, Object(fields), isEmail).Err?
    ensures SafeParse(schema, Object(fields), isEmail).error[0]
         == CheckField(schema.shape[k], Property(fields, schema.shape[k].name), isEmail).issues[0]
  {
    FirstIssueIsFirstFailure(schema.shape, fields, isEmail, k);
  }

  /** When the fields are well typed, a failed refinement is the last issue; with a type error it is never checked. */
  lemma RefinementPlacement(schema: ObjectSchema, fields: map<string, Value>, isEmail: string -> bool)
    ensures var r := SafeParse(schema, Object(fields), isEmail);
      && (ShapeTyped(schema.shape, fields) && !RefinementHolds(schema.refinement, fields) ==>
            r.Err? && r.error[|r.error| - 1] == Issue(schema.refinement.value.path, schema.refinement.value.message))
      && (!ShapeTyped(schema.shape, fields) ==> r.Err? && r.error == CheckShape(schema.shape, fields, isEmail).issues)
  {
    CheckShapeMeaning(schema.shape, fields, isEmail);
  }

  /** A non-object input yields the single invalid-type issue at the root. */
  lemma NonObjectRejected(schema: ObjectSchema, input: Value, isEmail: string -> bool)
    requires !input.Object?
    ensures var r := SafeParse(schema, input, isEmail);
      && r.Err? && |r.error| == 1 && r.error[0].path == []
      && r.error[0].message == (if input.Undefined? then "Required" else "Expected object, received " + TypeName(input))
  {
    var m := TypeIssueMessage(input, "object", None);
    if !input.Undefined? {
      assert m == "Expected object, received " + TypeName(input);
    }
  }

  /** `issues.map(err => err.message)` */
  function Messages(issues: seq<Issue>): (ms: seq<string>)
    ensures |ms| == |issues|
    ensures forall i :: 0 <= i < |issues| ==> ms[i] == issues[i].message
  {
    seq(|issues|, i requires 0 <= i < |issues| => issues[i].message)
  }
}
