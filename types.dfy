/** The schema model and the structural validator (src/types.rs).

    `Errors(ty, v, path)` is the complete, ordered list of violations found
    when `v` is checked against `ty` at `path`; `ValidateInner` is the
    accumulating walk the Rust code performs and is proved to append exactly
    that list. `Conforms` is an independent, error-free statement of what it
    means for a value to match a schema, and `ValidIffConforms` ties the two. */
module Types {
  import opened Wrappers
  import opened Strings
  import opened JsonValue

  datatype TypeDef =
    | Text
    | Markdown
    | Number
    | Bool
    | List(inner: TypeDef)
    | Object(fields: seq<FieldDef>)

  datatype FieldDef = FieldDef(name: string, ty: TypeDef)

  /** One violation, located by a path rooted at `$`. `expected` and `found`
      are kind names; the formation count check also puts longer
      descriptions in them, so they are strings here. */
  datatype ValidationError =
    | MissingField(path: string)
    | TypeMismatch(path: string, expected: string, found: string)

  const MissingPrefix: string := "Missing required field at path "
  const MismatchPrefix: string := "Type mismatch at "

  /** The `Display` text of an error, as it is echoed into the next prompt. */
  function Render(e: ValidationError): string {
    match e
    case MissingField(path) => MissingPrefix + path
    case TypeMismatch(path, expected, found) =>
      MismatchPrefix + path + ": expected " + expected + ", found " + found
  }

  /** The two kinds of error never render to the same text, and a missing
      field's text gives back its path. */
  lemma RenderIdentifiesError(e: ValidationError, d: ValidationError)
    requires Render(e) == Render(d)
    ensures e.MissingField? <==> d.MissingField?
    ensures e.MissingField? ==> e == d
  {
    RenderFirstChar(e);
    RenderFirstChar(d);
    if e.MissingField? && d.MissingField? {
      assert e.path == Render(e)[|MissingPrefix|..] == d.path;
    }
  }

  lemma RenderFirstChar(e: ValidationError)
    ensures |Render(e)| > 0 && Render(e)[0] == if e.MissingField? then 'M' else 'T'
  {
  }

  /** The kind of a value, as the mismatch error names it. */
  function ValueTypeName(v: Json): string {
    match v
    case JNull => "null"
    case JBool(_) => "boolean"
    case JNum(_) => "number"
    case JStr(_) => "string"
    case JArr(_) => "array"
    case JObj(_) => "object"
  }

  /** The kind a schema variant asks for, as the mismatch error names it. */
  function ExpectedKind(ty: TypeDef): string {
    match ty
    case Text | Markdown => "string"
    case Number => "number"
    case Bool => "boolean"
    case List(_) => "array"
    case Object(_) => "object"
  }

  function IndexPath(path: string, idx: nat): string {
    path + "[" + NatToString(idx) + "]"
  }

  function FieldPath(path: string, name: string): string {
    path + "." + name
  }

  /** Every violation of `ty` by `v` at `path`, in the order the walk meets
      them. */
  function Errors(ty: TypeDef, v: Json, path: string): seq<ValidationError>
    decreases ty, 1
  {
    match ty
    case Text | Markdown =>
      if v.JStr? then [] else [TypeMismatch(path, "string", ValueTypeName(v))]
    case Number =>
      if v.JNum? then [] else [TypeMismatch(path, "number", ValueTypeName(v))]
    case Bool =>
      if v.JBool? then [] else [TypeMismatch(path, "boolean", ValueTypeName(v))]
    case List(inner) =>
      if v.JArr? then ItemErrors(inner, v.items, path, |v.items|)
      else [TypeMismatch(path, "array", ValueTypeName(v))]
    case Object(fields) =>
      if v.JObj? then FieldErrors(fields, v.members, path, |fields|)
      else [TypeMismatch(path, "object", ValueTypeName(v))]
  }

  /** The errors of the first `n` list items, item by item. */
  function ItemErrors(inner: TypeDef, items: seq<Json>, path: string, n: nat): seq<ValidationError>
    requires n <= |items|
    decreases List(inner), 0, n
  {
    if n == 0 then []
    else ItemErrors(inner, items, path, n - 1) + Errors(inner, items[n - 1], IndexPath(path, n - 1))
  }

  /** The errors of the first `n` declared fields, field by field. */
  function FieldErrors(fields: seq<FieldDef>, members: seq<(string, Json)>, path: string, n: nat): seq<ValidationError>
    requires n <= |fields|
    decreases Object(fields), 0, n
  {
    if n == 0 then []
    else FieldErrors(fields, members, path, n - 1) + FieldCheck(fields[n - 1], members, path)
  }

  /** The outcome of checking one declared field: a single `MissingField`
      when the object has no entry for it, its own errors otherwise. */
  function FieldCheck(f: FieldDef, members: seq<(string, Json)>, path: string): seq<ValidationError>
    decreases f, 0
  {
    match Lookup(members, f.name)
    case None => [MissingField(FieldPath(path, f.name))]
    case Some(fv) => Errors(f.ty, fv, FieldPath(path, f.name))
  }

  /** `validate_inner`: walks `value` against `ty`, appending every violation
      to the caller's accumulator `errors` and touching nothing already in it. */
  method ValidateInner(ty: TypeDef, value: Json, path: string, errors: seq<ValidationError>)
    returns (out: seq<ValidationError>)
    ensures out == errors + Errors(ty, value, path)
    decreases ty
  {
    match ty {
      case Text | Markdown =>
        out := errors;
        if !value.JStr? {
          out := out + [TypeMismatch(path, "string", ValueTypeName(value))];
        }
      case Number =>
        out := errors;
        if !value.JNum? {
          out := out + [TypeMismatch(path, "number", ValueTypeName(value))];
        }
      case Bool =>
        out := errors;
        if !value.JBool? {
          out := out + [TypeMismatch(path, "boolean", ValueTypeName(value))];
        }
      case List(inner) =>
        if value.JArr? {
          var items := value.items;
          out := errors;
          for idx := 0 to |items|
            invariant out == errors + ItemErrors(inner, items, path, idx)
          {
            var childPath := IndexPath(path, idx);
            out := ValidateInner(inner, items[idx], childPath, out);
          }
        } else {
          out := errors + [TypeMismatch(path, "array", ValueTypeName(value))];
        }
      case Object(fields) =>
        if !value.JObj? {
          out := errors + [TypeMismatch(path, "object", ValueTypeName(value))];
          return;
        }
        var members := value.members;
        out := errors;
        for k := 0 to |fields|
          invariant out == errors + FieldErrors(fields, members, path, k)
        {
          var field := fields[k];
          var fieldPath := FieldPath(path, field.name);
          match Lookup(members, field.name) {
            case None =>
              out := out + [MissingField(fieldPath)];
            case Some(fieldValue) =>
              out := ValidateInner(field.ty, fieldValue, fieldPath, out);
          }
        }
    }
  }

  /** `validate`: Ok exactly when the walk from `$` finds nothing, otherwise
      every error it found, and at least one. */
  method Validate(ty: TypeDef, value: Json) returns (r: Result<(), seq<ValidationError>>)
    ensures r.Ok? <==> Errors(ty, value, "$") == []
    ensures r.Err? ==> r.error == Errors(ty, value, "$") && |r.error| > 0
  {
    var errors := ValidateInner(ty, value, "$", []);
    if |errors| == 0 {
      r := Ok(());
    } else {
      r := Err(errors);
    }
  }

  // ---------------------------------------------------------------------
  // What a value matching a schema is, stated without errors or paths.

  ghost predicate Conforms(ty: TypeDef, v: Json)
    decreases ty, 1
  {
    match ty
    case Text | Markdown => v.JStr?
    case Number => v.JNum?
    case Bool => v.JBool?
    case List(inner) =>
      v.JArr? && forall i :: 0 <= i < |v.items| ==> Conforms(inner, v.items[i])
    case Object(fields) =>
      v.JObj? && forall k :: 0 <= k < |fields| ==> FieldConforms(fields[k], v.members)
  }

  /** The object has an entry for the field, and its value conforms. */
  ghost predicate FieldConforms(f: FieldDef, members: seq<(string, Json)>)
    decreases f, 0
  {
    match Lookup(members, f.name)
    case None => false
    case Some(fv) => Conforms(f.ty, fv)
  }

  /** The validator finds no error exactly when the value conforms, whatever
      the path it starts from. */
  lemma {:induction false} ValidIffConforms(ty: TypeDef, v: Json, path: string)
    ensures Errors(ty, v, path) == [] <==> Conforms(ty, v)
    decreases ty, 1
  {
    match ty
    case List(inner) =>
      if v.JArr? {
        ItemsValidIffConform(inner, v.items, path, |v.items|);
      }
    case Object(fields) =>
      if v.JObj? {
        FieldsValidIffConform(fields, v.members, path, |fields|);
      }
    case _ =>
  }

  lemma {:induction false} ItemsValidIffConform(inner: TypeDef, items: seq<Json>, path: string, n: nat)
    requires n <= |items|
    ensures ItemErrors(inner, items, path, n) == [] <==> forall i :: 0 <= i < n ==> Conforms(inner, items[i])
    decreases List(inner), 0, n
  {
    if n > 0 {
      ItemsValidIffConform(inner, items, path, n - 1);
      ValidIffConforms(inner, items[n - 1], IndexPath(path, n - 1));
      var front := ItemErrors(inner, items, path, n - 1);
      var last := Errors(inner, items[n - 1], IndexPath(path, n - 1));
      assert ItemErrors(inner, items, path, n) == front + last;
      assert front + last == [] <==> front == [] && last == [] by {
        assert |front + last| == |front| + |last|;
      }
      if forall i :: 0 <= i < n ==> Conforms(inner, items[i]) {
        assert front == [] && last == [];
      } else {
        var i :| 0 <= i < n && !Conforms(inner, items[i]);
        assert i < n - 1 ==> front != [];
      }
    }
  }

  lemma {:induction false} FieldsValidIffConform(fields: seq<FieldDef>, members: seq<(string, Json)>,
                                                 path: string, n: nat)
    requires n <= |fields|
    ensures FieldErrors(fields, members, path, n) == [] <==> forall k :: 0 <= k < n ==> FieldConforms(fields[k], members)
    decreases Object(fields), 0, n
  {
    if n > 0 {
      FieldsValidIffConform(fields, members, path, n - 1);
      var f := fields[n - 1];
      match Lookup(members, f.name)
      case None =>
      case Some(fv) => ValidIffConforms(f.ty, fv, FieldPath(path, f.name));
      assert FieldCheck(f, members, path) == [] <==> FieldConforms(f, members);
    }
  }

  // ---------------------------------------------------------------------
  // Kinds: a value of the wrong kind gets exactly one mismatch, no deeper.

  /** Whatever the schema variant, a value of another kind yields exactly one
      `TypeMismatch` at the current path naming both kinds, and no deeper
      error. */
  lemma WrongKindSingleMismatch(ty: TypeDef, v: Json, path: string)
    requires ValueTypeName(v) != ExpectedKind(ty)
    ensures Errors(ty, v, path) == [TypeMismatch(path, ExpectedKind(ty), ValueTypeName(v))]
  {
  }

  /** A primitive schema (`Text`, `Markdown`, `Number`, `Bool`) accepts
      exactly the values of its kind. */
  lemma PrimitiveAcceptsItsKind(ty: TypeDef, v: Json, path: string)
    requires !ty.List? && !ty.Object?
    ensures Errors(ty, v, path) == [] <==> ValueTypeName(v) == ExpectedKind(ty)
  {
  }

  // ---------------------------------------------------------------------
  // Paths: every error is located under the path the walk started from.

  /** `q` is `p` itself or `p` followed by a `.name` or `[idx]` step. */
  predicate Extends(p: string, q: string) {
    p <= q && (|q| > |p| ==> q[|p|] == '.' || q[|p|] == '[')
  }

  lemma ExtendsTransitive(p: string, m: string, q: string)
    requires Extends(p, m) && Extends(m, q) && |m| > |p|
    ensures Extends(p, q)
  {
    assert q[..|m|] == m;
    assert q[|p|] == m[|p|];
  }

  /** Every error found at `path` lies at `path` or below it. */
  lemma {:induction false} ErrorPathsExtend(ty: TypeDef, v: Json, path: string)
    ensures forall e :: e in Errors(ty, v, path) ==> Extends(path, e.path)
    decreases ty, 1
  {
    match ty
    case List(inner) =>
      if v.JArr? {
        ItemPathsExtend(inner, v.items, path, |v.items|);
      }
    case Object(fields) =>
      if v.JObj? {
        FieldPathsExtend(fields, v.members, path, |fields|);
      }
    case _ =>
  }

  lemma {:induction false} ItemPathsExtend(inner: TypeDef, items: seq<Json>, path: string, n: nat)
    requires n <= |items|
    ensures forall e :: e in ItemErrors(inner, items, path, n) ==> Extends(path, e.path) && |e.path| > |path|
    decreases List(inner), 0, n
  {
    if n > 0 {
      ItemPathsExtend(inner, items, path, n - 1);
      var child := IndexPath(path, n - 1);
      ErrorPathsExtend(inner, items[n - 1], child);
      forall e | e in Errors(inner, items[n - 1], child)
        ensures Extends(path, e.path) && |e.path| > |path|
      {
        ExtendsTransitive(path, child, e.path);
      }
    }
  }

  lemma {:induction false} FieldPathsExtend(fields: seq<FieldDef>, members: seq<(string, Json)>,
                                            path: string, n: nat)
    requires n <= |fields|
    ensures forall e :: e in FieldErrors(fields, members, path, n) ==> Extends(path, e.path) && |e.path| > |path|
    decreases Object(fields), 0, n
  {
    if n > 0 {
      FieldPathsExtend(fields, members, path, n - 1);
      var f := fields[n - 1];
      var child := FieldPath(path, f.name);
      match Lookup(members, f.name)
      case None =>
      case Some(fv) =>
        ErrorPathsExtend(f.ty, fv, child);
        forall e | e in Errors(f.ty, fv, child)
          ensures Extends(path, e.path) && |e.path| > |path|
        {
          ExtendsTransitive(path, child, e.path);
        }
    }
  }

  /** One step of the walk: into a declared field, or into a list item. */
  datatype PathStep = FieldStep(name: string) | IndexStep(idx: nat)

  function StepPath(path: string, s: PathStep): string {
    match s
    case FieldStep(name) => FieldPath(path, name)
    case IndexStep(idx) => IndexPath(path, idx)
  }

  /** The path the walk reaches from `path` by taking `steps`, first step
      first. */
  function Follow(path: string, steps: seq<PathStep>): string
    decreases |steps|
  {
    if steps == [] then path else Follow(StepPath(path, steps[0]), steps[1..])
  }

  /** `to` is reached from `from` by some sequence of steps. */
  ghost predicate Reaches(from: string, to: string) {
    exists steps :: to == Follow(from, steps)
  }

  /** A path reached after one step is reached from where the step began. */
  lemma ReachesThroughStep(path: string, s: PathStep, to: string)
    requires Reaches(StepPath(path, s), to)
    ensures Reaches(path, to)
  {
    var steps :| to == Follow(StepPath(path, s), steps);
    assert ([s] + steps)[1..] == steps;
    assert to == Follow(path, [s] + steps);
  }

  /** Every error found at `path` lies at a path reached from `path` by
      `.name` and `[idx]` steps. */
  lemma {:induction false} ErrorPathsFollowSteps(ty: TypeDef, v: Json, path: string)
    ensures forall e :: e in Errors(ty, v, path) ==> Reaches(path, e.path)
    decreases ty, 1
  {
    assert Follow(path, []) == path;
    match ty
    case List(inner) =>
      if v.JArr? {
        ItemPathsFollowSteps(inner, v.items, path, |v.items|);
        forall e | e in ItemErrors(inner, v.items, path, |v.items|)
          ensures Reaches(path, e.path)
        {
          var i :| 0 <= i < |v.items| && Reaches(IndexPath(path, i), e.path);
          ReachesThroughStep(path, IndexStep(i), e.path);
        }
      }
    case Object(fields) =>
      if v.JObj? {
        FieldPathsFollowSteps(fields, v.members, path, |fields|);
        forall e | e in FieldErrors(fields, v.members, path, |fields|)
          ensures Reaches(path, e.path)
        {
          var k :| 0 <= k < |fields| && Reaches(FieldPath(path, fields[k].name), e.path);
          ReachesThroughStep(path, FieldStep(fields[k].name), e.path);
        }
      }
    case Text | Markdown | Number | Bool =>
  }

  /** An error inside a list lies at or below one of its first `n` items. */
  lemma {:induction false} ItemPathsFollowSteps(inner: TypeDef, items: seq<Json>, path: string, n: nat)
    requires n <= |items|
    ensures forall e :: e in ItemErrors(inner, items, path, n) ==>
              exists i :: 0 <= i < n && Reaches(IndexPath(path, i), e.path)
    decreases List(inner), 0, n
  {
    if n > 0 {
      ItemPathsFollowSteps(inner, items, path, n - 1);
      ErrorPathsFollowSteps(inner, items[n - 1], IndexPath(path, n - 1));
    }
  }

  /** An error inside an object lies at or below one of its first `n`
      declared fields. */
  lemma {:induction false} FieldPathsFollowSteps(fields: seq<FieldDef>, members: seq<(string, Json)>,
                                                 path: string, n: nat)
    requires n <= |fields|
    ensures forall e :: e in FieldErrors(fields, members, path, n) ==>
              exists k :: 0 <= k < n && Reaches(FieldPath(path, fields[k].name), e.path)
    decreases Object(fields), 0, n
  {
    if n > 0 {
      FieldPathsFollowSteps(fields, members, path, n - 1);
      var child := FieldPath(path, fields[n - 1].name);
      assert Follow(child, []) == child;
      match Lookup(members, fields[n - 1].name)
      case None =>
      case Some(fv) => ErrorPathsFollowSteps(fields[n - 1].ty, fv, child);
    }
  }

  /** Every error `validate` reports has a path starting with `$`. */
  lemma ValidatePathsRooted(ty: TypeDef, v: Json)
    ensures forall e :: e in Errors(ty, v, "$") ==> |e.path| > 0 && e.path[0] == '$'
  {
    ErrorPathsExtend(ty, v, "$");
  }

  // ---------------------------------------------------------------------
  // Exhaustiveness: siblings are checked independently and in order.

  /** The errors of list item `i` all appear, together and in order, among
      the errors of the whole list, whatever its other items hold. */
  lemma {:induction false} ItemErrorsKept(inner: TypeDef, items: seq<Json>, path: string, n: nat, i: nat)
    requires i < n <= |items|
    ensures IsInfix(Errors(inner, items[i], IndexPath(path, i)), ItemErrors(inner, items, path, n))
    decreases n
  {
    var mine := Errors(inner, items[i], IndexPath(path, i));
    var before := ItemErrors(inner, items, path, n - 1);
    var last := Errors(inner, items[n - 1], IndexPath(path, n - 1));
    assert ItemErrors(inner, items, path, n) == before + last;
    if i == n - 1 {
      InfixOfConcat(before, mine, []);
      assert before + mine + [] == before + last;
    } else {
      ItemErrorsKept(inner, items, path, n - 1, i);
      InfixExtend(mine, before, [], last);
      assert [] + before + last == before + last;
    }
  }

  /** The errors of declared field `k` all appear, together and in order,
      among the errors of the object: an absent field is reported as missing
      whatever the other fields hold. */
  lemma {:induction false} FieldErrorsKept(fields: seq<FieldDef>, members: seq<(string, Json)>,
                                           path: string, n: nat, k: nat)
    requires k < n <= |fields|
    ensures IsInfix(FieldCheck(fields[k], members, path), FieldErrors(fields, members, path, n))
    ensures Lookup(members, fields[k].name).None? ==>
              MissingField(FieldPath(path, fields[k].name)) in FieldErrors(fields, members, path, n)
    decreases n
  {
    var mine := FieldCheck(fields[k], members, path);
    var before := FieldErrors(fields, members, path, n - 1);
    var last := FieldCheck(fields[n - 1], members, path);
    assert FieldErrors(fields, members, path, n) == before + last;
    if k == n - 1 {
      InfixOfConcat(before, mine, []);
      assert before + mine + [] == before + last;
    } else {
      FieldErrorsKept(fields, members, path, n - 1, k);
      InfixExtend(mine, before, [], last);
      assert [] + before + last == before + last;
    }
  }

  /** Keys of the value that the schema does not declare change nothing:
      the object is judged as if they were absent. */
  lemma {:induction false} UndeclaredKeysIgnored(fields: seq<FieldDef>, a: seq<(string, Json)>,
                                                 extra: seq<(string, Json)>, b: seq<(string, Json)>,
                                                 path: string)
    requires forall i, k :: 0 <= i < |extra| && 0 <= k < |fields| ==> extra[i].0 != fields[k].name
    ensures Errors(Object(fields), JObj(a + extra + b), path) == Errors(Object(fields), JObj(a + b), path)
  {
    UndeclaredKeysIgnoredUpTo(fields, a, extra, b, path, |fields|);
  }

  lemma {:induction false} UndeclaredKeysIgnoredUpTo(fields: seq<FieldDef>, a: seq<(string, Json)>,
                                                     extra: seq<(string, Json)>, b: seq<(string, Json)>,
                                                     path: string, n: nat)
    requires n <= |fields|
    requires forall i, k :: 0 <= i < |extra| && 0 <= k < |fields| ==> extra[i].0 != fields[k].name
    ensures FieldErrors(fields, a + extra + b, path, n) == FieldErrors(fields, a + b, path, n)
  {
    if n > 0 {
      UndeclaredKeysIgnoredUpTo(fields, a, extra, b, path, n - 1);
      LookupSkipsOtherKeys(a, extra, b, fields[n - 1].name);
    }
  }
}
