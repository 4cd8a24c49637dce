/** The prompt renderer of src/llm.rs: `describe_schema`, which prints a
    schema as an indented bullet outline, and `build_prompt` /
    `build_formation_prompt`, which assemble the instructions, the task, and
    the feedback from the previous attempt into one prompt string.

    The Rust code builds each text by pushing onto a `String`. The functions
    here are written the same way, each taking the buffer so far and giving
    the buffer after its pushes; the procedures perform the pushes, with
    loops over fields, constraints and errors, and are proved to produce
    that text. */
module Prompt {
  import opened Wrappers
  import opened Strings
  import opened Types
  import opened Shape

  /** What the previous attempt left behind: its validation errors, or the
      message of the JSON parse error that stopped it. */
  datatype Feedback = Feedback(lastErrors: Option<seq<ValidationError>>, lastJsonError: Option<string>)

  const NoFeedback: Feedback := Feedback(None, None)

  // ---------------------------------------------------------------------
  // describe_schema

  /** `" ".repeat(n)`. */
  function Pad(n: nat): (p: string)
    ensures |p| == n && forall k :: 0 <= k < n ==> p[k] == ' '
  {
    if n == 0 then "" else Pad(n - 1) + " "
  }

  /** The bullet that names a field of an object outlined at `indent`. */
  function Bullet(indent: nat, name: string): string {
    Pad(indent) + "  - " + name + ": "
  }

  /** The outline of a schema at the given indentation: one bullet per
      type, the fields of an object one level deeper, and the element type
      of a list two columns in. Every outline is a whole number of lines. */
  function SchemaDescription(ty: TypeDef, indent: nat): (d: string)
    ensures |d| > 0 && d[|d| - 1] == '\n'
    decreases ty, 1
  {
    var open := Pad(indent) + "- ";
    match ty
    case Text => open + "string\n"
    case Markdown => open + "string (markdown)\n"
    case Number => open + "number\n"
    case Bool => open + "boolean\n"
    case List(inner) => open + "array of:\n" + SchemaDescription(inner, indent + 2)
    case Object(fields) => FieldLines(open + "object with fields:\n", fields, indent, |fields|)
  }

  /** The buffer `s` after the lines of the first `n` fields. */
  function FieldLines(s: string, fields: seq<FieldDef>, indent: nat, n: nat): (r: string)
    requires n <= |fields|
    ensures |s| > 0 && s[|s| - 1] == '\n' ==> |r| > 0 && r[|r| - 1] == '\n'
    decreases Object(fields), 0, n
  {
    if n == 0 then s else WithFieldLine(FieldLines(s, fields, indent, n - 1), fields[n - 1], indent)
  }

  /** The buffer `s` after one field's line: a primitive field's type on
      the bullet's line; a list's element type, or a nested object in full,
      below it four columns further in. */
  function WithFieldLine(s: string, f: FieldDef, indent: nat): (r: string)
    ensures |r| > 0 && r[|r| - 1] == '\n'
    decreases f, 0
  {
    var t := s + Bullet(indent, f.name);
    match f.ty
    case Text => t + "string\n"
    case Markdown => t + "string (markdown)\n"
    case Number => t + "number\n"
    case Bool => t + "boolean\n"
    case List(inner) => t + "array of:\n" + SchemaDescription(inner, indent + 4)
    case Object(_) => t + "nested object:\n" + SchemaDescription(f.ty, indent + 4)
  }

  lemma WithFieldLineStartsWithBullet(s: string, f: FieldDef, indent: nat)
    ensures s + Bullet(indent, f.name) <= WithFieldLine(s, f, indent)
  {
  }

  lemma {:induction false} FieldLinesGrow(s: string, fields: seq<FieldDef>, indent: nat, m: nat, n: nat)
    requires m <= n <= |fields|
    ensures FieldLines(s, fields, indent, m) <= FieldLines(s, fields, indent, n)
    decreases n
  {
    if m < n {
      FieldLinesGrow(s, fields, indent, m, n - 1);
      WithFieldLineStartsWithBullet(FieldLines(s, fields, indent, n - 1), fields[n - 1], indent);
    }
  }

  /** The outline of an object names every one of its fields, with the
      bullet at the field's indentation. */
  lemma DescriptionNamesEveryField(fields: seq<FieldDef>, indent: nat, k: nat)
    requires k < |fields|
    ensures IsInfix(Bullet(indent, fields[k].name), SchemaDescription(Object(fields), indent))
  {
    var head := Pad(indent) + "- " + "object with fields:\n";
    var before := FieldLines(head, fields, indent, k);
    var b := Bullet(indent, fields[k].name);
    InfixSelf(b);
    InfixInRight(b, before, b);
    WithFieldLineStartsWithBullet(before, fields[k], indent);
    InfixOfPrefix(b, before + b, FieldLines(head, fields, indent, k + 1));
    FieldLinesGrow(head, fields, indent, k + 1, |fields|);
    InfixOfPrefix(b, FieldLines(head, fields, indent, k + 1), FieldLines(head, fields, indent, |fields|));
  }

  /** Every outline opens with its own indentation and a bullet. */
  lemma DescriptionStartsIndented(ty: TypeDef, indent: nat)
    ensures Pad(indent) + "- " <= SchemaDescription(ty, indent)
  {
    var open := Pad(indent) + "- ";
    match ty
    case Text => PrefixOfAppends(open, "string\n", [], [], []);
    case Markdown => PrefixOfAppends(open, "string (markdown)\n", [], [], []);
    case Number => PrefixOfAppends(open, "number\n", [], [], []);
    case Bool => PrefixOfAppends(open, "boolean\n", [], [], []);
    case List(inner) => PrefixOfAppends(open, "array of:\n", SchemaDescription(inner, indent + 2), [], []);
    case Object(fields) =>
      PrefixOfAppends(open, "object with fields:\n", [], [], []);
      FieldLinesGrow(open + "object with fields:\n", fields, indent, 0, |fields|);
  }

  /** `describe_schema`: pushes the bullet lines into a fresh buffer,
      walking the fields of an object in order and describing nested types
      by recursion. */
  method DescribeSchema(ty: TypeDef, indent: nat) returns (s: string)
    ensures s == SchemaDescription(ty, indent)
    decreases ty
  {
    var pad := Pad(indent);
    var open := pad + "- ";
    match ty {
      case Text => s := open + "string\n";
      case Markdown => s := open + "string (markdown)\n";
      case Number => s := open + "number\n";
      case Bool => s := open + "boolean\n";
      case List(inner) =>
        s := open + "array of:\n";
        var d := DescribeSchema(inner, indent + 2);
        s := s + d;
      case Object(fields) =>
        s := open + "object with fields:\n";
        ghost var head := s;
        for k := 0 to |fields|
          invariant s == FieldLines(head, fields, indent, k)
        {
          var f := fields[k];
          var bullet := pad + "  - " + f.name + ": ";
          s := s + bullet;
          match f.ty {
            case Text => s := s + "string\n";
            case Markdown => s := s + "string (markdown)\n";
            case Number => s := s + "number\n";
            case Bool => s := s + "boolean\n";
            case List(inner) =>
              s := s + "array of:\n";
              var d := DescribeSchema(inner, indent + 4);
              s := s + d;
            case Object(_) =>
              s := s + "nested object:\n";
              var d := DescribeSchema(f.ty, indent + 4);
              s := s + d;
          }
        }
    }
  }

  // ---------------------------------------------------------------------
  // build_prompt and build_formation_prompt

  const Preamble: string :=
    "You are a system that strictly outputs JSON.\n" +
    "You must produce a JSON object that matches this schema:\n\n"

  const OutputRules: string :=
    "\n\nThe JSON must be parseable and not contain comments or explanations.\n" +
    "Do not wrap it in markdown code fences.\n" +
    "Do not include control characters (null bytes, etc.) in your output.\n" +
    "Escape special characters properly in JSON strings (use \\n for newlines, etc.).\n\n"

  /** The opening both prompts share: the schema outline between the
      instructions. */
  function WithSchemaSection(s: string, schema: TypeDef): string {
    s + Preamble + SchemaDescription(schema, 0) + OutputRules
  }

  /** The buffer after one bullet per constraint, in order. */
  function WithConstraints(s: string, constraints: seq<string>): string {
    if constraints == [] then s
    else WithConstraints(s, constraints[..|constraints| - 1]) + "  - " + constraints[|constraints| - 1] + "\n"
  }

  /** The Context block of the feature-design prompt. */
  function WithContext(s: string, input: FeatureDesignInput): string {
    WithConstraints(s + "Context:\n" + "- Repo summary: " + input.repoSummary + "\n- Constraints:\n",
                    input.constraints)
  }

  const JsonErrorIntro: string := "\nYour previous response was not valid JSON. The error was:\n"
  const JsonErrorOutro: string :=
    "\n\nPlease output ONLY valid, parseable JSON without any control characters or formatting issues.\n"
  const ErrorsIntro: string := "\nYour previous JSON had these validation problems:\n"
  const ErrorsOutro: string := "\nFix these issues and output ONLY corrected JSON.\n"

  function WithJsonError(s: string, lastJsonError: Option<string>): string {
    match lastJsonError
    case None => s
    case Some(message) => s + JsonErrorIntro + message + JsonErrorOutro
  }

  /** The buffer after one bullet per validation error, in display form. */
  function WithErrorLines(s: string, errors: seq<ValidationError>): string {
    if errors == [] then s
    else WithErrorLines(s, errors[..|errors| - 1]) + "- " + Render(errors[|errors| - 1]) + "\n"
  }

  function WithValidationErrors(s: string, lastErrors: Option<seq<ValidationError>>): string {
    match lastErrors
    case None => s
    case Some(errors) => WithErrorLines(s + ErrorsIntro, errors) + ErrorsOutro
  }

  /** The feedback closing both prompts: the parse error first, then the
      validation errors. */
  function WithFeedback(s: string, fb: Feedback): string {
    WithValidationErrors(WithJsonError(s, fb.lastJsonError), fb.lastErrors)
  }

  /** The text `build_prompt` returns. */
  function DesignPrompt(input: FeatureDesignInput, schema: TypeDef, fb: Feedback): string {
    WithFeedback(WithContext(WithSchemaSection("", schema), input), fb)
  }

  const UnitCountIntro: string := "CRITICAL: You MUST generate EXACTLY "
  const UnitCountOutro: string := " coordinates (x, y pairs), no more, no less.\n"

  const ShapeGuidance: string :=
    "Coordinates should be reasonable 2D positions (typically between 0-100 for x and y).\n" +
    "The formation should be visually recognizable as the requested shape.\n"
  const ExampleGuidance: string :=
    "\n" +
    "Example output format (for 3 units):\n" +
    "{\"coordinates\":[{\"x\":0.0,\"y\":0.0},{\"x\":10.0,\"y\":0.0},{\"x\":5.0,\"y\":10.0}]}\n" +
    "\n"
  const StrictOutput: string :=
    "CRITICAL: Output ONLY the JSON object, nothing else. No text before or after. No markdown. No explanations.\n"
  const ForbiddenContent: string :=
    "The JSON must be valid and parseable. Do NOT include:\n" +
    "- Control characters (null bytes, etc.)\n" +
    "- Unescaped newlines or tabs inside JSON strings\n" +
    "- Any characters outside the JSON structure\n" +
    "- Trailing commas\n"

  /** The fixed lines closing the Task block. */
  const FormationGuidance: string := ShapeGuidance + ExampleGuidance + StrictOutput + ForbiddenContent

  /** The opening lines of the Task block: the request and its inputs. */
  function WithTaskHeader(s: string, input: FormationInput): string {
    s + "Task: Generate 2D coordinates for unit formation.\n" +
    ("- Formation description: " + input.formationDescription + "\n") +
    ("- Number of units: " + NatToString(input.unitCount) + "\n") +
    "\n"
  }

  /** The CRITICAL line demanding exactly `count` coordinates. */
  function WithCountRule(s: string, count: string): string {
    s + UnitCountIntro + count + UnitCountOutro
  }

  /** The array-length line and the fixed guidance that closes the block. */
  function WithItemsRule(s: string, count: string): string {
    s + "The coordinates array must contain exactly " + count + " items.\n" + FormationGuidance
  }

  /** The Task block of the formation prompt, which states the unit count
      three times. */
  function WithFormationTask(s: string, input: FormationInput): string {
    var count := NatToString(input.unitCount);
    WithItemsRule(WithCountRule(WithTaskHeader(s, input), count), count)
  }

  /** The text `build_formation_prompt` returns. */
  function FormationPrompt(input: FormationInput, schema: TypeDef, fb: Feedback): string {
    WithFeedback(WithFormationTask(WithSchemaSection("", schema), input), fb)
  }

  // ---------------------------------------------------------------------
  // Properties of the prompts

  lemma {:induction false} ErrorLinesExtend(s: string, errors: seq<ValidationError>)
    ensures s <= WithErrorLines(s, errors)
    decreases |errors|
  {
    if errors != [] {
      ErrorLinesExtend(s, errors[..|errors| - 1]);
    }
  }

  /** Feedback is appended and nothing else changes: the buffer is a prefix
      of the result, and any feedback makes the text strictly longer. */
  lemma FeedbackOnlyAppends(s: string, fb: Feedback)
    ensures s <= WithFeedback(s, fb)
    ensures fb != NoFeedback ==> |WithFeedback(s, fb)| > |s|
  {
    var t := WithJsonError(s, fb.lastJsonError);
    if fb.lastErrors.Some? {
      ErrorLinesExtend(t + ErrorsIntro, fb.lastErrors.value);
    }
  }

  lemma NoFeedbackIsPrefix(s: string, fb: Feedback)
    ensures WithFeedback(s, NoFeedback) == s
    ensures WithFeedback(s, NoFeedback) <= WithFeedback(s, fb)
  {
    FeedbackOnlyAppends(s, fb);
  }

  /** Both prompts without feedback are prefixes of the prompts with it. */
  lemma DesignPromptOnlyGrows(input: FeatureDesignInput, schema: TypeDef, fb: Feedback)
    ensures DesignPrompt(input, schema, NoFeedback) <= DesignPrompt(input, schema, fb)
  {
    NoFeedbackIsPrefix(WithContext(WithSchemaSection("", schema), input), fb);
  }

  lemma FormationPromptUnfolds(input: FormationInput, schema: TypeDef, task: string, fb: Feedback)
    requires task == WithFormationTask(WithSchemaSection("", schema), input)
    ensures FormationPrompt(input, schema, fb) == WithFeedback(task, fb)
  {
  }

  lemma FormationPromptOnlyGrows(input: FormationInput, schema: TypeDef, fb: Feedback)
    ensures FormationPrompt(input, schema, NoFeedback) <= FormationPrompt(input, schema, fb)
  {
    var task := WithFormationTask(WithSchemaSection("", schema), input);
    FormationPromptUnfolds(input, schema, task, fb);
    FormationPromptUnfolds(input, schema, task, NoFeedback);
    NoFeedbackIsPrefix(task, fb);
  }

  lemma ErrorLinesStep(s: string, errors: seq<ValidationError>, k: nat)
    requires k < |errors|
    ensures WithErrorLines(s, errors[..k + 1]) == WithErrorLines(s, errors[..k]) + "- " + Render(errors[k]) + "\n"
  {
    assert errors[..k + 1][..k] == errors[..k];
  }

  /** The bullet line for one validation error. */
  function ErrorLine(e: ValidationError): string {
    "- " + Render(e) + "\n"
  }

  lemma {:induction false} ErrorLinesKeepEach(s: string, errors: seq<ValidationError>, k: nat)
    requires k < |errors|
    ensures IsInfix(ErrorLine(errors[k]), WithErrorLines(s, errors))
    decreases |errors|
  {
    var init := errors[..|errors| - 1];
    var e := errors[|errors| - 1];
    InfixOfLastThree(WithErrorLines(s, init), "- ", Render(e), "\n");
    if k < |errors| - 1 {
      ErrorLinesKeepEach(s, init, k);
      assert init[k] == errors[k];
      PrefixOfAppends(WithErrorLines(s, init), "- ", Render(e), "\n", []);
      InfixOfPrefix(ErrorLine(errors[k]), WithErrorLines(s, init), WithErrorLines(s, errors));
    }
  }

  /** The feedback quotes the parse message verbatim and lists every
      validation error of the previous attempt on a line of its own. */
  lemma FeedbackReportsEverything(s: string, fb: Feedback)
    ensures fb.lastJsonError.Some? ==> IsInfix(fb.lastJsonError.value, WithFeedback(s, fb))
    ensures fb.lastErrors.Some? ==>
              forall k :: 0 <= k < |fb.lastErrors.value| ==>
                IsInfix(ErrorLine(fb.lastErrors.value[k]), WithFeedback(s, fb))
  {
    var t := WithJsonError(s, fb.lastJsonError);
    FeedbackOnlyAppends(t, Feedback(fb.lastErrors, None));
    assert WithFeedback(t, Feedback(fb.lastErrors, None)) == WithFeedback(s, fb);
    if fb.lastJsonError.Some? {
      var m := fb.lastJsonError.value;
      InfixSelf(m);
      InfixInRight(m, s + JsonErrorIntro, m);
      InfixInLeft(m, s + JsonErrorIntro + m, JsonErrorOutro);
      InfixOfPrefix(m, t, WithFeedback(s, fb));
    }
    if fb.lastErrors.Some? {
      var es := fb.lastErrors.value;
      forall k | 0 <= k < |es| ensures IsInfix(ErrorLine(es[k]), WithFeedback(s, fb)) {
        ErrorLinesKeepEach(t + ErrorsIntro, es, k);
        InfixInLeft(ErrorLine(es[k]), WithErrorLines(t + ErrorsIntro, es), ErrorsOutro);
      }
    }
  }

  lemma {:induction false} ConstraintsExtend(s: string, constraints: seq<string>)
    ensures s <= WithConstraints(s, constraints)
    decreases |constraints|
  {
    if constraints != [] {
      ConstraintsExtend(s, constraints[..|constraints| - 1]);
    }
  }

  lemma {:induction false} ConstraintsKeepEach(s: string, constraints: seq<string>, k: nat)
    requires k < |constraints|
    ensures IsInfix("  - " + constraints[k] + "\n", WithConstraints(s, constraints))
    decreases |constraints|
  {
    var init := constraints[..|constraints| - 1];
    var c := constraints[|constraints| - 1];
    InfixOfLastThree(WithConstraints(s, init), "  - ", c, "\n");
    if k < |constraints| - 1 {
      ConstraintsKeepEach(s, init, k);
      assert init[k] == constraints[k];
      PrefixOfAppends(WithConstraints(s, init), "  - ", c, "\n", []);
      InfixOfPrefix("  - " + constraints[k] + "\n", WithConstraints(s, init), WithConstraints(s, constraints));
    }
  }

  /** The feature-design prompt holds the schema outline, the repository
      summary, and every constraint on a bullet line of its own. */
  lemma {:induction false} DesignPromptStatesInput(input: FeatureDesignInput, schema: TypeDef, fb: Feedback)
    ensures IsInfix(SchemaDescription(schema, 0), DesignPrompt(input, schema, fb))
    ensures IsInfix(input.repoSummary, DesignPrompt(input, schema, fb))
    ensures forall k :: 0 <= k < |input.constraints| ==>
              IsInfix("  - " + input.constraints[k] + "\n", DesignPrompt(input, schema, fb))
  {
    var p := DesignPrompt(input, schema, fb);
    var head := WithSchemaSection("", schema);
    var context := WithContext(head, input);
    var open := head + "Context:\n" + "- Repo summary: " + input.repoSummary + "\n- Constraints:\n";
    FeedbackOnlyAppends(context, fb);
    ConstraintsExtend(open, input.constraints);
    // the schema outline
    var d := SchemaDescription(schema, 0);
    InfixSelf(d);
    InfixInRight(d, "" + Preamble, d);
    InfixInLeft(d, "" + Preamble + d, OutputRules);
    InfixInLeft(d, head, "Context:\n");
    InfixInLeft(d, head + "Context:\n", "- Repo summary: ");
    InfixInLeft(d, head + "Context:\n" + "- Repo summary: ", input.repoSummary);
    InfixInLeft(d, head + "Context:\n" + "- Repo summary: " + input.repoSummary, "\n- Constraints:\n");
    InfixOfPrefix(d, open, context);
    InfixOfPrefix(d, context, p);
    // the summary
    var r := input.repoSummary;
    InfixSelf(r);
    InfixInRight(r, head + "Context:\n" + "- Repo summary: ", r);
    InfixInLeft(r, head + "Context:\n" + "- Repo summary: " + r, "\n- Constraints:\n");
    InfixOfPrefix(r, open, context);
    InfixOfPrefix(r, context, p);
    // the constraints
    forall k | 0 <= k < |input.constraints|
      ensures IsInfix("  - " + input.constraints[k] + "\n", p)
    {
      ConstraintsKeepEach(open, input.constraints, k);
      InfixOfPrefix("  - " + input.constraints[k] + "\n", context, p);
    }
  }

  lemma SchemaSectionHoldsOutline(s: string, schema: TypeDef)
    ensures IsInfix(SchemaDescription(schema, 0), WithSchemaSection(s, schema))
  {
    var d := SchemaDescription(schema, 0);
    InfixSelf(d);
    InfixInRight(d, s + Preamble, d);
    InfixInLeft(d, s + Preamble + d, OutputRules);
  }

  /** Text already in the buffer survives the feedback. */
  lemma FeedbackKeepsInfix(t: string, s: string, fb: Feedback)
    requires IsInfix(t, s)
    ensures IsInfix(t, WithFeedback(s, fb))
  {
    FeedbackOnlyAppends(s, fb);
    InfixOfPrefix(t, s, WithFeedback(s, fb));
  }

  /** Text already in the buffer survives the Task block. */
  lemma TaskKeepsInfix(t: string, s: string, input: FormationInput)
    requires IsInfix(t, s)
    ensures IsInfix(t, WithFormationTask(s, input))
  {
    var count := NatToString(input.unitCount);
    var header := WithTaskHeader(s, input);
    var rule := WithCountRule(header, count);
    PrefixOfAppends(s, "Task: Generate 2D coordinates for unit formation.\n",
                    "- Formation description: " + input.formationDescription + "\n",
                    "- Number of units: " + count + "\n", "\n");
    InfixOfPrefix(t, s, header);
    PrefixOfAppends(header, UnitCountIntro, count, UnitCountOutro, []);
    InfixOfPrefix(t, header, rule);
    PrefixOfAppends(rule, "The coordinates array must contain exactly ", count, " items.\n", FormationGuidance);
    InfixOfPrefix(t, rule, WithItemsRule(rule, count));
  }

  lemma {:induction false} FormationTaskStatesCount(s: string, input: FormationInput)
    ensures IsInfix(UnitCountIntro + NatToString(input.unitCount) + UnitCountOutro, WithFormationTask(s, input))
  {
    var count := NatToString(input.unitCount);
    var header := WithTaskHeader(s, input);
    var rule := WithCountRule(header, count);
    InfixOfLastThree(header, UnitCountIntro, count, UnitCountOutro);
    PrefixOfAppends(rule, "The coordinates array must contain exactly ", count, " items.\n", FormationGuidance);
    InfixOfPrefix(UnitCountIntro + count + UnitCountOutro, rule, WithItemsRule(rule, count));
  }

  /** The formation prompt holds the schema outline and demands exactly the
      requested number of coordinates, written in decimal. */
  lemma {:induction false} FormationPromptStatesCount(input: FormationInput, schema: TypeDef, fb: Feedback)
    ensures IsInfix(SchemaDescription(schema, 0), FormationPrompt(input, schema, fb))
    ensures IsInfix(UnitCountIntro + NatToString(input.unitCount) + UnitCountOutro,
                    FormationPrompt(input, schema, fb))
  {
    var head := WithSchemaSection("", schema);
    var task := WithFormationTask(head, input);
    SchemaSectionHoldsOutline("", schema);
    TaskKeepsInfix(SchemaDescription(schema, 0), head, input);
    FeedbackKeepsInfix(SchemaDescription(schema, 0), task, fb);
    FormationTaskStatesCount(head, input);
    FeedbackKeepsInfix(UnitCountIntro + NatToString(input.unitCount) + UnitCountOutro, task, fb);
  }

  // ---------------------------------------------------------------------
  // The procedures

  /** The feedback pushes, shared by both prompt builders. */
  method PushFeedback(s: string, lastErrors: Option<seq<ValidationError>>, lastJsonError: Option<string>)
    returns (t: string)
    ensures t == WithFeedback(s, Feedback(lastErrors, lastJsonError))
  {
    t := s;
    if lastJsonError.Some? {
      t := t + JsonErrorIntro;
      t := t + lastJsonError.value;
      t := t + JsonErrorOutro;
    }
    if lastErrors.Some? {
      var errors := lastErrors.value;
      t := t + ErrorsIntro;
      ghost var open := t;
      for k := 0 to |errors|
        invariant t == WithErrorLines(open, errors[..k])
      {
        ErrorLinesStep(open, errors, k);
        t := t + "- ";
        t := t + Render(errors[k]);
        t := t + "\n";
      }
      assert errors[..|errors|] == errors;
      t := t + ErrorsOutro;
    }
  }

  /** `build_prompt`. */
  method BuildPrompt(input: FeatureDesignInput, schema: TypeDef,
                     lastErrors: Option<seq<ValidationError>>, lastJsonError: Option<string>)
    returns (s: string)
    ensures s == DesignPrompt(input, schema, Feedback(lastErrors, lastJsonError))
  {
    s := "";
    s := s + Preamble;
    var d := DescribeSchema(schema, 0);
    s := s + d;
    s := s + OutputRules;
    s := s + "Context:\n";
    s := s + "- Repo summary: ";
    s := s + input.repoSummary;
    s := s + "\n- Constraints:\n";
    ghost var open := s;
    var constraints := input.constraints;
    for k := 0 to |constraints|
      invariant s == WithConstraints(open, constraints[..k])
    {
      assert constraints[..k + 1][..k] == constraints[..k];
      s := s + "  - ";
      s := s + constraints[k];
      s := s + "\n";
    }
    assert constraints[..|constraints|] == constraints;
    s := PushFeedback(s, lastErrors, lastJsonError);
  }

  /** `build_formation_prompt`. */
  method BuildFormationPrompt(input: FormationInput, schema: TypeDef,
                              lastErrors: Option<seq<ValidationError>>, lastJsonError: Option<string>)
    returns (s: string)
    ensures s == FormationPrompt(input, schema, Feedback(lastErrors, lastJsonError))
  {
    s := "";
    s := s + Preamble;
    var d := DescribeSchema(schema, 0);
    s := s + d;
    s := s + OutputRules;
    var count := NatToString(input.unitCount);
    s := s + "Task: Generate 2D coordinates for unit formation.\n";
    s := s + ("- Formation description: " + input.formationDescription + "\n");
    s := s + ("- Number of units: " + count + "\n");
    s := s + "\n";
    s := s + UnitCountIntro;
    s := s + count;
    s := s + UnitCountOutro;
    s := s + "The coordinates array must contain exactly ";
    s := s + count;
    s := s + " items.\n";
    s := s + FormationGuidance;
    s := PushFeedback(s, lastErrors, lastJsonError);
  }
}
