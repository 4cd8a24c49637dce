/** The retry loops of the LLM client (src/llm.rs, `generate_feature_design`
    and `generate_formation`).

    Each loop makes up to three attempts. An attempt renders a prompt from
    the previous attempt's feedback, calls the model, parses the reply as
    JSON, validates it against the schema and decodes it. A parse failure or
    a rejected value becomes feedback for the next attempt; a transport
    error, a decoding failure and a parse failure on the last attempt end
    the loop at once.

    The model call and the JSON parser are parameters: `model` maps the
    attempt number and the prompt to a reply, and `parse` maps text to a
    value or to the parser's message. `RunFrom` is the loop written as a
    recursive function over a `Setup`, which bundles the prompt renderer,
    the model, the parser and the task's judgement of a parsed value. The
    two methods are the loops themselves, proved to return what `RunFrom`
    returns. */
module Llm {
  import opened Wrappers
  import opened Strings
  import opened JsonValue
  import opened Types
  import opened Shape
  import opened Prompt

  const MaxRetries: nat := 3

  /** What one model call yields: the reply text, or the error that `?`
      propagates out of the loop. */
  datatype Reply = Delivered(text: string) | TransportFailed(message: string)

  /** The ways a loop fails. */
  datatype GenError =
    | Transport(message: string)    // the model call failed
    | InvalidJson(lastError: string) // the last attempt's reply did not parse
    | DecodeFailed                  // a validated value did not decode
    | Exhausted                     // every attempt was rejected

  /** The text of the error, where the loop writes it itself; a decoding
      failure carries serde's text, which is not modelled. */
  function ErrorText(e: GenError): Option<string> {
    match e
    case Transport(message) => Some(message)
    case InvalidJson(lastError) =>
      Some("LLM did not return valid JSON after " + NatToString(MaxRetries) + " attempts. Last error: " + lastError)
    case DecodeFailed => None
    case Exhausted => Some("LLM failed to produce valid output after " + NatToString(MaxRetries) + " attempts")
  }

  /** The invalid-JSON text ends with the last parse message verbatim, so
      different messages give different texts, and it never reads as the
      exhaustion text. */
  lemma InvalidJsonTextKeepsMessage(m: string, m': string)
    ensures var t := ErrorText(InvalidJson(m)).value;
            |t| >= |m| && t[|t| - |m|..] == m && t != ErrorText(Exhausted).value &&
            (ErrorText(InvalidJson(m')) == ErrorText(InvalidJson(m)) ==> m' == m)
  {
    var p := "LLM did not return valid JSON after " + NatToString(MaxRetries) + " attempts. Last error: ";
    var t := p + m;
    assert ErrorText(InvalidJson(m)).value == t;
    assert t[|t| - |m|..] == m;
    assert t[4] == 'd' && ErrorText(Exhausted).value[4] == 'f';
    if ErrorText(InvalidJson(m')) == ErrorText(InvalidJson(m)) {
      assert (p + m')[|p|..] == m' && t[|p|..] == m;
    }
  }

  /** The task's judgement of a parsed value: accepted as a typed result,
      rejected with errors that are fed back, or not decodable. */
  datatype Verdict<T> = Accept(value: T) | Reject(errors: seq<ValidationError>) | Undecodable

  /** Everything a loop is run with. */
  datatype Setup<T> = Setup(
    prompt: Feedback -> string,
    model: (nat, string) -> Reply,
    parse: string -> Result<Json, string>,
    judge: Json -> Verdict<T>)

  /** The end of one attempt: the loop returns, or it goes on with new
      feedback. */
  datatype Outcome<T> = Done(result: Result<T, GenError>) | Retry(feedback: Feedback)

  /** Exactly one kind of feedback is set. */
  predicate OneKind(fb: Feedback) {
    fb.lastErrors.Some? != fb.lastJsonError.Some?
  }

  /** One attempt, given the reply it received. A parse failure clears the
      error list and a rejection clears the parse message. */
  function Step<T>(reply: Reply, parse: string -> Result<Json, string>, judge: Json -> Verdict<T>, last: bool): Outcome<T> {
    match reply
    case TransportFailed(message) => Done(Err(Transport(message)))
    case Delivered(text) =>
      match parse(text)
      case Err(message) =>
        if last then Done(Err(InvalidJson(message))) else Retry(Feedback(None, Some(message)))
      case Ok(v) =>
        match judge(v)
        case Accept(x) => Done(Ok(x))
        case Undecodable => Done(Err(DecodeFailed))
        case Reject(errors) => Retry(Feedback(Some(errors), None))
  }

  /** The attempt numbered `attempt` with feedback `fb`. */
  function Attempt<T>(attempt: nat, fb: Feedback, setup: Setup<T>): Outcome<T> {
    Step(setup.model(attempt, setup.prompt(fb)), setup.parse, setup.judge, attempt == MaxRetries - 1)
  }

  /** What the loop returns when it reaches attempt `attempt` with feedback
      `fb`. */
  function RunFrom<T>(attempt: nat, fb: Feedback, setup: Setup<T>): Result<T, GenError>
    decreases MaxRetries - attempt
  {
    if attempt >= MaxRetries then Err(Exhausted)
    else
      match Attempt(attempt, fb, setup)
      case Done(result) => result
      case Retry(next) => RunFrom(attempt + 1, next, setup)
  }

  /** The prompts the loop sends from attempt `attempt` on, one per model
      call. */
  function Sent<T>(attempt: nat, fb: Feedback, setup: Setup<T>): seq<string>
    decreases MaxRetries - attempt
  {
    if attempt >= MaxRetries then []
    else
      match Attempt(attempt, fb, setup)
      case Done(_) => [setup.prompt(fb)]
      case Retry(next) => [setup.prompt(fb)] + Sent(attempt + 1, next, setup)
  }

  /** The feedback the attempt after the `k`-th call is made with. */
  function FeedbackAfter<T>(attempt: nat, fb: Feedback, setup: Setup<T>, k: nat): Feedback
    decreases k
  {
    if k == 0 then fb
    else
      match Attempt(attempt, fb, setup)
      case Done(_) => fb
      case Retry(next) => FeedbackAfter(attempt + 1, next, setup, k - 1)
  }

  // ---------------------------------------------------------------------
  // Properties of every loop

  /** The reply that was accepted as `x`. */
  ghost predicate Accepts<T>(reply: Reply, setup: Setup<T>, x: T) {
    reply.Delivered? && setup.parse(reply.text).Ok? && setup.judge(setup.parse(reply.text).value) == Accept(x)
  }

  /** The value the reply to the loop's last call parsed to, when that
      reply was delivered and parsed. */
  ghost function LastParsed<T>(attempt: nat, fb: Feedback, setup: Setup<T>): Option<Json> {
    var sent := Sent(attempt, fb, setup);
    if sent == [] then None
    else
      match setup.model(attempt + |sent| - 1, sent[|sent| - 1])
      case TransportFailed(_) => None
      case Delivered(text) =>
        match setup.parse(text)
        case Ok(v) => Some(v)
        case Err(_) => None
  }

  /** One to three calls, the first one with the prompt that carries no
      feedback when the loop starts without any. */
  lemma {:induction false} CallsBounded<T>(attempt: nat, fb: Feedback, setup: Setup<T>)
    requires attempt < MaxRetries
    ensures 1 <= |Sent(attempt, fb, setup)| <= MaxRetries - attempt
    ensures Sent(attempt, fb, setup)[0] == setup.prompt(fb)
    decreases MaxRetries - attempt
  {
    match Attempt(attempt, fb, setup)
    case Done(_) =>
    case Retry(next) =>
      if attempt + 1 < MaxRetries {
        CallsBounded(attempt + 1, next, setup);
      }
  }

  /** The `k`-th call sends the prompt for the feedback left by the call
      before it, and every retry carries exactly one kind of feedback. */
  lemma {:induction false} RetriesCarryFeedback<T>(attempt: nat, fb: Feedback, setup: Setup<T>, k: nat)
    requires k < |Sent(attempt, fb, setup)|
    ensures Sent(attempt, fb, setup)[k] == setup.prompt(FeedbackAfter(attempt, fb, setup, k))
    ensures k > 0 ==> OneKind(FeedbackAfter(attempt, fb, setup, k))
    decreases k
  {
    match Attempt(attempt, fb, setup)
    case Done(_) =>
    case Retry(next) =>
      if k > 0 {
        RetriesCarryFeedback(attempt + 1, next, setup, k - 1);
        if k == 1 {
          assert FeedbackAfter(attempt + 1, next, setup, 0) == next;
        }
      }
  }

  /** Every call but the last one leads to a retry, and the last one
      decides the result: the outcome it ends the loop with, or exhaustion
      when it was the third call and still asked for a retry. So the loop
      returns on the first reply it accepts. */
  lemma {:induction false} RunEndsAtLastCall<T>(attempt: nat, fb: Feedback, setup: Setup<T>, k: nat)
    requires k < |Sent(attempt, fb, setup)|
    ensures var o := Attempt(attempt + k, FeedbackAfter(attempt, fb, setup, k), setup);
            (k + 1 < |Sent(attempt, fb, setup)| ==> o.Retry?) &&
            (k + 1 == |Sent(attempt, fb, setup)| ==>
               RunFrom(attempt, fb, setup) == if o.Done? then o.result else Err(Exhausted))
    decreases k
  {
    match Attempt(attempt, fb, setup)
    case Done(_) =>
    case Retry(next) =>
      if attempt + 1 < MaxRetries {
        CallsBounded(attempt + 1, next, setup);
      }
      if k > 0 {
        RunEndsAtLastCall(attempt + 1, next, setup, k - 1);
        assert attempt + k == attempt + 1 + (k - 1);
      }
  }

  /** Every call but the last one asks for a retry, and the feedback it
      leaves is the one the next call is made with. */
  lemma {:induction false} FeedbackAfterStep<T>(attempt: nat, fb: Feedback, setup: Setup<T>, k: nat)
    requires k + 1 < |Sent(attempt, fb, setup)|
    ensures Attempt(attempt + k, FeedbackAfter(attempt, fb, setup, k), setup)
            == Retry(FeedbackAfter(attempt, fb, setup, k + 1))
    decreases k
  {
    match Attempt(attempt, fb, setup)
    case Done(_) =>
    case Retry(next) =>
      if k > 0 {
        FeedbackAfterStep(attempt + 1, next, setup, k - 1);
        assert attempt + k == attempt + 1 + (k - 1);
      }
  }

  /** When every prompt is a fixed text followed by the feedback, each
      retry's prompt shows what was wrong with the reply before it: the
      parse message, or a line for each error the task rejected it with. */
  lemma RetryPromptReportsPreviousReply<T>(setup: Setup<T>, base: string, attempt: nat, fb: Feedback, k: nat)
    requires forall g :: setup.prompt(g) == WithFeedback(base, g)
    requires k + 1 < |Sent(attempt, fb, setup)|
    ensures var sent := Sent(attempt, fb, setup);
            var reply := setup.model(attempt + k, sent[k]);
            reply.Delivered? &&
            match setup.parse(reply.text)
            case Err(m) => IsInfix(m, sent[k + 1])
            case Ok(v) =>
              setup.judge(v).Reject? &&
              forall e :: e in setup.judge(v).errors ==> IsInfix(ErrorLine(e), sent[k + 1])
  {
    var g := FeedbackAfter(attempt, fb, setup, k);
    var next := FeedbackAfter(attempt, fb, setup, k + 1);
    RetriesCarryFeedback(attempt, fb, setup, k);
    RetriesCarryFeedback(attempt, fb, setup, k + 1);
    FeedbackAfterStep(attempt, fb, setup, k);
    FeedbackReportsEverything(base, next);
    var reply := setup.model(attempt + k, setup.prompt(g));
    if reply.Delivered? && setup.parse(reply.text).Ok? {
      var errors := setup.judge(setup.parse(reply.text).value).errors;
      forall e | e in errors
        ensures IsInfix(ErrorLine(e), WithFeedback(base, next))
      {
        var i :| 0 <= i < |errors| && errors[i] == e;
      }
    }
  }

  /** A success is the reply to the last call the loop made: it parsed and
      the task accepted it. */
  lemma {:induction false} SuccessIsAccepted<T>(attempt: nat, fb: Feedback, setup: Setup<T>, x: T)
    requires RunFrom(attempt, fb, setup) == Ok(x)
    ensures var sent := Sent(attempt, fb, setup);
            |sent| > 0 && Accepts(setup.model(attempt + |sent| - 1, sent[|sent| - 1]), setup, x)
    decreases MaxRetries - attempt
  {
    match Attempt(attempt, fb, setup)
    case Done(_) =>
    case Retry(next) =>
      SuccessIsAccepted(attempt + 1, next, setup, x);
      var rest := Sent(attempt + 1, next, setup);
      assert Sent(attempt, fb, setup) == [setup.prompt(fb)] + rest;
  }

  /** A success is the verdict on the value the last reply parsed to. */
  lemma SuccessIsLastParsed<T>(setup: Setup<T>, x: T) returns (v: Json)
    requires RunFrom(0, NoFeedback, setup) == Ok(x)
    ensures LastParsed(0, NoFeedback, setup) == Some(v) && setup.judge(v) == Accept(x)
  {
    SuccessIsAccepted(0, NoFeedback, setup, x);
    var sent := Sent(0, NoFeedback, setup);
    var reply := setup.model(|sent| - 1, sent[|sent| - 1]);
    v := setup.parse(reply.text).value;
  }

  /** A transport error ends the loop: it is the reply to the last call,
      and every earlier call got text back. */
  lemma {:induction false} TransportErrorEndsLoop<T>(attempt: nat, fb: Feedback, setup: Setup<T>, m: string)
    requires RunFrom(attempt, fb, setup) == Err(Transport(m))
    ensures var sent := Sent(attempt, fb, setup);
            |sent| > 0 &&
            setup.model(attempt + |sent| - 1, sent[|sent| - 1]) == TransportFailed(m) &&
            forall k :: 0 <= k < |sent| - 1 ==> setup.model(attempt + k, sent[k]).Delivered?
    decreases MaxRetries - attempt
  {
    var sent := Sent(attempt, fb, setup);
    match Attempt(attempt, fb, setup)
    case Done(_) =>
    case Retry(next) =>
      TransportErrorEndsLoop(attempt + 1, next, setup, m);
      var rest := Sent(attempt + 1, next, setup);
      assert sent == [setup.prompt(fb)] + rest;
      forall k | 0 <= k < |sent| - 1
        ensures setup.model(attempt + k, sent[k]).Delivered?
      {
        if k > 0 {
          assert sent[k] == rest[k - 1];
        }
      }
  }

  /** A loop started at attempt 0 reports invalid JSON only after three
      calls, the last of whose replies failed to parse with that message. */
  lemma {:induction false} InvalidJsonOnLastAttempt<T>(attempt: nat, fb: Feedback, setup: Setup<T>, m: string)
    requires RunFrom(attempt, fb, setup) == Err(InvalidJson(m))
    ensures var sent := Sent(attempt, fb, setup);
            attempt + |sent| == MaxRetries && |sent| > 0 &&
            var reply := setup.model(MaxRetries - 1, sent[|sent| - 1]);
            reply.Delivered? && setup.parse(reply.text) == Err(m)
    decreases MaxRetries - attempt
  {
    match Attempt(attempt, fb, setup)
    case Done(_) =>
    case Retry(next) =>
      InvalidJsonOnLastAttempt(attempt + 1, next, setup, m);
      var rest := Sent(attempt + 1, next, setup);
      assert Sent(attempt, fb, setup) == [setup.prompt(fb)] + rest;
  }

  /** The loop is exhausted only after three calls, the last of whose
      replies parsed and was rejected. */
  lemma {:induction false} ExhaustedAfterEveryAttempt<T>(attempt: nat, fb: Feedback, setup: Setup<T>)
    requires attempt < MaxRetries
    requires RunFrom(attempt, fb, setup) == Err(Exhausted)
    ensures var sent := Sent(attempt, fb, setup);
            attempt + |sent| == MaxRetries &&
            var reply := setup.model(MaxRetries - 1, sent[|sent| - 1]);
            reply.Delivered? && setup.parse(reply.text).Ok? &&
            setup.judge(setup.parse(reply.text).value).Reject?
    decreases MaxRetries - attempt
  {
    CallsBounded(attempt, fb, setup);
    match Attempt(attempt, fb, setup)
    case Done(_) =>
    case Retry(next) =>
      var rest := Sent(attempt + 1, next, setup);
      assert Sent(attempt, fb, setup) == [setup.prompt(fb)] + rest;
      if attempt + 1 < MaxRetries {
        ExhaustedAfterEveryAttempt(attempt + 1, next, setup);
      }
  }

  /** A task whose judgement never finds a value undecodable never fails
      to decode. */
  lemma {:induction false} DecodableNeverFails<T>(attempt: nat, fb: Feedback, setup: Setup<T>)
    requires forall v :: !setup.judge(v).Undecodable?
    ensures RunFrom(attempt, fb, setup) != Err(DecodeFailed)
    decreases MaxRetries - attempt
  {
    if attempt < MaxRetries {
      match Attempt(attempt, fb, setup)
      case Done(_) =>
      case Retry(next) =>
        DecodableNeverFails(attempt + 1, next, setup);
    }
  }

  // ---------------------------------------------------------------------
  // The FeatureDesign task

  /** Validation first; a value that passes it is decoded, and a decoding
      failure is fatal. */
  function DesignVerdict(schema: TypeDef, v: Json): (r: Verdict<FeatureDesignOutput>) {
    var errors := Errors(schema, v, "$");
    if errors != [] then Reject(errors)
    else match Decode(v)
      case Some(o) => Accept(o)
      case None => Undecodable
  }

  function DesignJudge(schema: TypeDef): Json -> Verdict<FeatureDesignOutput> {
    v => DesignVerdict(schema, v)
  }

  function DesignSetup(input: FeatureDesignInput, schema: TypeDef,
                       model: (nat, string) -> Reply, parse: string -> Result<Json, string>): Setup<FeatureDesignOutput>
  {
    Setup(fb => DesignPrompt(input, schema, fb), model, parse, DesignJudge(schema))
  }

  /** What `generate_feature_design` returns. */
  function DesignRun(input: FeatureDesignInput, schema: TypeDef,
                     model: (nat, string) -> Reply, parse: string -> Result<Json, string>): Result<FeatureDesignOutput, GenError>
  {
    RunFrom(0, NoFeedback, DesignSetup(input, schema, model, parse))
  }

  /** A FeatureDesign result is the decoding of the reply to the loop's last
      call, which parsed and passed the validator; against the FeatureDesign
      schema that reply conforms and the result carries each of its fields
      verbatim. Stated for any loop that judges replies as the FeatureDesign
      task does, whatever prompts it sends. */
  lemma {:induction false} DesignSuccessIsValidated(setup: Setup<FeatureDesignOutput>, schema: TypeDef, o: FeatureDesignOutput)
    requires forall v :: setup.judge(v) == DesignVerdict(schema, v)
    requires RunFrom(0, NoFeedback, setup) == Ok(o)
    ensures LastParsed(0, NoFeedback, setup).Some?
    ensures DesignReplyYields(schema, LastParsed(0, NoFeedback, setup).value, o)
  {
    var v := SuccessIsLastParsed(setup, o);
    AcceptedDesignMirrors(schema, v, o);
  }

  /** `v` passed the validator and decodes to `o`; against the FeatureDesign
      schema it conforms and `o` carries each of its fields verbatim. */
  ghost predicate DesignReplyYields(schema: TypeDef, v: Json, o: FeatureDesignOutput) {
    Errors(schema, v, "$") == [] && Decode(v) == Some(o) &&
    (schema == FeatureDesignSchema() ==> Conforms(schema, v) && Mirrors(v, o))
  }

  lemma AcceptedDesignMirrors(schema: TypeDef, v: Json, o: FeatureDesignOutput)
    requires DesignVerdict(schema, v) == Accept(o)
    ensures DesignReplyYields(schema, v, o)
  {
    if schema == FeatureDesignSchema() {
      ValidIffConforms(schema, v, "$");
      DecodeIsVerbatim(v);
    }
  }

  /** Against the FeatureDesign schema the loop never fails to decode:
      every value the validator passes decodes. */
  lemma DesignSchemaAlwaysDecodes(setup: Setup<FeatureDesignOutput>)
    requires forall v :: setup.judge(v) == DesignVerdict(FeatureDesignSchema(), v)
    ensures RunFrom(0, NoFeedback, setup) != Err(DecodeFailed)
  {
    forall v ensures !setup.judge(v).Undecodable? {
      if Errors(FeatureDesignSchema(), v, "$") == [] {
        ValidatedValueDecodes(v);
      }
    }
    DecodableNeverFails(0, NoFeedback, setup);
  }

  /** What `generate_feature_design` does with the model's reply: parse,
      validate and decode it, and either end the loop or leave feedback for
      the next attempt. */
  method JudgeDesignReply(schema: TypeDef, parse: string -> Result<Json, string>, reply: Reply, last: bool)
    returns (o: Outcome<FeatureDesignOutput>)
    ensures o == Step(reply, parse, DesignJudge(schema), last)
  {
    if reply.TransportFailed? {
      return Done(Err(Transport(reply.message)));
    }
    var parsed := parse(reply.text);
    if parsed.Err? {
      if last {
        return Done(Err(InvalidJson(parsed.error)));
      }
      return Retry(Feedback(None, Some(parsed.error)));
    }
    var value := parsed.value;
    var verdict := Validate(schema, value);
    match verdict {
      case Ok(_) =>
        var typed := Decode(value);
        if typed.None? {
          return Done(Err(DecodeFailed));
        }
        return Done(Ok(typed.value));
      case Err(errors) =>
        return Retry(Feedback(Some(errors), None));
    }
  }

  /** The start of each pass of `generate_feature_design`'s loop: render
      the prompt from the current feedback and call the model with it. The
      loop sees the prompt only through `setup`. */
  method AskDesign(ghost setup: Setup<FeatureDesignOutput>, input: FeatureDesignInput, schema: TypeDef,
                   model: (nat, string) -> Reply, attempt: nat,
                   lastErrors: Option<seq<ValidationError>>, lastJsonError: Option<string>)
    returns (reply: Reply)
    requires setup.model == model
    requires forall fb {:trigger DesignPrompt(input, schema, fb)} :: setup.prompt(fb) == DesignPrompt(input, schema, fb)
    ensures reply == setup.model(attempt, setup.prompt(Feedback(lastErrors, lastJsonError)))
  {
    var prompt := BuildPrompt(input, schema, lastErrors, lastJsonError);
    reply := model(attempt, prompt);
  }

  /** The loop of `generate_feature_design`, run for any `setup` that
      renders the FeatureDesign prompt and judges replies as this task
      does. */
  method DesignLoop(ghost setup: Setup<FeatureDesignOutput>, input: FeatureDesignInput, schema: TypeDef,
                    model: (nat, string) -> Reply, parse: string -> Result<Json, string>)
    returns (r: Result<FeatureDesignOutput, GenError>)
    requires setup.model == model && setup.parse == parse && setup.judge == DesignJudge(schema)
    requires forall fb {:trigger DesignPrompt(input, schema, fb)} :: setup.prompt(fb) == DesignPrompt(input, schema, fb)
    ensures r == RunFrom(0, NoFeedback, setup)
  {
    var lastErrors: Option<seq<ValidationError>> := None;
    var lastJsonError: Option<string> := None;
    for attempt := 0 to MaxRetries
      invariant RunFrom(0, NoFeedback, setup) == RunFrom(attempt, Feedback(lastErrors, lastJsonError), setup)
    {
      var reply := AskDesign(setup, input, schema, model, attempt, lastErrors, lastJsonError);
      var outcome := JudgeDesignReply(schema, parse, reply, attempt == MaxRetries - 1);
      match outcome {
        case Done(result) =>
          return result;
        case Retry(feedback) =>
          lastErrors := feedback.lastErrors;
          lastJsonError := feedback.lastJsonError;
      }
    }
    r := Err(Exhausted);
  }

  /** `generate_feature_design`. */
  method GenerateFeatureDesign(input: FeatureDesignInput, schema: TypeDef,
                               model: (nat, string) -> Reply, parse: string -> Result<Json, string>)
    returns (r: Result<FeatureDesignOutput, GenError>)
    ensures r == DesignRun(input, schema, model, parse)
  {
    r := DesignLoop(DesignSetup(input, schema, model, parse), input, schema, model, parse);
  }

  // ---------------------------------------------------------------------
  // The Formation task

  /** The error fed back when the reply holds the wrong number of
      coordinates. */
  function CountMismatch(expected: nat, found: nat): ValidationError {
    TypeMismatch("$.coordinates",
                 "array with exactly " + NatToString(expected) + " items",
                 "array with " + NatToString(found) + " items")
  }

  /** Validation, then decoding (fatal on failure), then the count check,
      which rejects the value with a single mismatch error. */
  function FormationVerdict(input: FormationInput, schema: TypeDef,
                            decode: Json -> Option<FormationOutput>, v: Json): (r: Verdict<FormationOutput>)
  {
    var errors := Errors(schema, v, "$");
    if errors != [] then Reject(errors)
    else match decode(v)
      case None => Undecodable
      case Some(o) =>
        if |o.coordinates| != input.unitCount then Reject([CountMismatch(input.unitCount, |o.coordinates|)])
        else Accept(o)
  }

  function FormationJudge(input: FormationInput, schema: TypeDef, decode: Json -> Option<FormationOutput>)
    : Json -> Verdict<FormationOutput>
  {
    v => FormationVerdict(input, schema, decode, v)
  }

  function FormationSetup(input: FormationInput, schema: TypeDef, model: (nat, string) -> Reply,
                          parse: string -> Result<Json, string>, decode: Json -> Option<FormationOutput>)
    : Setup<FormationOutput>
  {
    Setup(fb => FormationPrompt(input, schema, fb), model, parse, FormationJudge(input, schema, decode))
  }

  /** What `generate_formation` returns. */
  function FormationRun(input: FormationInput, schema: TypeDef, model: (nat, string) -> Reply,
                        parse: string -> Result<Json, string>, decode: Json -> Option<FormationOutput>)
    : Result<FormationOutput, GenError>
  {
    RunFrom(0, NoFeedback, FormationSetup(input, schema, model, parse, decode))
  }

  /** A Formation result is the decoding of the reply to the loop's last
      call, which parsed and passed the validator, and it holds exactly the
      requested number of coordinates. Stated for any loop that judges
      replies as the Formation task does, whatever prompts it sends. */
  lemma {:induction false} FormationSuccessHasCount(setup: Setup<FormationOutput>, input: FormationInput, schema: TypeDef,
                                 decode: Json -> Option<FormationOutput>, o: FormationOutput)
    requires forall v :: setup.judge(v) == FormationVerdict(input, schema, decode, v)
    requires RunFrom(0, NoFeedback, setup) == Ok(o)
    ensures |o.coordinates| == input.unitCount
    ensures LastParsed(0, NoFeedback, setup).Some?
    ensures var v := LastParsed(0, NoFeedback, setup).value;
            Errors(schema, v, "$") == [] && decode(v) == Some(o)
  {
    var v := SuccessIsLastParsed(setup, o);
    assert FormationVerdict(input, schema, decode, v) == Accept(o);
  }

  /** A valid reply with the wrong number of coordinates is retried with a
      single mismatch error at `$.coordinates` that states both counts, and
      the next prompt shows it on a line of its own. */
  lemma CountMismatchFedBack(input: FormationInput, schema: TypeDef,
                             decode: Json -> Option<FormationOutput>, v: Json, s: string)
    requires Errors(schema, v, "$") == [] && decode(v).Some?
    requires |decode(v).value.coordinates| != input.unitCount
    ensures var e := CountMismatch(input.unitCount, |decode(v).value.coordinates|);
            FormationVerdict(input, schema, decode, v) == Reject([e]) &&
            IsInfix(ErrorLine(e), WithFeedback(s, Feedback(Some([e]), None)))
  {
    var e := CountMismatch(input.unitCount, |decode(v).value.coordinates|);
    FeedbackReportsEverything(s, Feedback(Some([e]), None));
  }

  /** What `generate_formation` does with the model's reply: parse,
      validate, decode and count, and either end the loop or leave feedback
      for the next attempt. */
  method JudgeFormationReply(input: FormationInput, schema: TypeDef, parse: string -> Result<Json, string>,
                             decode: Json -> Option<FormationOutput>, reply: Reply, last: bool)
    returns (o: Outcome<FormationOutput>)
    ensures o == Step(reply, parse, FormationJudge(input, schema, decode), last)
  {
    if reply.TransportFailed? {
      return Done(Err(Transport(reply.message)));
    }
    var parsed := parse(reply.text);
    if parsed.Err? {
      if last {
        return Done(Err(InvalidJson(parsed.error)));
      }
      return Retry(Feedback(None, Some(parsed.error)));
    }
    var value := parsed.value;
    var verdict := Validate(schema, value);
    match verdict {
      case Ok(_) =>
        var typed := decode(value);
        if typed.None? {
          return Done(Err(DecodeFailed));
        }
        if |typed.value.coordinates| != input.unitCount {
          return Retry(Feedback(Some([CountMismatch(input.unitCount, |typed.value.coordinates|)]), None));
        }
        return Done(Ok(typed.value));
      case Err(errors) =>
        return Retry(Feedback(Some(errors), None));
    }
  }

  /** The start of each pass of `generate_formation`'s loop: render the
      prompt from the current feedback and call the model with it. The loop
      sees the prompt only through `setup`. */
  method AskFormation(ghost setup: Setup<FormationOutput>, input: FormationInput, schema: TypeDef,
                      model: (nat, string) -> Reply, attempt: nat,
                      lastErrors: Option<seq<ValidationError>>, lastJsonError: Option<string>)
    returns (reply: Reply)
    requires setup.model == model
    requires forall fb {:trigger FormationPrompt(input, schema, fb)} :: setup.prompt(fb) == FormationPrompt(input, schema, fb)
    ensures reply == setup.model(attempt, setup.prompt(Feedback(lastErrors, lastJsonError)))
  {
    var prompt := BuildFormationPrompt(input, schema, lastErrors, lastJsonError);
    assert prompt == setup.prompt(Feedback(lastErrors, lastJsonError));
    reply := model(attempt, prompt);
  }

  /** The loop of `generate_formation`, run for any `setup` that renders
      the Formation prompt and judges replies as this task does. */
  method FormationLoop(ghost setup: Setup<FormationOutput>, input: FormationInput, schema: TypeDef,
                       model: (nat, string) -> Reply, parse: string -> Result<Json, string>,
                       decode: Json -> Option<FormationOutput>)
    returns (r: Result<FormationOutput, GenError>)
    requires setup.model == model && setup.parse == parse && setup.judge == FormationJudge(input, schema, decode)
    requires forall fb {:trigger FormationPrompt(input, schema, fb)} :: setup.prompt(fb) == FormationPrompt(input, schema, fb)
    ensures r == RunFrom(0, NoFeedback, setup)
  {
    var lastErrors: Option<seq<ValidationError>> := None;
    var lastJsonError: Option<string> := None;
    for attempt := 0 to MaxRetries
      invariant RunFrom(0, NoFeedback, setup) == RunFrom(attempt, Feedback(lastErrors, lastJsonError), setup)
    {
      var reply := AskFormation(setup, input, schema, model, attempt, lastErrors, lastJsonError);
      var outcome := JudgeFormationReply(input, schema, parse, decode, reply, attempt == MaxRetries - 1);
      match outcome {
        case Done(result) =>
          return result;
        case Retry(feedback) =>
          lastErrors := feedback.lastErrors;
          lastJsonError := feedback.lastJsonError;
      }
    }
    r := Err(Exhausted);
  }

  /** `generate_formation`. */
  method GenerateFormation(input: FormationInput, schema: TypeDef, model: (nat, string) -> Reply,
                           parse: string -> Result<Json, string>, decode: Json -> Option<FormationOutput>)
    returns (r: Result<FormationOutput, GenError>)
    ensures r == FormationRun(input, schema, model, parse, decode)
  {
    r := FormationLoop(FormationSetup(input, schema, model, parse, decode), input, schema, model, parse, decode);
  }
}
