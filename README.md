# shape-runner in Dafny

shape-runner asks a language model for JSON that must match a schema.
It checks the reply and retries with feedback until the reply fits.
This project models the core of that pipeline and proves what each stage promises.

- **The schema language and validator** (`src/types.rs`), in `types.dfy` (module `Types`):
  - `TypeDef`, `FieldDef`, `ValidationError` and its display text.
  - `validate` and `validate_inner`. The accumulating `&mut Vec` walk is the method `ValidateInner`, proved equal to the specification function `Errors`.
  - `value_type_name`.
  - The JSON value the validator walks (`serde_json::Value`) is in `json.dfy` (module `JsonValue`). Its key lookup takes the first entry with the key.
- **The FeatureDesign task** (`src/shape.rs`), in `shape.dfy` (module `Shape`):
  - The input and output records.
  - The schema `feature_design_output_typedef`.
  - The derived serde decoding and encoding of the output record, stated as functions.
  - The Formation records, which hold only what the loop inspects.
- **The response sanitizer** `clean_json_response` (`src/llm.rs`), in `sanitize.dfy` (module `Sanitizer`):
  - It has five stages: trim, strip the fence, cut out the brace-balanced object, drop control characters, and remove trailing commas.
  - `Cleaned` is their composition, and `CleanJsonResponse` is the stage-by-stage procedure with its brace-counting loop.
- **The prompt renderers** `describe_schema`, `build_prompt` and `build_formation_prompt` (`src/llm.rs`), in `prompt.dfy` (module `Prompt`):
  - Each buffer-appending procedure is a method proved equal to a function that describes the text it builds.
- **The retry loops** `generate_feature_design` and `generate_formation` (`src/llm.rs`), in `llm.dfy` (module `Llm`):
  - One generic three-attempt run, `RunFrom`, describes both loops.
  - Each loop is a method with a `for` loop over the attempts, proved to return what `RunFrom` returns.
  - The model call, the JSON parser and the Formation decoder are parameters.
- **The log previews** of `generate_feature_design` (src/llm.rs:72-93), in `preview.dfy` (module `Preview`): the byte slices it takes of the reply, as written and corrected (see "## Findings").
- `wrappers.dfy` holds `Option` and `Result`. `strings.dfy` holds decimal rendering of counts and facts about substrings.

## Model

| member | source | states |
|---|---|---|
| JsonValue.Lookup | src/types.rs:111 | a key is absent exactly when no entry carries it; a found value is stored under that key |
| JsonValue.LookupSkipsOtherKeys | src/types.rs:111 | entries with other keys, inserted anywhere, never change a lookup |
| Types.RenderIdentifiesError | src/types.rs:27-38 | equal display texts come from the same kind of error, and for a missing field from the same error |
| Types.RenderFirstChar | src/types.rs:27-38 | the display text is non-empty and starts with `M` for a missing field, `T` for a type mismatch |
| Types.Render | src/types.rs:27-38 | the display text of an error: `Missing required field at path P` or `Type mismatch at P: expected E, found F`; `RenderIdentifiesError` and `RenderFirstChar` state what it keeps apart |
| Types.ValueTypeName | src/types.rs:129-138 | the kind name of a JSON value (`null`, `boolean`, `number`, `string`, `array`, `object`); `WrongKindSingleMismatch` states it is what a mismatch reports as found |
| Types.Errors | src/types.rs:55-127 | the errors the walk meets for a value at a path, in order; `ValidateInner` appends exactly these, and `ValidIffConforms` ties their absence to conformance |
| Types.ItemErrors | src/types.rs:86-91 | the errors of the first `n` items, item `i` checked at `path[i]`; `ItemErrorsKept` and `ItemPathsFollowSteps` state what it keeps |
| Types.FieldErrors | src/types.rs:110-122 | the errors of the first `n` declared fields, in declaration order; `FieldErrorsKept` and `FieldPathsFollowSteps` state what it keeps |
| Types.FieldCheck | src/types.rs:111-121 | one declared field: a `MissingField` at `path.name` when the object lacks it, the field's own errors at `path.name` otherwise |
| Types.ValidateInner | src/types.rs:55-127 | the walk only appends: the new list is the old list followed by exactly the errors of this value at this path |
| Types.Validate | src/types.rs:45-53 | `Ok` exactly when no error is found at root `$`; otherwise `Err` with that whole, non-empty list |
| Types.ValidIffConforms | src/types.rs:55-127 | no errors exactly when the value conforms to the schema (an independent recursive definition) |
| Types.ItemsValidIffConform | src/types.rs:86-91 | a list has no errors exactly when every element conforms |
| Types.FieldsValidIffConform | src/types.rs:110-122 | an object has no errors exactly when every declared field is present and conforms |
| Types.WrongKindSingleMismatch | src/types.rs:58-108 | a value of the wrong kind yields exactly one mismatch at the current path, naming the expected and the found kind, and nothing deeper |
| Types.PrimitiveAcceptsItsKind | src/types.rs:59-85 | text, markdown, number and bool schemas accept exactly values of their own kind |
| Types.ExtendsTransitive | src/types.rs:89-112 | a path that extends a path that extends another extends that one too |
| Types.ErrorPathsExtend | src/types.rs:55-127 | every error path starts with the current path and, where it is longer, continues it with `.` or `[` |
| Types.ItemPathsExtend | src/types.rs:88-91 | every error inside a list lies strictly below the list's path |
| Types.FieldPathsExtend | src/types.rs:110-122 | every error inside an object lies strictly below the object's path |
| Types.Follow | src/types.rs:89-112 | the path reached from a path by a sequence of `.name` and `[idx]` steps |
| Types.ReachesThroughStep | src/types.rs:89-112 | a path reached after one step is reached from where that step began |
| Types.ErrorPathsFollowSteps | src/types.rs:55-127 | every error path is the current path followed by some sequence of `.name` and `[idx]` steps |
| Types.ItemPathsFollowSteps | src/types.rs:86-91 | every error inside a list is reached by such steps from `path[i]` for one of its items `i` |
| Types.FieldPathsFollowSteps | src/types.rs:110-122 | every error inside an object is reached by such steps from `path.name` for one of its declared fields |
| Types.ValidatePathsRooted | src/types.rs:45-47 | every error `validate` reports has a path starting with `$` |
| Types.ItemErrorsKept | src/types.rs:87-92 | each element's errors appear, in one piece, among the list's errors: a bad element does not stop its siblings |
| Types.FieldErrorsKept | src/types.rs:110-122 | each declared field's errors appear among the object's errors, and every absent field yields a `MissingField` at `path.name` |
| Types.UndeclaredKeysIgnored | src/types.rs:124 | keys the schema does not declare never change the errors of an object |
| Types.UndeclaredKeysIgnoredUpTo | src/types.rs:110-124 | the same for the first `n` declared fields |
| Strings.NatToString | src/llm.rs:465-471 | the decimal text of a count is non-empty, all digits, and has no leading zero |
| Strings.DecimalRoundTrip | src/llm.rs:465-471 | reading the decimal text back gives the count |
| Strings.NatToStringInjective | src/llm.rs:465-471 | different counts are written differently |
| Shape.FeatureDesignSchema | src/shape.rs:27-59 | `feature_design_output_typedef`; `FeatureDesignSchemaShape` and `RecordMatchesSchema` state its shape and its agreement with the record |
| Shape.Decode | src/shape.rs:11-24 | the object form of serde's derived decoding of a FeatureDesign record; `DecodeIffMirrors` states it succeeds exactly on objects that carry a record's fields |
| Shape.ToJson | src/shape.rs:11-24 | serde's derived encoding of the record; `ToJsonMirrors` and `RecordMatchesSchema` state that it carries every field and decodes back |
| Shape.FieldNames | src/shape.rs:27-59 | the names of a field list, one per field, in order |
| Shape.FeatureDesignSchemaShape | src/shape.rs:27-59 | the schema is an object with fields `name`, `rationale`, `components`, `risks` in that order, components have `id`, `responsibility`, `api`, and names are distinct within every object |
| Shape.EmptyObjectMissesEveryField | src/shape.rs:27-59 | an empty object yields four `MissingField` errors, at `$.name`, `$.rationale`, `$.components`, `$.risks`, in that order |
| Shape.DecodeComponentsMirrors | src/shape.rs:20-24 | a decoded component list has one component per element, each carrying that element's fields verbatim |
| Shape.DecodeStringsMirrors | src/shape.rs:16 | a decoded string list holds each element's text verbatim |
| Shape.DecodeIsVerbatim | src/shape.rs:12-17 | a decoded record carries exactly what the JSON object said |
| Shape.MirroredComponentDecodes | src/shape.rs:20-24 | an object carrying a component's three fields decodes to that component |
| Shape.MirroredComponentsDecode | src/shape.rs:15 | an array whose elements carry the components decodes to that list |
| Shape.MirroredStringsDecode | src/shape.rs:16 | an array of the strings decodes to those strings |
| Shape.DecodeIffMirrors | src/shape.rs:12-17 | the object form of decoding yields a record exactly when the value is an object carrying that record's fields |
| Shape.ConformingComponentDecodes | src/shape.rs:39-52 | a value that passes the component schema decodes |
| Shape.ConformingComponentsDecode | src/shape.rs:37-53 | a list of such values decodes |
| Shape.ConformingStringsDecode | src/shape.rs:54-57 | a list of strings passing `List(Text)` decodes |
| Shape.ValidatedValueDecodes | src/llm.rs:110-114 | a value that passed validation against this schema always decodes, to the record it carries |
| Shape.MirroredComponentConforms | src/shape.rs:39-52 | an object carrying a component passes the component schema |
| Shape.MirroredListsConform | src/shape.rs:37-57 | a value carrying a record has a conforming `components` and `risks` list |
| Shape.MirroredValueConforms | src/shape.rs:27-59 | a value carrying a record passes validation with no errors |
| Shape.MirroredValueMatchesSchema | src/shape.rs:27-59 | a value carrying a record conforms to the schema |
| Shape.ComponentToJsonMirrors | src/shape.rs:20-24 | a serialised component carries its fields |
| Shape.ComponentsToJsonMirror | src/shape.rs:15 | each serialised component carries its component's fields |
| Shape.StringsToJsonMirror | src/shape.rs:16 | each serialised risk is its string |
| Shape.ToJsonMirrors | src/shape.rs:12-17 | a serialised record carries all of its fields |
| Shape.RecordMatchesSchema | src/shape.rs:11-59 | every record, written as JSON, passes the schema and decodes back to itself |
| Sanitizer.TrimStartIndex | src/llm.rs:319 | the leading run of whitespace ends at the first non-whitespace character |
| Sanitizer.TrimEndIndex | src/llm.rs:319 | the trailing run of whitespace starts after the last non-whitespace character |
| Sanitizer.Trim | src/llm.rs:319 | the result has no surrounding whitespace, is a piece of the input with only whitespace around it, and trimmed text is unchanged |
| Sanitizer.TrimKeepsCharacters | src/llm.rs:319 | trimming introduces no characters |
| Sanitizer.TrimRemovesSurroundingWhitespace | src/llm.rs:319 | trimming removes exactly the whitespace around trimmed text |
| Sanitizer.IndexOf | src/llm.rs:324 | the index of the first occurrence, or none exactly when the character is absent |
| Sanitizer.LastIndexOf | src/llm.rs:361 | the index of the last occurrence, or none exactly when the character is absent |
| Sanitizer.StripFence | src/llm.rs:321-335 | the fence stage; `StripFenceUnwraps` states that it recovers a fenced body |
| Sanitizer.StripFenceUnwraps | src/llm.rs:322-335 | a body fenced with a tagged or untagged opening line and a closing fence is recovered exactly |
| Sanitizer.Scan | src/llm.rs:343-357 | the brace-counting scan; `ScanFindsFirstReturnToZero` and `ScanStaysInside` state what it finds |
| Sanitizer.MatchingClose | src/llm.rs:341-357 | the `}` matching the first `{`; `MatchingCloseIsFirstReturnToZero` states it is the first return to depth zero |
| Sanitizer.ExtractObject | src/llm.rs:339-367 | the extraction stage; `ExtractKeepsOrCuts`, `ExtractCutsAtMatch` and `ExtractFallsBackToLastClose` state each of its branches |
| Sanitizer.ScanFindsFirstReturnToZero | src/llm.rs:343-357 | the scan stops at a `}` where the depth first returns to zero; finding none means the depth never does |
| Sanitizer.MatchingCloseIsFirstReturnToZero | src/llm.rs:341-357 | the matching brace is the first point after the `{` where the depth is zero, and no match means the depth stays positive to the end |
| Sanitizer.ScanStaysInside | src/llm.rs:343-357 | a found close lies inside the text, at or after the start, and is a `}` |
| Sanitizer.ExtractKeepsOrCuts | src/llm.rs:341-367 | text without `{` is kept; otherwise the result is the text or a piece of it running from a `{` to a `}` |
| Sanitizer.BracedCut | src/llm.rs:359-364 | a cut from a `{` to a later `}` starts and ends with them and occurs in the text |
| Sanitizer.ExtractFallsBackToLastClose | src/llm.rs:361-366 | when counting never closes, the cut runs to the last `}` if it lies after the first `{`; otherwise, or with no `}`, the text is kept |
| Sanitizer.ScanReachesClose | src/llm.rs:343-357 | the scan reaches the first return to zero |
| Sanitizer.MatchingCloseFindsClose | src/llm.rs:343-357 | depth counting finds the first return to zero |
| Sanitizer.ClosedSliceIsBalanced | src/llm.rs:359-360 | the piece from a `{` to its matching `}` is a balanced object |
| Sanitizer.ExtractCutsAtMatch | src/llm.rs:359-360 | when counting closes, the cut is exactly the first `{` through its matching `}` |
| Sanitizer.ExtractCutsBalancedObject | src/llm.rs:341-360 | that cut is a brace-balanced object |
| Sanitizer.ExtractFindsEmbeddedObject | src/llm.rs:339-360 | a balanced object after brace-free text is cut out exactly, whatever follows it |
| Sanitizer.DropControls | src/llm.rs:371-389 | no character below U+0020 survives, and the text never grows |
| Sanitizer.DropControlsConcat | src/llm.rs:371-389 | the filter works character by character |
| Sanitizer.DropControlsKeepsCleanText | src/llm.rs:385-386 | text without control characters is kept unchanged |
| Sanitizer.BreakBecomesSpace | src/llm.rs:379-380 | a line break or a tab becomes exactly one space |
| Sanitizer.ReplaceAll | src/llm.rs:393-397 | `str::replace`, left to right without overlap; `ReplaceAllKeepsCharacters` and `ReplaceAllAbsent` state its properties |
| Sanitizer.RemoveTrailingCommas | src/llm.rs:391-397 | the four replacements in source order; `FencedReplyExample`, `DoubleCommaOnce` and `WideTrailingCommaKept` show what they do and miss |
| Sanitizer.Cleaned | src/llm.rs:318-400 | the whole sanitizer as the composition of its stages; `CleanedHasNoControl` and `CleanObjectIsFixpoint` state its properties |
| Sanitizer.ReplaceAllKeepsCharacters | src/llm.rs:393-397 | replacement only brings in characters of the input or of the replacement |
| Sanitizer.ReplaceAllAbsent | src/llm.rs:393-397 | replacing a pattern that does not occur changes nothing |
| Sanitizer.TrimKeepsNoControl | src/llm.rs:392 | trimming keeps text free of control characters |
| Sanitizer.ReplaceAllKeepsNoControl | src/llm.rs:393-397 | comma removal keeps text free of control characters |
| Sanitizer.CleanedHasNoControl | src/llm.rs:318-400 | the sanitizer's output never holds a character below U+0020 |
| Sanitizer.UnfencedKeepsPlainText | src/llm.rs:319-337 | trimmed text without a leading fence passes the first two stages unchanged |
| Sanitizer.BalancedObjectExtractsItself | src/llm.rs:341-360 | a balanced object is its own extraction |
| Sanitizer.FinishedIsCommaRemoval | src/llm.rs:371-399 | on trimmed text without control characters, the last stages only remove trailing commas and trim |
| Sanitizer.CleanObjectIsFixpoint | src/llm.rs:318-400 | an already clean object passes through the sanitizer unchanged |
| Sanitizer.CleanedIdempotentOnCleanOutput | src/llm.rs:318-400 | sanitizing again changes nothing when the first output is a clean object |
| Sanitizer.MatchedObjectExtractsItself | src/llm.rs:341-360 | text whose first `{` is matched by its last character is its own extraction |
| Sanitizer.UnfencedUnwraps | src/llm.rs:319-337 | trimming and fence stripping recover a fenced trimmed body |
| Sanitizer.MatchedObjectFinishes | src/llm.rs:371-399 | such an object without control characters only loses its trailing commas |
| Sanitizer.CleanedMatchedObject | src/llm.rs:318-400 | the whole sanitizer on such an object is comma removal and a trim |
| Sanitizer.CleanedFencedObject | src/llm.rs:318-400 | the same for such an object inside a markdown fence |
| Sanitizer.FencedReplyExample | src/llm.rs:318-400 | a fenced `{"a":1,}` is sanitized to `{"a":1}` |
| Sanitizer.DoubleCommaOnce | src/llm.rs:318-400 | the sanitizer turns `{,,}` into `{,}`, which still has a trailing comma |
| Sanitizer.SingleCommaRemoved | src/llm.rs:318-400 | the sanitizer turns `{,}` into `{}` |
| Sanitizer.CleanedNotIdempotent | src/llm.rs:392-399 | sanitizing twice can differ from sanitizing once |
| Sanitizer.WideTrailingCommaKept | src/llm.rs:318-400 | the sanitizer leaves `{1,  }` unchanged |
| Sanitizer.FindMatchingBrace | src/llm.rs:343-357 | the counting loop returns the first return to zero, and none only when the depth stays positive |
| Sanitizer.ExtractStage | src/llm.rs:341-367 | the extraction stage computes `ExtractObject` |
| Sanitizer.CleanJsonResponse | src/llm.rs:318-400 | the procedure computes `Cleaned`, and its result holds no control character |
| Prompt.Pad | src/llm.rs:509 | `indent` spaces and nothing else |
| Prompt.SchemaDescription | src/llm.rs:506-543 | every outline is non-empty and ends with a line break |
| Prompt.FieldLines | src/llm.rs:522-538 | the field lines keep the buffer ending in a line break |
| Prompt.WithFieldLine | src/llm.rs:523-537 | one field's lines end with a line break |
| Prompt.WithFieldLineStartsWithBullet | src/llm.rs:523 | a field's lines begin with the indented `- name: ` bullet |
| Prompt.FieldLinesGrow | src/llm.rs:522-538 | the field lines only append to what came before |
| Prompt.DescriptionNamesEveryField | src/llm.rs:520-538 | the outline of an object names each of its fields in a bullet |
| Prompt.DescriptionStartsIndented | src/llm.rs:511-521 | every outline starts with `indent` spaces and `- ` |
| Prompt.DescribeSchema | src/llm.rs:506-543 | the recursive buffer procedure builds exactly `SchemaDescription` |
| Prompt.WithFeedback | src/llm.rs:428-442 | the feedback sections appended to a prompt; `FeedbackOnlyAppends` and `FeedbackReportsEverything` state its properties |
| Prompt.DesignPrompt | src/llm.rs:402-445 | the text `build_prompt` builds; `DesignPromptStatesInput` and `DesignPromptOnlyGrows` state its properties |
| Prompt.FormationPrompt | src/llm.rs:447-503 | the text `build_formation_prompt` builds; `FormationPromptStatesCount` and `FormationPromptOnlyGrows` state its properties |
| Prompt.ErrorLinesExtend | src/llm.rs:436-440 | error lines only append |
| Prompt.FeedbackOnlyAppends | src/llm.rs:428-442 | feedback only appends, and any feedback makes the prompt longer |
| Prompt.NoFeedbackIsPrefix | src/llm.rs:428-442 | without feedback the buffer is unchanged, and it is a prefix of the buffer with feedback |
| Prompt.DesignPromptOnlyGrows | src/llm.rs:402-445 | the first-attempt prompt is a prefix of every retry prompt |
| Prompt.FormationPromptOnlyGrows | src/llm.rs:447-503 | the same for the formation prompt |
| Prompt.ErrorLinesKeepEach | src/llm.rs:436-440 | each error's `- ` line appears in the prompt |
| Prompt.FeedbackReportsEverything | src/llm.rs:428-442 | the parse message appears verbatim and every validation error appears as its own line |
| Prompt.ConstraintsExtend | src/llm.rs:422-426 | constraint lines only append |
| Prompt.ConstraintsKeepEach | src/llm.rs:422-426 | each constraint appears on its own `  - ` line |
| Prompt.DesignPromptStatesInput | src/llm.rs:410-426 | the design prompt holds the schema outline, the repo summary and every constraint line, whatever the feedback |
| Prompt.SchemaSectionHoldsOutline | src/llm.rs:410-416 | the opening section holds the schema outline |
| Prompt.FeedbackKeepsInfix | src/llm.rs:428-442 | feedback never removes text already in the prompt |
| Prompt.TaskKeepsInfix | src/llm.rs:463-484 | the task block never removes text already in the prompt |
| Prompt.FormationTaskStatesCount | src/llm.rs:467-469 | the task block holds the CRITICAL line with the unit count |
| Prompt.FormationPromptStatesCount | src/llm.rs:455-469 | the formation prompt holds the schema outline and the unit-count line, whatever the feedback |
| Prompt.PushFeedback | src/llm.rs:428-442 | the feedback appends build exactly the feedback text |
| Prompt.BuildPrompt | src/llm.rs:402-445 | `build_prompt` builds exactly `DesignPrompt` |
| Prompt.BuildFormationPrompt | src/llm.rs:447-503 | `build_formation_prompt` builds exactly `FormationPrompt` |
| Llm.ErrorText | src/llm.rs:95-131 | the error text each failure ends the loop with; `InvalidJsonTextKeepsMessage` states what it keeps |
| Llm.InvalidJsonTextKeepsMessage | src/llm.rs:97 | the invalid-JSON text ends with the last parse message verbatim, tells different messages apart, and differs from the exhaustion text |
| Llm.Step | src/llm.rs:70-125 | one attempt given its reply: a transport error or acceptance ends the loop, a parse error ends it only on the last attempt, and a rejection retries with its errors |
| Llm.RunFrom | src/llm.rs:52-131 | the loop's result from a given attempt and feedback; the lemmas below state what it returns |
| Llm.Sent | src/llm.rs:52-70 | the prompts the loop sends, one per model call |
| Llm.FeedbackAfter | src/llm.rs:101-119 | the feedback the loop holds after a number of calls |
| Llm.CallsBounded | src/llm.rs:52-56 | a run calls the model at least once and at most three times, first with the prompt that carries no feedback |
| Llm.RetriesCarryFeedback | src/llm.rs:101-119 | each retry sends the prompt for the previous call's feedback, and that feedback holds exactly one of a parse message or an error list |
| Llm.RunEndsAtLastCall | src/llm.rs:56-131 | every call but the last leads to a retry, and the run returns the last call's outcome, or exhaustion |
| Llm.FeedbackAfterStep | src/llm.rs:101-123 | every call but the last asks for a retry, and the feedback it leaves is the one the next call is made with |
| Llm.RetryPromptReportsPreviousReply | src/llm.rs:94-125 | when prompts are a fixed text followed by the feedback, as both tasks' prompts are, each retry's prompt holds the previous reply's parse message, or a line for each error it was rejected with |
| Llm.SuccessIsAccepted | src/llm.rs:110-114 | a success is the reply to the last call the loop made, and that reply parsed and was accepted as the result |
| Llm.TransportErrorEndsLoop | src/llm.rs:70 | a transport error is the reply to the last call, and every earlier call was delivered |
| Llm.InvalidJsonOnLastAttempt | src/llm.rs:95-98 | an invalid-JSON error comes from the third attempt and carries its parse message |
| Llm.ExhaustedAfterEveryAttempt | src/llm.rs:128-131 | exhaustion comes only after the third attempt, whose reply parsed and was rejected |
| Llm.DecodableNeverFails | src/llm.rs:113 | a task that decodes every value never fails to decode |
| Llm.DesignVerdict | src/llm.rs:110-125 | validation first, then decoding, which is fatal when it fails |
| Llm.SuccessIsLastParsed | src/llm.rs:69-114 | a success from a fresh start is the verdict on the value the reply to the loop's last call parsed to |
| Llm.DesignSuccessIsValidated | src/llm.rs:110-114 | a FeatureDesign result decodes the parse of the reply to the loop's last call, which has no validation errors; against the shipped schema that value conforms and carries the result verbatim |
| Llm.AcceptedDesignMirrors | src/llm.rs:110-114 | a value the FeatureDesign task accepts has no errors and decodes to the result; against the shipped schema it conforms and carries the result |
| Llm.DesignSchemaAlwaysDecodes | src/llm.rs:113 | against the FeatureDesign schema the loop never fails to decode |
| Llm.JudgeDesignReply | src/llm.rs:83-125 | one pass of the design loop's body yields the outcome `Step` describes |
| Llm.AskDesign | src/llm.rs:68-70 | the model is called with the prompt for the current feedback |
| Llm.DesignLoop | src/llm.rs:52-131 | the loop returns what the three-attempt run describes |
| Llm.GenerateFeatureDesign | src/llm.rs:47-132 | `generate_feature_design` returns `DesignRun` |
| Llm.CountMismatch | src/llm.rs:193-198 | the error fed back for a wrong count, at `$.coordinates`, naming both counts |
| Llm.FormationVerdict | src/llm.rs:183-219 | validation, then decoding (fatal when it fails), then the count check |
| Llm.FormationSuccessHasCount | src/llm.rs:183-208 | a Formation result has exactly `unit_count` coordinates and decodes the parse of the reply to the loop's last call, which has no validation errors |
| Llm.CountMismatchFedBack | src/llm.rs:188-205 | a valid reply with the wrong count is rejected with one mismatch at `$.coordinates`, whose line appears in the next prompt |
| Llm.JudgeFormationReply | src/llm.rs:160-219 | one pass of the formation loop's body yields the outcome `Step` describes |
| Llm.AskFormation | src/llm.rs:155-157 | the model is called with the prompt for the current feedback |
| Llm.FormationLoop | src/llm.rs:139-225 | the loop returns what the three-attempt run describes |
| Llm.GenerateFormation | src/llm.rs:134-226 | `generate_formation` returns `FormationRun` |
| Preview.Utf8Len | src/llm.rs:74 | the UTF-8 length of a character, between 1 and 4 bytes |
| Preview.CharsWithinFits | src/llm.rs:75 | the characters counted are the longest prefix that fits in `n` bytes |
| Preview.Head | src/llm.rs:74-92 | the preview as written: the text when it fits, else its first `n` bytes, undefined (a panic) when byte `n` falls inside a character |
| Preview.HeadDefinedIffBoundary | src/llm.rs:74-92 | the preview as written is defined exactly when the text fits or byte `n` is a character boundary |
| Preview.SplitCharHasNoHead | src/llm.rs:74-92 | a character straddling byte `n` leaves the preview as written undefined |
| Preview.EmDashAtByte500Panics | src/llm.rs:73-76 | a 502-byte reply of 499 ASCII characters and an em dash makes the first attempt's preview panic |
| Preview.HeadFixed | src/llm.rs:74-92 | the corrected preview, cut at the last character boundary at or before byte `n` |
| Preview.HeadFixedFits | src/llm.rs:74-92 | the corrected preview is the longest prefix of the text that fits in `n` bytes |
| Preview.HeadFixedAgrees | src/llm.rs:74-92 | wherever the preview as written is defined, the corrected one is the same text |

## Left out

- HTTP transport (`call_llm`, `call_ollama`, `call_mock_server`), client construction and environment lookups: these are network I/O. The model call is a parameter `(attempt, prompt) -> Reply`, where a reply is text or a transport failure.
- The sanitizer runs only on the Ollama path (src/llm.rs:279-282). It stays a separate procedure, and the loops receive whatever text the caller yields.
- `serde_json::from_str` is a parameter `string -> Result<Json, string>`, and its message is passed through as given.
- Formation decoding (`serde_json::from_value` into `FormationOutput`) is a parameter.
- Shape.Decode: models only the object form of serde's derived `Deserialize`, for the record and for each component. serde also decodes a struct from a JSON array of its fields in declaration order (e.g. `["n", "r", [], []]`), and `Decode` returns `None` there. The loops never reach that case, because validation against the object schema rejects an array first.
- JsonValue.Lookup: takes the first entry with the key, where serde_json keeps the last of repeated keys. The model assumes that `parse` produces objects without repeated keys, as serde_json's `Map` does, and there the two agree.
- The declarations of `FormationInput` and `FormationOutput` are not in src/shape.rs. The records in `shape.dfy` are rebuilt from their uses at src/llm.rs:464-465 and 189-197: a description, a unit count and a list of coordinates. The description is rendered into the prompt. `unit_count` is a `nat`, so its integer width is not modelled.
- Decoding a FeatureDesign record is modelled, but serde's error text for a failed decode (the `?` at src/llm.rs:113 and 186) is not. `DecodeFailed` carries no message, and `ErrorText` gives only the texts the loops write themselves.
- `eprintln!` diagnostics (src/llm.rs:57-66, 78, 90-93, 104, 112, 117, 121 and the same in the Formation loop) are left out: they only write logs.
- The preview slices (src/llm.rs:74-75, 92) are modelled on their own in `Preview`. As written they can panic, which ends `generate_feature_design` with no result (see "## Findings"). The loop model does not include that panic: it follows the corrected preview, which never fails.
- Formation coordinates are floating point. `Coordinate` uses `real` and no member inspects the values, because the loop only counts them.
- JSON numbers carry an `int`: the validator checks only a value's kind.
- Sanitizer.FindMatchingBrace: `brace_count` is an `i32` in the source; the model counts with an unbounded integer, so overflow past 2^31 nested braces is not modelled.
- Sanitizer.CleanJsonResponse: characters are Unicode scalar values and indices count characters, where the source counts UTF-8 bytes; every cut is next to an ASCII character, so the cuts agree.
- The mock server, the gRPC client and CLI, `src/codec.rs` and `build.rs` are left out: they are network, wiring and build glue.
- Each pass of a loop is split into `AskDesign`/`AskFormation` (render the prompt, call the model) and `JudgeDesignReply`/`JudgeFormationReply` (parse, validate, decide). Their composition is the loop body of the source.
- Sanitizer.CleanedIdempotentOnCleanOutput: idempotence is proved only for output that is already a clean object. In general it does not hold (`CleanedNotIdempotent`), because each comma pattern is replaced in a single pass.
- A trailing comma is removed only when it sits directly before the closer or with exactly one space between. `WideTrailingCommaKept` shows a comma with two spaces surviving. The model follows the code here.

## Findings

| source | as written | input that shows it | evidently intended | confidence | as-written member | corrected member |
|---|---|---|---|---|---|---|
| src/llm.rs:74-92 | the log preview slices the reply at byte 500 (first attempt) or byte 200 (unparseable reply); Rust panics when that byte falls inside a multi-byte character | a reply of 499 ASCII characters followed by an em dash (U+2014, 3 bytes): 502 bytes, with byte 500 inside the dash | a preview cut at the last character boundary at or before the limit, which never panics | not executed | Preview.Head, Preview.EmDashAtByte500Panics | Preview.HeadFixed, Preview.HeadFixedFits |
