# Vortex AI interview simulator: a Dafny model of its controller and its string rules

Vortex AI is a browser client for mock interviews. A language model plays the interviewer. The candidate fills in a
setup form: name, target role, resume and one of three interview modes. The app then runs a chat, one interviewer
turn per answer. When the candidate finalizes, a second model call scores the transcript as a scorecard.

This project models the logic that the client itself owns:

- **The session controller.** `App.AppState` holds the session, the scorecard and the evaluating flag. It has
  `startInterview`, `updateHistory`, `finishInterview` and `reset`, and a rule that picks the screen.
  `InterviewStage.Stage` holds the typed answer, the loading flag and the interviewer's last internal thought. It has
  `handleSend`, `handleNextTurn` and the mount effect that requests the opening turn. Every model call is
  awaited, so it is split into a step before the await and a step after it. The call's outcome, success or failure,
  is a parameter. `SessionFlow` wires the form, the controller and the stage together, as the screens do.
- **The form.** `ResumeInput.Form` has the three text fields and the chosen mode. Its submit guard tests each field
  for emptiness only.
- **The request and reply transforms.** These are in `GeminiService`:
  - the history becomes chat contents; interviewer turns are the model's and candidate turns the user's;
  - an empty history becomes the single user turn "Begin the interview.";
  - the transcript is written as `ROLE: content` blocks separated by blank lines;
  - the evaluation prompt is built around the transcript;
  - a missing reply text is read as `{}`;
  - a parse failure becomes the call's error;
  - a parsed value is either JSON `null` or an object of the expected type, and it is passed on without a check.
- **The constants.** `Constants` holds the mode table and the interviewer instruction. The instruction is a template
  over mode, resume and role, split into its fixed text and its holes. It also holds the evaluator instruction.
- **The scorecard screen's rules.** `ScorecardView` has:
  - the verdict colour, chosen by substring tests;
  - the verdict label, where only the first underscore becomes a space;
  - the metric bar width, `score * 10`;
  - the 1-based roadmap numbering.
- **The thought renderer.** `ThoughtText` models `text.split(/(\*\*.*?\*\*)/g)` exactly. It searches for the leftmost
  match, and the lazy `.*?` does not cross a line terminator. It also models the per-part test that highlights a part
  starting and ending with `**`.
- **JavaScript primitives.** `JsString` holds the ones the code relies on: `includes`, `trim`, `indexOf`,
  `replace` of a single character, `slice` with negative ends, `join` and ASCII `toUpperCase`.

The source's types become datatypes in `Types`. A scorecard's `verdict` is held as a string, because the code
never checks the parsed reply. `Verdict` lists the four values the type declares.

A reply that parses to `null` is kept as `GeminiService.JsonNull`, and the model follows what the code then does:

- A `null` interviewer turn throws on its first field read, inside the stage's `try` block. The stage treats it like
  a failed call.
- A `null` scorecard is stored as "no scorecard", and the session is still marked `COMPLETED`. So a scorecard implies
  `COMPLETED`, but `COMPLETED` does not imply a scorecard. That session shows the setup form.

Three behaviours of the code are easy to miss, and the model keeps each of them:

- If evaluation fails, `finishInterview` does not roll the session back to `ACTIVE`. Line 38 set it to
  `EVALUATING`, and nothing resets it. The evaluating flag is then lowered, there is no scorecard, and the status is
  not `ACTIVE`. The screen rule therefore falls through to the setup form. `App.AppState.FinishInterview` and
  `App.StuckEvaluationShowsSetup` state this.
- Parsed replies are not validated. A `null` reply is passed on as it is.
- Profile fields are not trimmed. A field of spaces is accepted.

## Model

| member | source | states |
|---|---|---|
| `App.SelectScreen` | App.tsx:61-106 | Each screen is chosen exactly when its condition holds and every earlier one fails. The evaluating screen shows when `isEvaluating` is set. Otherwise the scorecard shows when one exists. Otherwise the stage shows when the session is `ACTIVE`. Otherwise the setup form shows. |
| `App.StuckEvaluationShowsSetup` | App.tsx:96-106 | A session left `EVALUATING`, with no scorecard and the flag down, shows the setup form. |
| `App.NullScorecardShowsSetup` | App.tsx:92-106 | A `COMPLETED` session with no scorecard, left by an evaluator reply that parsed to `null`, shows the setup form. |
| `App.AppState.constructor` | App.tsx:10-12 | Initially there is no session, no scorecard and no evaluation, and the setup form shows. |
| `App.AppState.StartInterview` | App.tsx:14-26 | The new session holds the given id, mode, user and start time, an empty history and status `ACTIVE`. The scorecard is cleared, the evaluating flag is kept, and the invariant "a scorecard implies `COMPLETED`" holds. When no evaluation is running, the stage shows. |
| `App.AppState.UpdateHistory` | App.tsx:28-32 | Only the session's history is replaced; every other session field, the scorecard and the flag are kept. Without a session nothing changes. |
| `App.AppState.BeginFinish` | App.tsx:34-38 | Without a session nothing changes. Otherwise the flag is raised, the session becomes `EVALUATING`, and the evaluating screen shows. |
| `App.AppState.CompleteFinish` | App.tsx:40-52 | When the evaluator resolved, its parsed value is stored as the scorecard (none for `null`), and the captured session is marked `COMPLETED`. When it threw, the scorecard and the session are unchanged. Either way the flag ends false and the invariant holds. An object shows the scorecard; `null` shows the setup form. |
| `App.AppState.FinishInterview` | App.tsx:34-53 | Without a session nothing changes and nothing is requested. Otherwise the evaluator gets the session's resume, role and history. A reply parsed to an object ends on the scorecard screen with status `COMPLETED`. A `null` reply ends `COMPLETED` with no scorecard. A failure ends with no scorecard and status still `EVALUATING`. Both of the last two show the setup form. |
| `App.AppState.Reset` | App.tsx:55-59 | From any state: no session, no scorecard, no evaluation, and the setup form shows. |
| `InterviewStage.Stage.constructor` | components/InterviewStage.tsx:13-15 | The stage starts with empty input, not loading, and with no thought. |
| `InterviewStage.Stage.SetUserInput` | components/InterviewStage.tsx:161 | Typing replaces the input and changes nothing else. |
| `InterviewStage.Stage.BeginTurn` | components/InterviewStage.tsx:28-36 | Loading starts. The turn is requested with the session's mode, resume and role and the given history. |
| `InterviewStage.Stage.ReceiveTurn` | components/InterviewStage.tsx:37-49 | A delivered turn (resolved and not `null`) makes the history the given one plus exactly one interviewer message with the reply's text, and the thought the reply's internal thought. A failed or `null` turn leaves the session and the thought unchanged. Loading ends either way. |
| `InterviewStage.Stage.MountEffect` | components/InterviewStage.tsx:18-22 | The opening turn is requested, with an empty history, exactly when the session's history is empty. |
| `InterviewStage.Stage.BeginSend` | components/InterviewStage.tsx:52-60 | This is a no-op exactly when the trimmed input is empty or a turn is loading. Otherwise exactly one candidate message holding the untrimmed input is appended, the input is cleared, loading starts, and the turn is requested for the extended history. |
| `InterviewStage.Stage.HandleSend` | components/InterviewStage.tsx:52-61 | It has the same no-op condition as `BeginSend`. A send with a delivered turn adds the candidate message and then the interviewer reply: two messages, in that order. A failed or `null` turn adds only the candidate message and keeps the thought. The old history is always a prefix of the new one, and loading ends false. |
| `SessionFlow.OpenInterview` | App.tsx:96-106 | The interview starts exactly when the form accepts the fields. On a start, the session holds the submitted profile, the mode picked by its card, the id and the start time; it is `ACTIVE`; and the stage shows. The history holds the opening question when the opening turn was delivered and is empty otherwise. Without a start, the setup form stays. |
| `SessionFlow.SendAnswer` | components/InterviewStage.tsx:52-61 | One send on an idle stage adds nothing for a blank answer. Otherwise it adds the answer, followed by the reply when the turn is delivered. |
| `SessionFlow.OneAnswerInterview` | App.tsx:92-106 | An incomplete form never leaves the setup screen. Otherwise the transcript is the opening question, then the answer, then the reply, each present when delivered or not blank. The interview ends on the scorecard when the evaluation parsed to an object, and on the setup form otherwise. |
| `ResumeInput.BlankFieldsAccepted` | components/ResumeInput.tsx:19 | Any three non-empty fields are accepted, including whitespace-only ones. An empty name, role or resume is refused. |
| `ResumeInput.AcceptsFields` | components/ResumeInput.tsx:19 | This is the submit guard. It has no contract of its own; `ResumeInput.BlankFieldsAccepted` and `ResumeInput.Form.HandleSubmit` give its meaning. |
| `ResumeInput.Form.constructor` | components/ResumeInput.tsx:12-15 | The form starts with empty fields and the FAANG technical mode. |
| `ResumeInput.Form.SetName` | components/ResumeInput.tsx:108 | Only the name changes. |
| `ResumeInput.Form.SetRole` | components/ResumeInput.tsx:95 | Only the role changes. |
| `ResumeInput.Form.SetResume` | components/ResumeInput.tsx:129 | Only the resume changes. |
| `ResumeInput.Form.SelectCard` | components/ResumeInput.tsx:48-52 | Clicking a card selects that card's mode key and changes no text field. |
| `ResumeInput.Form.OneCardSelected` | components/ResumeInput.tsx:53-59 | Exactly one card is drawn as selected: the current mode's. |
| `ResumeInput.Form.HandleSubmit` | components/ResumeInput.tsx:17-21 | A start is produced exactly when all three fields are non-empty. It carries `{name, targetRole: role, resumeText: resume}` and the current mode. |
| `Constants.ModeKeys` | constants.tsx:6-28 | The table has three keys, pairwise distinct, and every mode is among them at its own index. |
| `Constants.Config` | constants.tsx:6-28 | This is the mode table, row for row. It has no contract of its own; `Constants.InterviewerInstructionEmbedsValues` states how the instruction uses its name, tone and pressure. |
| `Constants.InstructionPieces` | constants.tsx:30-63 | The template interpolates five values; they sit at fixed positions. The seven quoted reply keys are literal template text, kept as pieces of their own. The thirteen stretches of fixed text fill the even positions, in order. |
| `Constants.InterviewerInstruction` | constants.tsx:30-63 | This is the template with its holes filled. It has no contract of its own; `Constants.InterviewerInstructionEmbedsValues` and `Constants.InterviewerInstructionNamesFields` give its contents. |
| `Constants.InstructionEmbedsValues` | constants.tsx:30-53 | Whatever the fixed text, the instruction contains the mode's name, tone and pressure, the role and the resume. |
| `Constants.InstructionNamesReplyFields` | constants.tsx:55-62 | Whatever the fixed text, the instruction contains each of the five reply keys, quoted. |
| `Constants.InterviewerInstructionEmbedsValues` | constants.tsx:30-53 | For every mode, resume and role, the instruction contains the mode's configured name, tone and pressure, the role and the resume. |
| `Constants.InterviewerInstructionNamesFields` | constants.tsx:55-62 | For every mode, resume and role, the schema names `interviewer_text`, `internal_thought`, `current_topic`, `is_follow_up` and `depth_level`. |
| `Constants.EvaluatorInstructionListsCategories` | constants.tsx:78-83 | The evaluator instruction names the four metric categories at increasing, non-overlapping offsets. |
| `Constants.EvaluatorInstructionListsVerdicts` | constants.tsx:86 | The evaluator instruction names `HIRE`, `NO_HIRE`, `STRONG_HIRE` and `LEAN_NO_HIRE`, in that order. |
| `GeminiService.ToContents` | services/geminiService.ts:24-27 | There is one content item per message, in order, with the message's text. Interviewer messages get role `model` and candidate messages `user`. |
| `GeminiService.RequestContents` | services/geminiService.ts:31 | The contents are never empty. An empty history gives exactly one user item "Begin the interview."; otherwise the mapped history is sent. |
| `GeminiService.TurnRequest` | services/geminiService.ts:31-33 | The contents are exactly `RequestContents` of the history, so there is one item for an empty history and one per message otherwise. The system instruction is the interviewer instruction for the same mode, resume and role. |
| `GeminiService.RoleLabels` | services/geminiService.ts:54 | The upper-cased role labels are `INTERVIEWER` and `CANDIDATE`. |
| `GeminiService.TranscriptLine` | services/geminiService.ts:54 | A block is `INTERVIEWER: ` or `CANDIDATE: `, by the message's role, followed by the message content unchanged. |
| `GeminiService.TranscriptLines` | services/geminiService.ts:54 | There is one line per message, in order, and each is the message's block. |
| `GeminiService.Transcript` | services/geminiService.ts:54 | This is the blocks joined by blank lines. It has no contract of its own; `GeminiService.TranscriptShape` and `GeminiService.TranscriptSnoc` give its meaning. |
| `GeminiService.TranscriptShape` | services/geminiService.ts:54 | The transcript is empty exactly when the history is, and one message gives exactly its block. For n messages its length is the lines' total plus n - 1 two-character separators. |
| `GeminiService.TranscriptSnoc` | services/geminiService.ts:54 | Appending a message to a non-empty history appends one blank-line separator and that message's block to the transcript. |
| `GeminiService.EvaluationRequest` | services/geminiService.ts:54-65 | The evaluation request has exactly one user item, whose text contains the role, the resume and the whole transcript. Its system instruction is the evaluator instruction, the constant `Constants.EvaluatorInstruction`. It is built for any history, the empty one included. |
| `GeminiService.ParseInput` | services/geminiService.ts:40 | The parser's input is never empty. A missing or empty text becomes `{}`, and any other text passes unchanged. |
| `GeminiService.ReplyOutcome` | services/geminiService.ts:39-44 | A failed call keeps its error. Otherwise the call succeeds exactly when the text parses. The parsed value, `null` included, is returned unvalidated, exactly as parsed. A parse failure gives the fixed error text. |
| `GeminiService.InterviewerTurnOutcome` | services/geminiService.ts:39-44 | An error of `generateContent` passes through unchanged. Otherwise the turn succeeds exactly when the text parses, with what the parser produced. A parse failure gives "Interviewer logic failure. Retrying...". |
| `GeminiService.ScorecardOutcome` | services/geminiService.ts:73-78 | An error of `generateContent` passes through unchanged. Otherwise the evaluation succeeds exactly when the text parses, with what the parser produced. A parse failure gives "Evaluation failure.". |
| `ThoughtText.BoldRunHasNoTerminator` | components/InterviewStage.tsx:64 | A `**…**` run the pattern can match holds no line terminator. |
| `ThoughtText.CloseFrom` | components/InterviewStage.tsx:64 | The lazy `.*?\*\*` search from a position: the end it finds lies within the text, just after a `**`. `ThoughtText.CloseFromSkips` and `ThoughtText.CloseFromComplete` make it the first such end, before any line terminator. |
| `ThoughtText.MatchAt` | components/InterviewStage.tsx:64 | A match starting at a position is at least four characters long and ends within the text. |
| `ThoughtText.MatchAtRun` | components/InterviewStage.tsx:64 | A match found at a position is a shortest `**…**` run starting there. |
| `ThoughtText.Split` | components/InterviewStage.tsx:64 | This is the regular-expression split. It has no contract of its own; `ThoughtText.SplitIsLeftmost`, `ThoughtText.SplitRoundTrip` and `ThoughtText.SplitParts` give its meaning. |
| `ThoughtText.SplitIsLeftmost` | components/InterviewStage.tsx:64 | The split is a tiling of the text at leftmost matches, and it is the only such tiling. |
| `ThoughtText.SplitRoundTrip` | components/InterviewStage.tsx:64 | Concatenating the parts of the split gives back the text exactly. |
| `ThoughtText.SplitParts` | components/InterviewStage.tsx:64 | There is an odd number of parts. Every odd-numbered part is a shortest `**…**` run, and no even-numbered part contains a run. |
| `ThoughtText.SplitExample` | components/InterviewStage.tsx:64 | `"a **b** c"` splits into `"a "`, `"**b**"` and `" c"`. |
| `ThoughtText.RenderPart` | components/InterviewStage.tsx:66-73 | A part is highlighted exactly when it starts and ends with `**`. For a part of at least four characters, the highlighted text with `**` around it is the part. A shorter part highlights as empty. A plain part is shown unchanged. |
| `ThoughtText.RenderThought` | components/InterviewStage.tsx:64-74 | There is one segment per part of the split, and `ThoughtText.RenderedRuns` says what each shows. |
| `ThoughtText.RenderedRuns` | components/InterviewStage.tsx:64-74 | There is one segment per part. Every matched run is highlighted without its delimiters. An unmatched part not bracketed by `**` is shown as it is. |
| `ThoughtText.PlainPartsCanHighlight` | components/InterviewStage.tsx:66-70 | Unmatched text can still be highlighted by the per-part test: `"**"` shows as an empty highlight, and `"**\n**"` as a highlighted line break. |
| `ScorecardView.VerdictColor` | components/ScorecardView.tsx:7-11 | Emerald is chosen exactly when the verdict contains `STRONG_HIRE`. Sky is chosen exactly when it otherwise contains `HIRE`. Rose is chosen exactly when `HIRE` does not occur. |
| `ScorecardView.StrongHireColor` | components/ScorecardView.tsx:8 | `STRONG_HIRE` is emerald. |
| `ScorecardView.HireColor` | components/ScorecardView.tsx:9 | `HIRE` is sky. |
| `ScorecardView.NoHireColor` | components/ScorecardView.tsx:9 | `NO_HIRE` is sky, since it contains `HIRE`. |
| `ScorecardView.LeanNoHireColor` | components/ScorecardView.tsx:9 | `LEAN_NO_HIRE` is sky, since it contains `HIRE`. |
| `ScorecardView.DeclaredVerdictColors` | components/ScorecardView.tsx:7-11 | Of the four declared verdicts only `STRONG_HIRE` is emerald and the rest are sky, so rose is never used for a declared verdict. |
| `ScorecardView.VerdictLabel` | components/ScorecardView.tsx:18 | The label has the verdict's length. The first underscore becomes a space and there is none before it. Every other character, later underscores included, is kept. A verdict without an underscore is unchanged. |
| `ScorecardView.DeclaredVerdictLabels` | components/ScorecardView.tsx:18 | The labels are `STRONG HIRE`, `HIRE`, `NO HIRE` and `LEAN NO_HIRE`. |
| `ScorecardView.BarWidth` | components/ScorecardView.tsx:46 | A score lies in 0..10 exactly when its width lies in 0..100 and is a multiple of ten. |
| `ScorecardView.BarWidthMonotone` | components/ScorecardView.tsx:46 | A higher score never has a shorter bar, and a longer bar means a higher score. |
| `ScorecardView.ScoreRows` | components/ScorecardView.tsx:37-50 | There is one row per metric, in order, with its category, its own score shown out of ten, and its bar width. |
| `ScorecardView.AnalysisRows` | components/ScorecardView.tsx:61-75 | There is one block per metric, in order, with its category, observation and evidence. |
| `ScorecardView.MetricListsAgree` | components/ScorecardView.tsx:37-75 | Both lists have one entry per metric, and entry i of each names the same category. A score in range gives a width in range. |
| `ScorecardView.Roadmap` | components/ScorecardView.tsx:107-110 | There is one item per feedback step; `ScorecardView.RoadmapNumbering` gives the numbering. |
| `ScorecardView.RoadmapNumbering` | components/ScorecardView.tsx:107-110 | The steps are listed unchanged and in order. The numbers lie in 1..n, strictly increase, and run from 1 to n. |
| `JsString.TrimEmptyIff` | components/InterviewStage.tsx:53 | A trimmed input is empty exactly when every character is white space or a line terminator. |
| `JsString.Trim` | components/InterviewStage.tsx:53 | The trimmed text is no longer than the input and neither starts nor ends with white space or a line terminator. |
| `JsString.IndexOf` | components/ScorecardView.tsx:18 | The result is -1 exactly when the character is absent. Otherwise it is the position of its first occurrence. |
| `JsString.ReplaceFirst` | components/ScorecardView.tsx:18 | This is `replace` with a one-character pattern. It has no contract of its own; `JsString.ReplaceFirstAtIndexOf` gives its meaning. |
| `JsString.ReplaceFirstAtIndexOf` | components/ScorecardView.tsx:18 | Replacing a character changes only its first occurrence, if any. |
| `JsString.Contains` | components/ScorecardView.tsx:8-9 | This is `includes`. It has no contract of its own; `ScorecardView.VerdictColor` and its lemmas use it. |
| `JsString.JoinLength` | services/geminiService.ts:54 | Joining n parts adds n - 1 separators. |
| `JsString.Join` | services/geminiService.ts:54 | This is `Array.join`. It has no contract of its own; `JsString.JoinLength` and `GeminiService.TranscriptSnoc` give its meaning. |
| `JsString.AsciiUpper` | services/geminiService.ts:54 | Upper-casing keeps the length and maps each character on its own. |
| `JsString.SliceTwoTwo` | components/InterviewStage.tsx:69 | `slice(2, -2)` drops two characters from each end of a string of at least four characters, and gives the empty string otherwise. |
| `JsString.Slice` | components/InterviewStage.tsx:69 | `slice` with ends clamped to the text and negative ends counted from the back never gives more than the text. `JsString.SliceTwoTwo` gives the case the renderer uses. |

## Left out

- **Network calls.** The Gemini client and its `generateContent` calls are network I/O through a library outside this
  model. The stage produces the call's arguments, a `GeminiService.TurnArgs`. `GeminiService.TurnRequest` states
  the request the service builds from them, and the evaluator's request is returned by
  `App.AppState.FinishInterview`. The call's outcome is a parameter. The model name and the temperatures 0.7 and 0.2 are configuration without behaviour. They are left out.
- **`JSON.parse`.** This is a parameter, a partial function from text to `null` or an object. No field validation
  is added, because the code has none. The model does not express three further outcomes of the source:
  - an object missing fields;
  - a JSON value that is neither `null` nor an object;
  - `{}`, which `JSON.parse` always accepts for an empty reply, while the model's parser may refuse it.

  In the source, such a turn stores an undefined `interviewer_text` as message content. A falsy scorecard value
  (`0`, `false`, `""`) fails `if (scorecard)` at App.tsx:92 and, like `null`, leaves a `COMPLETED` session on the
  setup form. Only a truthy value reaches the scorecard screen, where a missing field throws on its first use. The
  model gives every parsed object all of its fields.
- **Logging.** The `console.error` calls in the parse handlers are not modelled.
- **Asynchrony.** React scheduling, `async`/`await` interleaving and stale closures are not modelled. Each awaited
  call is a pair of sequential steps. One consequence: FINALIZE pressed while a turn is in flight is not modelled.
- **Nondeterministic values.** The `Math.random` session id and the `Date.now` timestamps and start time are
  parameters.
- **Presentation.** Markup, CSS, the animation keyframes, scroll-into-view, `alert` and Enter-key handling are not
  modelled. The send button's `disabled` is covered by the guard the handler repeats. The strengths and weaknesses
  lists are plain maps, shown unchanged.
- **`records` and `QuestionRecord`.** They are declared and initialised to `[]`, but never read or written, so
  `Types.InterviewSession` has no `records` field.
- **Numbers.** Scores and timestamps are `int`. JavaScript numbers are floating point, so `score * 10` on a fractional
  score is not modelled.
- **Upper-casing.** `AsciiUpper` upper-cases ASCII letters only. The only texts it is applied to are the role
  names, which are ASCII.
- **Determinism of the instruction.** The interviewer instruction is a Dafny function of mode, resume and role, and
  the evaluator instruction is a constant. Both facts hold by construction, so no lemma states them.
- `App.AppState.BeginFinish`: requires that there is no scorecard. FINALIZE is only on the interview stage, and the
  stage is shown only while there is no scorecard.
- `App.AppState.FinishInterview`: has the same precondition, for the same reason.
- **Recovery, validation and trimming.** The code has no rollback to `ACTIVE` after a failed evaluation, no validation of parsed
  replies and no trimming of profile fields, so the model has none either.
