/** The pure part of the language-model service (services/geminiService.ts): how the transcript is turned
    into chat contents and into the evaluation prompt, and how a reply is turned into a result.
    The network call itself is not modelled: its outcome is a parameter, a `ModelReply`. */
module GeminiService {
  import opened Types
  import opened Wrappers
  import opened JsString
  import opened Constants

  /** The reply shape requested by the interviewer instruction. */
  datatype InterviewerResponse = InterviewerResponse(
    interviewerText: string,
    internalThought: string,
    currentTopic: string,
    isFollowUp: bool,
    depthLevel: int)

  /** One item of the `contents` list sent to the model: a role (`"model"` or `"user"`) and one text part. */
  datatype Content = Content(role: string, text: string)

  /** The arguments of `getInterviewerTurn`. */
  datatype TurnArgs = TurnArgs(mode: InterviewMode, resume: string, role: string, history: seq<ChatMessage>)

  /** Which system instruction steers a request; `SteeringText` renders it. */
  datatype Steering = InterviewerSteering(mode: InterviewMode, resume: string, role: string) | EvaluatorSteering

  function SteeringText(steering: Steering): string {
    match steering
    case InterviewerSteering(mode, resume, role) => InterviewerInstruction(mode, resume, role)
    case EvaluatorSteering => EvaluatorInstruction
  }

  /** What `generateContent` is given, apart from the model name and the temperature. */
  datatype GenerateRequest = GenerateRequest(contents: seq<Content>, steering: Steering)

  /** What the network call produced: it threw, or it returned a response whose `text` may be missing. */
  datatype ModelReply = CallFailed(error: string) | Replied(text: Option<string>)

  /** What `JSON.parse` returned, cast to the expected type: the JSON `null`, or an object with that type's fields. */
  datatype Parsed<+T> = JsonNull | JsonObject(obj: T)

  const OpeningRequest: string := "Begin the interview."

  function ContentOf(message: ChatMessage): Content {
    Content(if message.role == Interviewer then "model" else "user", message.content)
  }

  /** `history.map(...)`: one content item per message, in order; interviewer messages are the model's turns,
      candidate messages the user's, and the text is the message content. */
  function ToContents(history: seq<ChatMessage>): (contents: seq<Content>)
    ensures |contents| == |history|
    ensures forall i :: 0 <= i < |history| ==>
      && contents[i].text == history[i].content
      && (history[i].role == Interviewer ==> contents[i].role == "model")
      && (history[i].role == Candidate ==> contents[i].role == "user")
  {
    seq(|history|, i requires 0 <= i < |history| => ContentOf(history[i]))
  }

  /** The `contents` actually sent for a turn: the mapped history, or, when there is no history yet,
      the single user turn "Begin the interview.". Never empty. */
  function RequestContents(history: seq<ChatMessage>): (contents: seq<Content>)
    ensures |contents| >= 1
    ensures history == [] ==> contents == [Content("user", OpeningRequest)]
    ensures history != [] ==> contents == ToContents(history)
  {
    var mapped := ToContents(history);
    if |mapped| > 0 then mapped else [Content("user", OpeningRequest)]
  }

  /** The request `getInterviewerTurn` sends: the contents for the history, steered by the interviewer
      instruction for the session's mode, resume and role. */
  function TurnRequest(args: TurnArgs): (request: GenerateRequest)
    ensures request.contents == RequestContents(args.history)
    ensures |request.contents| == if args.history == [] then 1 else |args.history|
    ensures request.steering == InterviewerSteering(args.mode, args.resume, args.role)
    ensures SteeringText(request.steering) == InterviewerInstruction(args.mode, args.resume, args.role)
  {
    GenerateRequest(RequestContents(args.history), InterviewerSteering(args.mode, args.resume, args.role))
  }

  /** `` `${m.role.toUpperCase()}: ${m.content}` ``. */
  function TranscriptLine(message: ChatMessage): (line: string)
    ensures |line| == |RoleName(message.role)| + 2 + |message.content|
    ensures EndsWith(line, message.content)
    ensures line == (if message.role == Interviewer then "INTERVIEWER: " else "CANDIDATE: ") + message.content
  {
    RoleLabels();
    var tag := AsciiUpper(RoleName(message.role)) + ": ";
    assert (tag + message.content)[|tag|..] == message.content;
    tag + message.content
  }

  /** The role labels of the transcript are `INTERVIEWER` and `CANDIDATE`. */
  lemma RoleLabels()
    ensures AsciiUpper(RoleName(Interviewer)) == "INTERVIEWER"
    ensures AsciiUpper(RoleName(Candidate)) == "CANDIDATE"
  {
    var a, b := AsciiUpper("interviewer"), AsciiUpper("candidate");
    assert a[0] == 'I' && a[1] == 'N' && a[2] == 'T' && a[3] == 'E' && a[4] == 'R' && a[5] == 'V';
    assert a[6] == 'I' && a[7] == 'E' && a[8] == 'W' && a[9] == 'E' && a[10] == 'R';
    assert b[0] == 'C' && b[1] == 'A' && b[2] == 'N' && b[3] == 'D' && b[4] == 'I';
    assert b[5] == 'D' && b[6] == 'A' && b[7] == 'T' && b[8] == 'E';
  }

  function TranscriptLines(history: seq<ChatMessage>): (lines: seq<string>)
    ensures |lines| == |history|
    ensures forall i :: 0 <= i < |history| ==> lines[i] == TranscriptLine(history[i])
  {
    seq(|history|, i requires 0 <= i < |history| => TranscriptLine(history[i]))
  }

  /** The transcript block of the evaluation prompt: the lines joined by blank lines. */
  function Transcript(history: seq<ChatMessage>): string {
    Join(TranscriptLines(history), "\n\n")
  }

  /** The transcript is empty exactly when the history is, and n messages give n - 1 separators. */
  lemma TranscriptShape(history: seq<ChatMessage>)
    ensures Transcript(history) == "" <==> history == []
    ensures |history| == 1 ==> Transcript(history) == TranscriptLine(history[0])
    ensures history != [] ==>
      |Transcript(history)| == TotalLength(TranscriptLines(history)) + 2 * (|history| - 1)
  {
    var lines := TranscriptLines(history);
    forall i | 0 <= i < |lines| ensures lines[i] != "" {
      assert |lines[i]| >= 2;
    }
    JoinEmptyIff(lines, "\n\n");
    if history != [] {
      JoinLength(lines, "\n\n");
    }
  }

  /** A message added to a non-empty history adds one blank line and its own line at the end of the transcript. */
  lemma TranscriptSnoc(history: seq<ChatMessage>, message: ChatMessage)
    requires history != []
    ensures Transcript(history + [message]) == Transcript(history) + "\n\n" + TranscriptLine(message)
  {
    assert TranscriptLines(history + [message]) == TranscriptLines(history) + [TranscriptLine(message)];
    JoinSnoc(TranscriptLines(history), TranscriptLine(message), "\n\n");
  }

  /** The evaluation prompt template, its holes filled with the role, the resume and the transcript. */
  function EvaluationPromptPieces(role: string, resume: string, transcript: string): seq<string> {
    ["\n    Role: ", role, "\n    Resume: ", resume, "\n    \n    TRANSCRIPT:\n    ", transcript, "\n  "]
  }

  /** The request `generateFinalScorecard` sends: exactly one user item, whose text holds the role,
      the resume and the whole transcript, steered by the evaluator instruction. */
  function EvaluationRequest(resume: string, role: string, history: seq<ChatMessage>): (request: GenerateRequest)
    ensures |request.contents| == 1 && request.contents[0].role == "user"
    ensures Contains(request.contents[0].text, role)
    ensures Contains(request.contents[0].text, resume)
    ensures Contains(request.contents[0].text, Transcript(history))
    ensures request.steering == EvaluatorSteering && SteeringText(request.steering) == EvaluatorInstruction
  {
    var pieces := EvaluationPromptPieces(role, resume, Transcript(history));
    FlattenContainsPiece(pieces, 1);
    FlattenContainsPiece(pieces, 3);
    FlattenContainsPiece(pieces, 5);
    GenerateRequest([Content("user", Flatten(pieces))], EvaluatorSteering)
  }

  /** `response.text || '{}'`: a missing or empty reply text is parsed as `{}`. */
  function ParseInput(text: Option<string>): (input: string)
    ensures input != ""
    ensures text.Some? && text.value != "" ==> input == text.value
    ensures text.None? || text.value == "" ==> input == "{}"
  {
    match text
    case Some(t) => if t != "" then t else "{}"
    case None => "{}"
  }

  const TurnParseError: string := "Interviewer logic failure. Retrying..."
  const EvaluationParseError: string := "Evaluation failure."

  /** The outcome of one service call. A failed call passes its error through; otherwise the reply text is
      handed to the parser (`JSON.parse`, a parameter here), a parse failure becomes `parseError`, and a
      parsed value, `null` included, is returned as it is, with no check of its fields. */
  function ReplyOutcome<T>(reply: ModelReply, parse: string -> Option<Parsed<T>>, parseError: string): (r: Result<Parsed<T>>)
    ensures reply.CallFailed? ==> r == Failure(reply.error)
    ensures reply.Replied? ==> (r.Success? <==> parse(ParseInput(reply.text)).Some?)
    ensures reply.Replied? && r.Success? ==> r.value == parse(ParseInput(reply.text)).value
    ensures reply.Replied? && r.Failure? ==> r.error == parseError
  {
    match reply
    case CallFailed(e) => Failure(e)
    case Replied(text) =>
      match parse(ParseInput(text))
      case Some(v) => Success(v)
      case None => Failure(parseError)
  }

  /** What `getInterviewerTurn` resolves to or throws. An error of the call itself is not caught by the parse's
      `try`, so it reaches the caller unchanged. */
  function InterviewerTurnOutcome(reply: ModelReply, parse: string -> Option<Parsed<InterviewerResponse>>)
    : (r: Result<Parsed<InterviewerResponse>>)
    ensures reply.CallFailed? ==> r == Failure(reply.error)
    ensures reply.Replied? ==> (r.Success? <==> parse(ParseInput(reply.text)).Some?)
    ensures r.Success? ==> reply.Replied? && parse(ParseInput(reply.text)) == Some(r.value)
    ensures reply.Replied? && r.Failure? ==> r.error == TurnParseError
  {
    ReplyOutcome(reply, parse, TurnParseError)
  }

  /** A turn outcome the stage can read: the call resolved to an object. Reading `interviewer_text` of `null`
      throws, so a `null` turn ends in the stage's `catch` exactly like a failed call. */
  predicate TurnDelivered(outcome: Result<Parsed<InterviewerResponse>>) {
    outcome.Success? && outcome.value.JsonObject?
  }

  /** What `generateFinalScorecard` resolves to or throws; as for a turn, a call error passes through. */
  function ScorecardOutcome(reply: ModelReply, parse: string -> Option<Parsed<Scorecard>>): (r: Result<Parsed<Scorecard>>)
    ensures reply.CallFailed? ==> r == Failure(reply.error)
    ensures reply.Replied? ==> (r.Success? <==> parse(ParseInput(reply.text)).Some?)
    ensures r.Success? ==> reply.Replied? && parse(ParseInput(reply.text)) == Some(r.value)
    ensures reply.Replied? && r.Failure? ==> r.error == EvaluationParseError
  {
    ReplyOutcome(reply, parse, EvaluationParseError)
  }
}
