/** The fixed configuration and the two system instructions that steer the language model (constants.tsx). */
module Constants {
  import opened Types
  import opened JsString

  /** One row of the mode table. */
  datatype ModeConfig = ModeConfig(name: string, subtitle: string, description: string, tone: string, pressure: string)

  /** `INTERVIEW_MODES_CONFIG[mode]`. */
  function Config(mode: InterviewMode): ModeConfig {
    match mode
    case FaangTechnical =>
      ModeConfig("FAANG TECHNICAL ROUND", "SYSTEM DESIGN & SCALE",
                 "Deep technical probing, architectural trade-offs, and scalability constraints.",
                 "Analytical, neutral, and detail-oriented.", "High technical scrutiny.")
    case AggressiveHr =>
      ModeConfig("AGGRESSIVE HR ROUND", "BEHAVIORAL PRESSURE",
                 "Behavioral probing designed to test grit, cultural alignment, and integrity.",
                 "Skeptical, direct, and slightly adversarial.", "Psychological and behavioral scrutiny.")
    case StartupChaos =>
      ModeConfig("STARTUP CHAOS MODE", "AGILE CHAOS",
                 "Fast-paced, ambiguous requirements with heavy constraints and limited resources.",
                 "Urgent, chaotic, and result-focused.", "High ambiguity and speed constraints.")
  }

  /** The keys of `INTERVIEW_MODES_CONFIG` in declaration order, as `Object.entries` lists them:
      each of the three modes exactly once. */
  function ModeKeys(): (keys: seq<InterviewMode>)
    ensures |keys| == 3
    ensures forall j, k :: 0 <= j < k < |keys| ==> keys[j] != keys[k]
    ensures forall mode: InterviewMode :: ModeIndex(mode) < |keys| && keys[ModeIndex(mode)] == mode
  {
    [FaangTechnical, AggressiveHr, StartupChaos]
  }

  /** Position of a mode's row in the table. */
  function ModeIndex(mode: InterviewMode): nat {
    match mode
    case FaangTechnical => 0
    case AggressiveHr => 1
    case StartupChaos => 2
  }

  /** The keys of the structured reply the interviewer instruction demands. */
  const ReplyFields: seq<string> := ["interviewer_text", "internal_thought", "current_topic", "is_follow_up", "depth_level"]

  function Quoted(s: string): string {
    "\"" + s + "\""
  }

  // The fixed text of the interviewer instruction, between its interpolated values.
  const InstructionIntro: string :=
    "\n" +
    "You are a senior AI Interviewer from Vortex AI conducting a "
  const TargetRoleLine: string :=
    ".\n" +
    "Target Role: "
  const ResumeContextLine: string :=
    "\n" +
    "Candidate Resume Context: "
  const GoalsAndGuidelines: string :=
    "\n" +
    "\n" +
    "PRIMARY GOALS:\n" +
    "1. Conduct a realistic, professional, but human-like interview.\n" +
    "2. Ground all questions in the provided resume and the target role.\n" +
    "3. BE CONVERSATIONAL: Use human expressions when appropriate. If the candidate gives a good answer, acknowledge it with phrases like \"Wow, what an answer!\", \"That's a really sharp insight,\" or \"I love that perspective.\"\n" +
    "4. Ensure questions are clear, approachable, and \"answerable.\" Don't use overly academic or dense language. \n" +
    "5. NEVER repeat a question or return to a topic that has already been sufficiently addressed in the conversation history.\n" +
    "\n" +
    "CRITICAL GUIDELINES:\n" +
    "- HUMAN TOUCH: Before diving into a new question, react naturally to the candidate's last response. Use conversational transitions like \"Interesting approach,\" \"I see where you're coming from,\" or \"That makes a lot of sense.\"\n" +
    "- BE UNDERSTANDABLE: Avoid convoluted multiple-part questions. Keep it to one clear, understandable query at a time that a person can actually write a thoughtful response to.\n" +
    "- NO REPETITION: Actively check previous messages to ensure you are moving the interview forward.\n" +
    "- DEPTH: If you need more detail, ask \"Can you walk me through the 'how' behind that?\" in a friendly but professional way.\n" +
    "\n" +
    "CRITICAL FORMATTING: \n" +
    "- For "
  const PlainTextRule: string :=
    ": DO NOT use Markdown symbols like asterisks (*) or hashes (#). Use plain text only.\n" +
    "- For "
  const HighlightRule: string :=
    ": You SHOULD use double asterisks **like this** to highlight critical evidence, metrics, or specific logic you are verifying.\n" +
    "\n" +
    "TONE: "
  const ToneSuffix: string :=
    " (but with a human, conversational layer)\n" +
    "PRESSURE LEVEL: "
  const SchemaOpen: string :=
    "\n" +
    "\n" +
    "RESPONSE SCHEMA:\n" +
    "{\n" +
    "  "
  const InterviewerTextHint: string :=
    ": \"A human-sounding response + one clear, singular question or prompt\",\n" +
    "  "
  const InternalThoughtHint: string :=
    ": \"Your reasoning. Use **highlighting** for critical observations.\",\n" +
    "  "
  const CurrentTopicHint: string :=
    ": \"What domain/skill are we exploring?\",\n" +
    "  "
  const IsFollowUpHint: string :=
    ": boolean,\n" +
    "  "
  const DepthLevelHint: string :=
    ": 1-5\n" +
    "}\n"

  /** The fixed text of the interviewer instruction, in order. */
  const InterviewerFixedText: seq<string> :=
    [InstructionIntro,
     TargetRoleLine,
     ResumeContextLine,
     GoalsAndGuidelines,
     PlainTextRule,
     HighlightRule,
     ToneSuffix,
     SchemaOpen,
     InterviewerTextHint,
     InternalThoughtHint,
     CurrentTopicHint,
     IsFollowUpHint,
     DepthLevelHint]

  /** The interviewer instruction as a sequence of pieces. The template interpolates five values: the mode's name,
      the role and the resume near the top, the mode's tone and pressure further down. The seven quoted reply
      keys are literal text of the template, kept here as pieces of their own so that lemmas can point at them.
      The thirteen stretches of text between them are `fixed`, in order, at the even positions. */
  function InstructionPieces(fixed: seq<string>, cfg: ModeConfig, resume: string, role: string): (pieces: seq<string>)
    requires |fixed| == 13
    ensures |pieces| == 25
    ensures forall j :: 0 <= j < |fixed| ==> pieces[2 * j] == fixed[j]
    ensures pieces[1] == cfg.name && pieces[3] == role && pieces[5] == resume
    ensures pieces[11] == cfg.tone && pieces[13] == cfg.pressure
    ensures pieces[7] == Quoted(ReplyFields[0]) && pieces[9] == Quoted(ReplyFields[1])
    ensures forall k :: 0 <= k < |ReplyFields| ==> pieces[15 + 2 * k] == Quoted(ReplyFields[k])
  {
    [fixed[0], cfg.name, fixed[1], role, fixed[2], resume, fixed[3],
     Quoted(ReplyFields[0]), fixed[4], Quoted(ReplyFields[1]), fixed[5],
     cfg.tone, fixed[6], cfg.pressure, fixed[7],
     Quoted(ReplyFields[0]), fixed[8], Quoted(ReplyFields[1]), fixed[9],
     Quoted(ReplyFields[2]), fixed[10], Quoted(ReplyFields[3]), fixed[11],
     Quoted(ReplyFields[4]), fixed[12]]
  }

  /** `INTERVIEWER_SYSTEM_INSTRUCTION(mode, resume, role)`. */
  function InterviewerInstruction(mode: InterviewMode, resume: string, role: string): string {
    Flatten(InstructionPieces(InterviewerFixedText, Config(mode), resume, role))
  }

  /** Whatever its fixed text, the instruction embeds the mode's name, tone and pressure, the role and the resume. */
  lemma InstructionEmbedsValues(fixed: seq<string>, cfg: ModeConfig, resume: string, role: string)
    requires |fixed| == 13
    ensures var text := Flatten(InstructionPieces(fixed, cfg, resume, role));
      Contains(text, cfg.name) && Contains(text, role) && Contains(text, resume) &&
      Contains(text, cfg.tone) && Contains(text, cfg.pressure)
  {
    var pieces := InstructionPieces(fixed, cfg, resume, role);
    var at := [1, 3, 5, 11, 13];
    assert pieces[at[0]] == cfg.name && pieces[at[1]] == role && pieces[at[2]] == resume;
    assert pieces[at[3]] == cfg.tone && pieces[at[4]] == cfg.pressure;
    FlattenContainsPieces(pieces, at);
  }

  /** Whatever its fixed text, the instruction's response schema names each of the five reply keys, quoted. */
  lemma InstructionNamesReplyFields(fixed: seq<string>, cfg: ModeConfig, resume: string, role: string)
    requires |fixed| == 13
    ensures forall k :: 0 <= k < |ReplyFields| ==>
      Contains(Flatten(InstructionPieces(fixed, cfg, resume, role)), Quoted(ReplyFields[k]))
  {
    var pieces := InstructionPieces(fixed, cfg, resume, role);
    var at := [15, 17, 19, 21, 23];
    assert forall k :: 0 <= k < 5 ==> pieces[at[k]] == Quoted(ReplyFields[k]);
    FlattenContainsPieces(pieces, at);
  }

  /** The interviewer instruction names the mode, its tone and pressure, the target role and the resume. */
  lemma InterviewerInstructionEmbedsValues(mode: InterviewMode, resume: string, role: string)
    ensures var text := InterviewerInstruction(mode, resume, role);
      && Contains(text, Config(mode).name) && Contains(text, role) && Contains(text, resume)
      && Contains(text, Config(mode).tone) && Contains(text, Config(mode).pressure)
  {
    InstructionEmbedsValues(InterviewerFixedText, Config(mode), resume, role);
  }

  /** The interviewer instruction's schema names `interviewer_text`, `internal_thought`, `current_topic`,
      `is_follow_up` and `depth_level`. */
  lemma InterviewerInstructionNamesFields(mode: InterviewMode, resume: string, role: string)
    ensures forall k :: 0 <= k < |ReplyFields| ==>
      Contains(InterviewerInstruction(mode, resume, role), Quoted(ReplyFields[k]))
  {
    InstructionNamesReplyFields(InterviewerFixedText, Config(mode), resume, role);
  }

  /** The metric categories the evaluator is told to score, in order. */
  const MetricCategories: seq<string> := ["Technical", "Problem Solving", "Communication", "Cultural/Behavioral"]

  // The fixed text of the evaluator instruction, around the category and verdict names.
  const EvaluatorPreamble: string :=
    "\n" +
    "You are a high-level hiring committee from Vortex AI. Analyze the provided interview transcript and resume.\n" +
    "Evaluate based on: Technical Correctness, Problem-Solving, Communication, Depth, and Behavioral Signals.\n" +
    "\n" +
    "CRITICAL:\n" +
    "- Be brutally honest.\n" +
    "- Do not use generic praise in the final evaluation.\n" +
    "- DO NOT use Markdown symbols (*, #) in your observations or feedback.\n" +
    "- Identify specific contradictions or weaknesses.\n" +
    "\n" +
    "RESPONSE SCHEMA:\n" +
    "{\n" +
    "  \"overallScore\": 0-100,\n" +
    "  \"metrics\": [\n" +
    "    { \"category\": \""
  const MetricSeparator: string :=
    "\", \"score\": 0-10, \"observation\": \"...\", \"evidence\": \"...\" },\n" +
    "    { \"category\": \""
  const MetricListClose: string :=
    "\", \"score\": 0-10, \"observation\": \"...\", \"evidence\": \"...\" }\n" +
    "  ],\n" +
    "  \"strengths\": [\"string\"],\n" +
    "  \"weaknesses\": [\"string\"],\n" +
    "  \"verdict\": \""
  const VerdictSeparator: string :=
    "\" | \""
  const EvaluatorClose: string :=
    "\",\n" +
    "  \"actionableFeedback\": [\"concrete steps\"]\n" +
    "}\n"

  const EvaluatorInstructionPieces: seq<string> :=
    [EvaluatorPreamble,
     MetricCategories[0], MetricSeparator,
     MetricCategories[1], MetricSeparator,
     MetricCategories[2], MetricSeparator,
     MetricCategories[3], MetricListClose,
     VerdictText(Hire), VerdictSeparator,
     VerdictText(NoHire), VerdictSeparator,
     VerdictText(StrongHire), VerdictSeparator,
     VerdictText(LeanNoHire), EvaluatorClose]

  /** `EVALUATOR_SYSTEM_INSTRUCTION`: a constant, the same for every session. */
  const EvaluatorInstruction: string := Flatten(EvaluatorInstructionPieces)

  /** The positions of the pieces holding the four category names and the four verdicts. */
  const CategoryPieces: seq<nat> := [1, 3, 5, 7]
  const VerdictPieces: seq<nat> := [9, 11, 13, 15]

  /** Pieces at increasing positions occur in the concatenation at increasing, non-overlapping offsets. */
  lemma PiecesInOrder(pieces: seq<string>, at: seq<nat>) returns (pos: seq<nat>)
    requires forall i :: 0 <= i < |at| ==> at[i] < |pieces|
    requires forall i :: 0 < i < |at| ==> at[i - 1] < at[i]
    ensures |pos| == |at|
    ensures forall i :: 0 <= i < |at| ==> OccursAt(Flatten(pieces), pieces[at[i]], pos[i])
    ensures forall i :: 0 < i < |at| ==> pos[i - 1] + |pieces[at[i - 1]]| <= pos[i]
  {
    pos := seq(|at|, i requires 0 <= i < |at| => PieceOffset(pieces, at[i]));
    forall i | 0 <= i < |at| ensures OccursAt(Flatten(pieces), pieces[at[i]], pos[i]) {
      FlattenPieceAt(pieces, at[i]);
    }
    forall i | 0 < i < |at| ensures pos[i - 1] + |pieces[at[i - 1]]| <= pos[i] {
      var j, k := at[i - 1], at[i];
      PieceOffsetMonotone(pieces, j, k);
      assert Flatten(pieces[j..k]) == pieces[j] + Flatten(pieces[j..k][1..]);
    }
  }

  /** The evaluator instruction lists the four metric categories, in order. */
  lemma EvaluatorInstructionListsCategories() returns (at: seq<nat>)
    ensures |at| == |MetricCategories|
    ensures forall i :: 0 <= i < |at| ==> OccursAt(EvaluatorInstruction, MetricCategories[i], at[i])
    ensures forall i :: 0 < i < |at| ==> at[i - 1] + |MetricCategories[i - 1]| <= at[i]
  {
    at := PiecesInOrder(EvaluatorInstructionPieces, CategoryPieces);
  }

  /** The evaluator instruction lists the four declared verdicts, in the order `HIRE`, `NO_HIRE`,
      `STRONG_HIRE`, `LEAN_NO_HIRE`. */
  lemma EvaluatorInstructionListsVerdicts() returns (at: seq<nat>)
    ensures |at| == 4
    ensures OccursAt(EvaluatorInstruction, VerdictText(Hire), at[0])
    ensures OccursAt(EvaluatorInstruction, VerdictText(NoHire), at[1])
    ensures OccursAt(EvaluatorInstruction, VerdictText(StrongHire), at[2])
    ensures OccursAt(EvaluatorInstruction, VerdictText(LeanNoHire), at[3])
    ensures forall i :: 0 < i < |at| ==> at[i - 1] < at[i]
  {
    at := PiecesInOrder(EvaluatorInstructionPieces, VerdictPieces);
  }
}
