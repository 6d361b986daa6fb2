/** The entities of the interview simulator (types.ts). */
module Types {

  /** The three interview styles a candidate can pick. */
  datatype InterviewMode = FaangTechnical | AggressiveHr | StartupChaos

  datatype UserProfile = UserProfile(name: string, targetRole: string, resumeText: string)

  /** Who wrote a transcript message. */
  datatype Role = Interviewer | Candidate

  /** The role's string value, `'interviewer'` or `'candidate'`. */
  function RoleName(role: Role): string {
    match role
    case Interviewer => "interviewer"
    case Candidate => "candidate"
  }

  /** A transcript message; `timestamp` is a `Date.now()` reading, supplied from outside. */
  datatype ChatMessage = ChatMessage(role: Role, content: string, timestamp: int)

  datatype Status = Setup | Active | Evaluating | Completed

  /** The live session; `id` and `startTime` come from `Math.random` and `Date.now`. */
  datatype InterviewSession = InterviewSession(
    id: string,
    mode: InterviewMode,
    user: UserProfile,
    history: seq<ChatMessage>,
    status: Status,
    startTime: int)

  datatype EvaluationMetric = EvaluationMetric(category: string, score: int, observation: string, evidence: string)

  /** The four verdicts the type declares. */
  datatype Verdict = Hire | NoHire | StrongHire | LeanNoHire

  function VerdictText(verdict: Verdict): string {
    match verdict
    case Hire => "HIRE"
    case NoHire => "NO_HIRE"
    case StrongHire => "STRONG_HIRE"
    case LeanNoHire => "LEAN_NO_HIRE"
  }

  /** The final evaluation. A scorecard is whatever the evaluator's reply parsed to, unvalidated,
      so `verdict` is held as the text it arrived as. */
  datatype Scorecard = Scorecard(
    overallScore: int,
    metrics: seq<EvaluationMetric>,
    strengths: seq<string>,
    weaknesses: seq<string>,
    verdict: string,
    actionableFeedback: seq<string>)
}
