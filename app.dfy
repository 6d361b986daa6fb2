/** The application controller (App.tsx): the current session, the scorecard and the evaluating flag, the four
    operations that change them, and the rule that picks the screen. `finishInterview` awaits the evaluator, so
    it is split into `BeginFinish`, everything up to the call, and `CompleteFinish`, what follows it. */
module App {
  import opened Types
  import opened Wrappers
  import opened GeminiService

  /** The four screens, in the order the rule tries them. */
  datatype Screen = EvaluatingScreen | ScorecardScreen | StageScreen | SetupScreen

  /** The screen for a state: the evaluating screen while an evaluation runs, else the scorecard when there is one,
      else the interview stage when the session is active, else the setup form. */
  function SelectScreen(isEvaluating: bool, scorecard: Option<Scorecard>, session: Option<InterviewSession>): (screen: Screen)
    ensures screen == EvaluatingScreen <==> isEvaluating
    ensures screen == ScorecardScreen <==> !isEvaluating && scorecard.Some?
    ensures screen == StageScreen <==> !isEvaluating && scorecard.None? && session.Some? && session.value.status == Active
    ensures screen == SetupScreen <==>
      !isEvaluating && scorecard.None? && (session.None? || session.value.status != Active)
  {
    if isEvaluating then EvaluatingScreen
    else if scorecard.Some? then ScorecardScreen
    else if session.Some? && session.value.status == Active then StageScreen
    else SetupScreen
  }

  /** A session left `EVALUATING` after a failed evaluation, with no scorecard, shows the setup form. */
  lemma StuckEvaluationShowsSetup(session: InterviewSession)
    requires session.status == Evaluating
    ensures SelectScreen(false, None, Some(session)) == SetupScreen
  {
  }

  /** A session `COMPLETED` by an evaluator reply that parsed to `null`, hence with no scorecard, shows the setup
      form too. */
  lemma NullScorecardShowsSetup(session: InterviewSession)
    requires session.status == Completed
    ensures SelectScreen(false, None, Some(session)) == SetupScreen
  {
  }

  class AppState {
    var session: Option<InterviewSession>
    var scorecard: Option<Scorecard>
    var isEvaluating: bool

    /** A scorecard is present only while the session is `COMPLETED`. The converse fails: an evaluator reply
        that parses to `null` completes the session with no scorecard. */
    ghost predicate Valid()
      reads this
    {
      scorecard.Some? ==> session.Some? && session.value.status == Completed
    }

    /** The screen the application renders now. */
    function CurrentScreen(): Screen
      reads this
    {
      SelectScreen(isEvaluating, scorecard, session)
    }

    constructor ()
      ensures Valid()
      ensures session == None && scorecard == None && !isEvaluating
      ensures CurrentScreen() == SetupScreen
    {
      session, scorecard, isEvaluating := None, None, false;
    }

    /** `startInterview`: a fresh active session with an empty history, and no scorecard. */
    method StartInterview(user: UserProfile, mode: InterviewMode, id: string, startTime: int)
      modifies this
      ensures Valid()
      ensures session == Some(InterviewSession(id, mode, user, [], Active, startTime))
      ensures scorecard == None && isEvaluating == old(isEvaluating)
      ensures !isEvaluating ==> CurrentScreen() == StageScreen
    {
      session := Some(InterviewSession(id, mode, user, [], Active, startTime));
      scorecard := None;
    }

    /** `updateHistory`: the history is replaced and every other field of the session kept; without a session
        nothing happens. */
    method UpdateHistory(history: seq<ChatMessage>)
      requires Valid()
      modifies this
      ensures Valid()
      ensures session == if old(session).Some? then Some(old(session).value.(history := history)) else None
      ensures scorecard == old(scorecard) && isEvaluating == old(isEvaluating)
      ensures CurrentScreen() == old(CurrentScreen())
    {
      if session.Some? {
        session := Some(session.value.(history := history));
      }
    }

    /** `finishInterview` up to the evaluator call: without a session it returns at once; otherwise it raises the
        evaluating flag and marks the session `EVALUATING`. The session it read is returned, for the completion
        step. The button that starts it is on the interview stage, which is shown only without a scorecard. */
    method BeginFinish() returns (captured: Option<InterviewSession>)
      requires Valid() && scorecard.None?
      modifies this
      ensures Valid()
      ensures captured == old(session)
      ensures captured.None? ==> session == None && scorecard == None && isEvaluating == old(isEvaluating)
      ensures captured.Some? ==>
        && isEvaluating && scorecard == None
        && session == Some(captured.value.(status := Evaluating))
      ensures captured.Some? ==> CurrentScreen() == EvaluatingScreen
    {
      captured := session;
      if session.None? {
        return;
      }
      isEvaluating := true;
      session := Some(session.value.(status := Evaluating));
    }

    /** `finishInterview` after the evaluator answered. When it resolved, whatever it parsed to is stored as the
        scorecard, so a `null` reply leaves none, and the session read at the start is stored back as `COMPLETED`.
        When it threw, the session and the scorecard are left as they are, so the status stays `EVALUATING`.
        Either way the evaluating flag is lowered. */
    method CompleteFinish(captured: InterviewSession, outcome: Result<Parsed<Scorecard>>)
      requires Valid()
      modifies this
      ensures Valid()
      ensures !isEvaluating
      ensures outcome.Success? ==>
        && session == Some(captured.(status := Completed))
        && scorecard == (if outcome.value.JsonObject? then Some(outcome.value.obj) else None)
      ensures outcome.Failure? ==> scorecard == old(scorecard) && session == old(session)
      ensures outcome.Success? ==> CurrentScreen() == if outcome.value.JsonObject? then ScorecardScreen else SetupScreen
    {
      if outcome.Success? {
        scorecard := if outcome.value.JsonObject? then Some(outcome.value.obj) else None;
        session := Some(captured.(status := Completed));
      }
      isEvaluating := false;
    }

    /** The whole of `finishInterview`, with the evaluator's outcome as a parameter. It returns the request sent to
        the evaluator, if any: the candidate's resume and role and the transcript so far. Only a scorecard that
        parsed to an object reaches the scorecard screen. A failed evaluation leaves the session `EVALUATING`, a
        `null` one leaves it `COMPLETED`, both without a scorecard, and both show the setup form, not the
        interview. */
    method FinishInterview(outcome: Result<Parsed<Scorecard>>) returns (request: Option<GenerateRequest>)
      requires Valid() && scorecard.None?
      modifies this
      ensures Valid()
      ensures old(session).None? ==>
        request == None && session == None && scorecard == None && isEvaluating == old(isEvaluating)
      ensures old(session).Some? ==>
        var s := old(session).value;
        && request == Some(EvaluationRequest(s.user.resumeText, s.user.targetRole, s.history))
        && !isEvaluating
        && (outcome.Success? && outcome.value.JsonObject? ==>
              scorecard == Some(outcome.value.obj) && session == Some(s.(status := Completed)))
        && (outcome.Success? && outcome.value.JsonNull? ==> scorecard == None && session == Some(s.(status := Completed)))
        && (outcome.Failure? ==> scorecard == None && session == Some(s.(status := Evaluating)))
      ensures old(session).Some? ==>
        CurrentScreen() == if outcome.Success? && outcome.value.JsonObject? then ScorecardScreen else SetupScreen
    {
      var captured := BeginFinish();
      if captured.None? {
        return None;
      }
      var s := captured.value;
      request := Some(EvaluationRequest(s.user.resumeText, s.user.targetRole, s.history));
      CompleteFinish(s, outcome);
    }

    /** `reset`: back to the setup form with nothing kept. */
    method Reset()
      modifies this
      ensures Valid()
      ensures session == None && scorecard == None && !isEvaluating
      ensures CurrentScreen() == SetupScreen
    {
      session, scorecard, isEvaluating := None, None, false;
    }
  }
}
