/** One interview from the setup form to the end, wired as App.tsx wires its screens: the form's `onStart` is
    `startInterview`, the stage pushes its history through `updateHistory`, and FINALIZE calls
    `finishInterview`. Every model and evaluator outcome, and every clock reading, is a parameter. */
module SessionFlow {
  import opened Types
  import opened Wrappers
  import opened JsString
  import opened GeminiService
  import opened App
  import opened InterviewStage
  import opened ResumeInput
  import opened Constants

  /** Fill in the form, pick the mode's card and submit; when the form is complete, start the interview and take
      the opening turn. The session then holds the submitted profile and mode, is `ACTIVE`, and the stage shows. */
  method OpenInterview(name: string, role: string, resume: string, mode: InterviewMode, id: string, startTime: int,
                       opening: Result<Parsed<InterviewerResponse>>, openedAt: int)
    returns (app: AppState, stage: Stage, started: bool)
    ensures fresh(app) && fresh(stage) && stage.app == app && app.Valid()
    ensures started <==> AcceptsFields(name, role, resume)
    ensures !started ==> app.CurrentScreen() == SetupScreen
    ensures started ==>
      && app.session.Some? && app.scorecard == None && !app.isEvaluating
      && app.session.value.user == UserProfile(name, role, resume)
      && app.session.value.mode == mode && app.session.value.status == Active
      && app.session.value.id == id && app.session.value.startTime == startTime
      && app.CurrentScreen() == StageScreen
      && !stage.isLoading
      && stage.History() ==
           if TurnDelivered(opening) then [ChatMessage(Interviewer, opening.value.obj.interviewerText, openedAt)] else []
  {
    var form := new Form();
    form.SetName(name);
    form.SetRole(role);
    form.SetResume(resume);
    form.SelectCard(ModeIndex(mode));
    var start := form.HandleSubmit();
    app := new AppState();
    stage := new Stage(app);
    if start.None? {
      return app, stage, false;
    }
    var (user, chosen) := start.value;
    app.StartInterview(user, chosen, id, startTime);
    var first := stage.MountEffect();
    // A fresh session has no history, so the effect requests the opening turn.
    assert first == Some(stage.TurnFor([]));
    stage.ReceiveTurn(first.value.history, opening, openedAt);
    started := true;
  }

  /** The messages one send adds: nothing for a blank answer, else the answer and, when the turn succeeds, the
      interviewer's reply. */
  function AnswerMessages(answer: string, sentAt: int, reply: Result<Parsed<InterviewerResponse>>, repliedAt: int): seq<ChatMessage> {
    var replies := if TurnDelivered(reply) then [ChatMessage(Interviewer, reply.value.obj.interviewerText, repliedAt)] else [];
    if Trim(answer) == "" then [] else [ChatMessage(Candidate, answer, sentAt)] + replies
  }

  /** Type an answer into an idle stage and send it. */
  method SendAnswer(stage: Stage, answer: string, sentAt: int, reply: Result<Parsed<InterviewerResponse>>, repliedAt: int)
    returns (transcript: seq<ChatMessage>)
    requires stage.app.Valid() && stage.app.session.Some? && !stage.isLoading
    modifies stage, stage.app
    ensures stage.app.Valid() && stage.app.session.Some?
    ensures stage.app.scorecard == old(stage.app.scorecard) && stage.app.isEvaluating == old(stage.app.isEvaluating)
    ensures transcript == stage.History() == old(stage.History()) + AnswerMessages(answer, sentAt, reply, repliedAt)
  {
    ghost var asked := stage.History();
    stage.SetUserInput(answer);
    assert stage.History() == asked;
    var sent := stage.HandleSend(sentAt, reply, repliedAt);
    transcript := stage.History();
    if Trim(answer) == "" {
      assert AnswerMessages(answer, sentAt, reply, repliedAt) == [];
      assert transcript == asked;
    } else if TurnDelivered(reply) {
      assert AnswerMessages(answer, sentAt, reply, repliedAt) ==
        [ChatMessage(Candidate, answer, sentAt), ChatMessage(Interviewer, reply.value.obj.interviewerText, repliedAt)];
      assert transcript == asked + [ChatMessage(Candidate, answer, sentAt), ChatMessage(Interviewer, reply.value.obj.interviewerText, repliedAt)];
    } else {
      assert AnswerMessages(answer, sentAt, reply, repliedAt) == [ChatMessage(Candidate, answer, sentAt)];
      assert transcript == asked + [ChatMessage(Candidate, answer, sentAt)];
    }
  }

  /** Fill in the form and submit; if the interview starts, take the opening turn, send one answer, and finish.
      An incomplete form never leaves the setup screen. Otherwise an evaluation that parsed to an object ends
      on the scorecard and any other on the setup form, and the transcript holds the opening question, the
      answer when it was not blank, and the reply to it, in that order. */
  method OneAnswerInterview(
    name: string, role: string, resume: string, mode: InterviewMode, id: string, startTime: int,
    opening: Result<Parsed<InterviewerResponse>>, openedAt: int,
    answer: string, sentAt: int, reply: Result<Parsed<InterviewerResponse>>, repliedAt: int,
    evaluation: Result<Parsed<Scorecard>>)
    returns (screen: Screen, transcript: seq<ChatMessage>)
    ensures !AcceptsFields(name, role, resume) ==> screen == SetupScreen && transcript == []
    ensures AcceptsFields(name, role, resume) ==>
      screen == if evaluation.Success? && evaluation.value.JsonObject? then ScorecardScreen else SetupScreen
    ensures AcceptsFields(name, role, resume) ==>
      var asked := if TurnDelivered(opening) then [ChatMessage(Interviewer, opening.value.obj.interviewerText, openedAt)] else [];
      transcript == asked + AnswerMessages(answer, sentAt, reply, repliedAt)
  {
    var app, stage, started := OpenInterview(name, role, resume, mode, id, startTime, opening, openedAt);
    if !started {
      return app.CurrentScreen(), [];
    }
    transcript := SendAnswer(stage, answer, sentAt, reply, repliedAt);
    var request := app.FinishInterview(evaluation);
    screen := app.CurrentScreen();
  }
}
