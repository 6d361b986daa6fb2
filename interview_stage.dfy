/** The interview screen's controller (components/InterviewStage.tsx): the answer being typed, the loading flag
    and the interviewer's last internal thought. A turn awaits the model, so `handleNextTurn` is split into
    `BeginTurn`, up to the call, and `ReceiveTurn`, what follows it; the model's outcome is a parameter. The
    session is the application's, and the history is pushed back through its `UpdateHistory`. */
module InterviewStage {
  import opened Types
  import opened Wrappers
  import opened JsString
  import opened GeminiService
  import opened App

  class Stage {
    const app: AppState
    var userInput: string
    var isLoading: bool
    var thought: Option<string>

    constructor (app: AppState)
      ensures this.app == app
      ensures userInput == "" && !isLoading && thought == None
    {
      this.app := app;
      userInput, isLoading, thought := "", false, None;
    }

    /** The transcript of the session the stage shows. */
    function History(): seq<ChatMessage>
      reads this, app
      requires app.session.Some?
    {
      app.session.value.history
    }

    /** The arguments of a turn request for the shown session and the given history. */
    function TurnFor(history: seq<ChatMessage>): TurnArgs
      reads this, app
      requires app.session.Some?
    {
      var s := app.session.value;
      TurnArgs(s.mode, s.user.resumeText, s.user.targetRole, history)
    }

    method SetUserInput(value: string)
      modifies this
      ensures userInput == value && isLoading == old(isLoading) && thought == old(thought)
    {
      userInput := value;
    }

    /** `handleNextTurn(history)` up to the model call: loading starts and the turn is requested for `history`. */
    method BeginTurn(history: seq<ChatMessage>) returns (request: TurnArgs)
      requires app.session.Some?
      modifies this
      ensures isLoading && userInput == old(userInput) && thought == old(thought)
      ensures request == TurnFor(history)
    {
      isLoading := true;
      request := TurnFor(history);
    }

    /** `handleNextTurn(history)` after the model answered. When the turn is delivered the history becomes
        `history` followed by exactly one interviewer message carrying the reply's text, and the thought becomes
        the reply's internal thought. When the call failed, or its reply parsed to `null` so that reading its
        text throws, neither changes. Loading ends either way. */
    method ReceiveTurn(history: seq<ChatMessage>, outcome: Result<Parsed<InterviewerResponse>>, now: int)
      requires app.Valid()
      modifies this, app
      ensures app.Valid()
      ensures !isLoading && userInput == old(userInput)
      ensures app.scorecard == old(app.scorecard) && app.isEvaluating == old(app.isEvaluating)
      ensures TurnDelivered(outcome) ==>
        && thought == Some(outcome.value.obj.internalThought)
        && app.session == (if old(app.session).Some? then
             Some(old(app.session).value.(history := history + [ChatMessage(Interviewer, outcome.value.obj.interviewerText, now)]))
           else None)
      ensures !TurnDelivered(outcome) ==> thought == old(thought) && app.session == old(app.session)
    {
      if TurnDelivered(outcome) {
        var turn := outcome.value.obj;
        var newHistory := history + [ChatMessage(Interviewer, turn.interviewerText, now)];
        thought := Some(turn.internalThought);
        app.UpdateHistory(newHistory);
      }
      isLoading := false;
    }

    /** The mount effect: the first turn is requested, with an empty history, exactly when the session has no
        history yet. */
    method MountEffect() returns (request: Option<TurnArgs>)
      requires app.session.Some?
      modifies this
      ensures request.Some? <==> old(History()) == []
      ensures request.Some? ==> request.value == TurnFor([]) && isLoading
      ensures request.None? ==> isLoading == old(isLoading)
      ensures userInput == old(userInput) && thought == old(thought)
    {
      if |History()| == 0 {
        var turn := BeginTurn([]);
        return Some(turn);
      }
      return None;
    }

    /** `handleSend` up to the model call. It does nothing when the trimmed input is empty or a turn is loading.
        Otherwise it appends one candidate message holding the input as typed, untrimmed, clears the input and
        requests the next turn for the extended history. */
    method BeginSend(now: int) returns (request: Option<TurnArgs>)
      requires app.Valid() && app.session.Some?
      modifies this, app
      ensures app.Valid() && app.session.Some?
      ensures request.None? <==> Trim(old(userInput)) == "" || old(isLoading)
      ensures app.scorecard == old(app.scorecard) && app.isEvaluating == old(app.isEvaluating)
      ensures thought == old(thought)
      ensures request.None? ==>
        userInput == old(userInput) && isLoading == old(isLoading) && app.session == old(app.session)
      ensures request.Some? ==>
        var extended := old(History()) + [ChatMessage(Candidate, old(userInput), now)];
        && app.session == Some(old(app.session).value.(history := extended))
        && userInput == "" && isLoading
        && request.value == TurnFor(extended)
    {
      if Trim(userInput) == "" || isLoading {
        return None;
      }
      var message := ChatMessage(Candidate, userInput, now);
      var updated := History() + [message];
      app.UpdateHistory(updated);
      userInput := "";
      var turn := BeginTurn(updated);
      return Some(turn);
    }

    /** The whole of `handleSend`, with the model's outcome as a parameter. A send that goes ahead adds the
        candidate's message and, when the turn is delivered, the interviewer's reply right after it; a turn that
        failed or parsed to `null` keeps the candidate's message and nothing more. The history only ever grows at
        its end. */
    method HandleSend(sentAt: int, outcome: Result<Parsed<InterviewerResponse>>, repliedAt: int) returns (request: Option<TurnArgs>)
      requires app.Valid() && app.session.Some?
      modifies this, app
      ensures app.Valid() && app.session.Some?
      ensures app.session.value == old(app.session).value.(history := History())
      ensures app.scorecard == old(app.scorecard) && app.isEvaluating == old(app.isEvaluating)
      ensures request.None? <==> Trim(old(userInput)) == "" || old(isLoading)
      ensures request.None? ==>
        History() == old(History()) && userInput == old(userInput) && isLoading == old(isLoading) && thought == old(thought)
      ensures request.Some? ==> userInput == "" && !isLoading
      ensures request.Some? ==>
        var candidate := ChatMessage(Candidate, old(userInput), sentAt);
        && request.value == TurnFor(old(History()) + [candidate])
        && (TurnDelivered(outcome) ==>
              && History() == old(History()) + [candidate, ChatMessage(Interviewer, outcome.value.obj.interviewerText, repliedAt)]
              && thought == Some(outcome.value.obj.internalThought))
        && (!TurnDelivered(outcome) ==> History() == old(History()) + [candidate] && thought == old(thought))
      ensures |old(History())| <= |History()| && History()[..|old(History())|] == old(History())
    {
      request := BeginSend(sentAt);
      if request.Some? {
        ReceiveTurn(request.value.history, outcome, repliedAt);
      }
    }
  }
}
