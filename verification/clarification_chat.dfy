/** The research chat that alternates between queries and answers to follow-up
    questions (`dr_chat_workfow_w_clarifications/app.py`, with the input check of
    `ResearchManager.run` in `research_manager.py`). The app keeps three globals: the
    conversation lines, the type of the next reply and a lazily created research
    manager; here they are one state value that each handler call maps to the next.
    The manager's agent is an oracle that sees the prompts of its session. */
module ClarificationChat {
  import opened Wrappers
  import opened Text

  const Greeting: string := "Research Manager: Enter your query"
  const QueryType: string := "query"
  const ClarificationType: string := "clarification"
  const FollowUp: string := "follow_up"

  /** The agent's structured `ResearchResponse`. */
  datatype ResearchResponse = ResearchResponse(kind: string, questions: seq<string>, content: string)

  /** A research manager: the prompts its session has been sent, oldest first. */
  datatype Manager = Manager(session: seq<string>)

  /** The manager agent run with its session: earlier prompts, then the new one. */
  type Agent = (seq<string>, string) -> ResearchResponse

  /** The three globals of the app. */
  datatype AppState = AppState(history: seq<string>, nextReplyType: string, manager: Option<Manager>)

  /** One `yield` of the handler: the conversation markdown and the report text. */
  datatype Shown = Shown(conversation: string, report: string)

  /** The end of one handler call: the globals, what was shown, and the assertion
      error when the manager refused the input type. */
  datatype Outcome = Outcome(state: AppState, shown: seq<Shown>, raised: Option<string>)

  /** Module load and `reset_state` leave the globals like this. */
  const Initial: AppState := AppState([Greeting], QueryType, None)

  /** The reply types the manager accepts. */
  predicate KnownReplyType(t: string) {
    t == QueryType || t == ClarificationType
  }

  /** `reset_state`: the globals go back to the start and the greeting is shown. */
  function ResetState(): (r: (AppState, string))
    ensures r.0.history == [Greeting] && r.0.nextReplyType == QueryType && r.0.manager.None?
    ensures KnownReplyType(r.0.nextReplyType)
  {
    (Initial, Greeting)
  }

  /** `ResearchManager.run`: the input type is checked, then the agent is run on
      `"<type>: <input>"`, which joins the session. */
  function ManagerRun(m: Manager, userInput: string, inputType: string, agent: Agent): (r: Result<(Manager, ResearchResponse), string>)
    ensures r.Success? <==> KnownReplyType(inputType)
    ensures r.Success? ==> r.value.0.session == m.session + [inputType + ": " + userInput]
  {
    if !KnownReplyType(inputType) then Failure("AssertionError")
    else
      var prompt := inputType + ": " + userInput;
      Success((Manager(m.session + [prompt]), agent(m.session, prompt)))
  }

  function Conversation(history: seq<string>): string {
    Join("\n\n", history)
  }

  /** `handle_input`: record the user's line, create the manager if there is none,
      show the conversation, run the manager, then either record its follow-up
      questions and expect a clarification next, or show its report. */
  function HandleInput(s: AppState, userInput: string, agent: Agent): (o: Outcome)
    ensures |o.state.history| >= |s.history| + 1
    ensures o.state.history[..|s.history|] == s.history
    ensures o.state.history[|s.history|] == "You: " + userInput
    ensures o.state.manager.Some?
    ensures var before := if s.manager.None? then [] else s.manager.value.session;
            o.state.manager.value.session
            == if KnownReplyType(s.nextReplyType) then before + [Prompt(s.nextReplyType, userInput)] else before
  {
    var afterUser := s.history + ["You: " + userInput];
    var m := if s.manager.None? then Manager([]) else s.manager.value;
    var working := Shown(Conversation(afterUser), "");
    match ManagerRun(m, userInput, s.nextReplyType, agent)
    case Failure(e) => Outcome(AppState(afterUser, s.nextReplyType, Some(m)), [working], Some(e))
    case Success((m', response)) =>
      if response.kind == FollowUp then
        var history := afterUser + ["Research Manager: " + Join("\n", response.questions)];
        Outcome(AppState(history, ClarificationType, Some(m')), [working, Shown(Conversation(history), "")], None)
      else
        Outcome(AppState(afterUser, s.nextReplyType, Some(m')), [working, Shown(Conversation(afterUser), response.content)], None)
  }

  /** The reply type is always one the manager accepts, so its assertion never fails:
      true initially and after every call. */
  lemma HandleInputKeepsReplyTypeKnown(s: AppState, userInput: string, agent: Agent)
    requires KnownReplyType(s.nextReplyType)
    ensures KnownReplyType(HandleInput(s, userInput, agent).state.nextReplyType)
    ensures HandleInput(s, userInput, agent).raised.None?
    ensures |HandleInput(s, userInput, agent).shown| == 2
  {
  }

  /** A follow-up adds exactly one manager line, the questions one per line, and the
      next reply is a clarification. */
  lemma FollowUpAsksForClarification(s: AppState, userInput: string, agent: Agent)
    requires KnownReplyType(s.nextReplyType)
    requires var m := if s.manager.None? then Manager([]) else s.manager.value;
             agent(m.session, s.nextReplyType + ": " + userInput).kind == FollowUp
    ensures var o := HandleInput(s, userInput, agent);
            var m := if s.manager.None? then Manager([]) else s.manager.value;
            o.state.history == s.history + ["You: " + userInput,
                 "Research Manager: " + Join("\n", agent(m.session, s.nextReplyType + ": " + userInput).questions)]
            && o.state.nextReplyType == ClarificationType
            && o.shown[1].report == ""
  {
  }

  /** Any other answer adds no manager line, keeps the reply type and shows the content. */
  lemma AnswerShowsReport(s: AppState, userInput: string, agent: Agent)
    requires KnownReplyType(s.nextReplyType)
    requires var m := if s.manager.None? then Manager([]) else s.manager.value;
             agent(m.session, s.nextReplyType + ": " + userInput).kind != FollowUp
    ensures var o := HandleInput(s, userInput, agent);
            var m := if s.manager.None? then Manager([]) else s.manager.value;
            o.state.history == s.history + ["You: " + userInput]
            && o.state.nextReplyType == s.nextReplyType
            && o.shown[1].report == agent(m.session, s.nextReplyType + ": " + userInput).content
  {
  }

  /** A sequence of submissions, each from the state the previous one left. */
  function HandleAll(s: AppState, inputs: seq<string>, agent: Agent): (t: AppState)
    decreases |inputs|
  {
    if |inputs| == 0 then s else HandleAll(HandleInput(s, inputs[0], agent).state, inputs[1..], agent)
  }

  /** The prompt a submission sends, given the reply type in force. */
  function Prompt(replyType: string, userInput: string): string {
    replyType + ": " + userInput
  }

  /** One manager serves a whole conversation: after a reset and any submissions, it
      exists and its session holds exactly one prompt per submission, in order; every
      submission added its user line. */
  lemma {:induction false} OneManagerPerConversation(s: AppState, inputs: seq<string>, agent: Agent)
    requires KnownReplyType(s.nextReplyType)
    ensures KnownReplyType(HandleAll(s, inputs, agent).nextReplyType)
    ensures |HandleAll(s, inputs, agent).history| >= |s.history| + |inputs|
    ensures HandleAll(s, inputs, agent).history[..|s.history|] == s.history
    ensures |inputs| > 0 ==> HandleAll(s, inputs, agent).manager.Some?
    ensures s.manager.Some? ==> HandleAll(s, inputs, agent).manager.Some?
    ensures var before := if s.manager.None? then [] else s.manager.value.session;
            var after := HandleAll(s, inputs, agent).manager;
            after.Some? ==> |after.value.session| == |before| + |inputs|
                            && after.value.session[..|before|] == before
    decreases |inputs|
  {
    if |inputs| > 0 {
      var o := HandleInput(s, inputs[0], agent);
      HandleInputKeepsReplyTypeKnown(s, inputs[0], agent);
      OneManagerPerConversation(o.state, inputs[1..], agent);
      var before := if s.manager.None? then [] else s.manager.value.session;
      assert o.state.manager.value.session == before + [Prompt(s.nextReplyType, inputs[0])];
      var t := HandleAll(s, inputs, agent);
      assert t == HandleAll(o.state, inputs[1..], agent);
      assert t.history[..|s.history|] == t.history[..|o.state.history|][..|s.history|];
      assert t.manager.value.session[..|before|]
             == t.manager.value.session[..|o.state.manager.value.session|][..|before|];
    }
  }

  /** Starting from the reset state, the first submission creates the manager and
      sends the query as a query. */
  lemma FirstSubmissionIsQuery(userInput: string, agent: Agent)
    ensures HandleInput(ResetState().0, userInput, agent).state.manager == Some(Manager(["query: " + userInput]))
  {
    var s := ResetState().0;
    assert s.manager.None? && s.nextReplyType == QueryType;
    assert Prompt(QueryType, userInput) == "query: " + userInput;
    var m := HandleInput(s, userInput, agent).state.manager;
    assert m.value.session == [] + [Prompt(QueryType, userInput)];
    assert [] + [Prompt(QueryType, userInput)] == ["query: " + userInput];
    assert m == Some(Manager(m.value.session));
  }
}
