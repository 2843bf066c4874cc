/** The chat handler of the deep-research app that asks clarifying questions first
    (`deep_research_elixirgam_version/deep_research.py`): a turn either goes straight
    to research, because an earlier answer carried the clarification marker, or asks
    the clarification agent for questions. Research serialises the whole chat for the
    research manager. Both agents and the trace id are parameters. */
module ClarifyingResearch {
  import opened Wrappers
  import opened Text

  /** One `(user message, bot response)` pair of the Gradio chat history. */
  datatype Turn = Turn(user: string, bot: string)

  const ClarificationMarker: string := "Clarification and Additional Context:"
  const QuestionsHeader: string := "**Please answer these clarifying questions:**\n\n"
  const ComprehensivePrefix: string := "Research this topic comprehensively: "

  /** What the clarification agent's run gives back: its questions, or `None` when the
      output has no `questions`; `Failure` when the run raises. */
  type ClarificationAgent = string -> Result<Option<seq<string>>, string>

  /** A research-manager run: `Finished` when the result has a `final_output` (its
      `str`), `Other` when it has none (the `str` of the whole result). */
  datatype ManagerRun = Finished(finalOutput: string) | Other(shown: string)
  type ResearchManager = string -> Result<ManagerRun, string>

  /** The reply used for any exception, in both the handler and the research step. */
  function ErrorReply(error: string): string {
    "\U{274C} **Error occurred:** " + error + "\n\nPlease try again with a new research query."
  }

  // ---------------------------------------------------------------------------
  // Routing on the marker
  // ---------------------------------------------------------------------------

  /** `any(CLARIFICATION_MARKER in response for user_msg, response in history)` */
  function MarkerSeen(history: seq<Turn>): (b: bool)
    ensures b <==> exists i :: 0 <= i < |history| && Contains(history[i].bot, ClarificationMarker)
  {
    if |history| == 0 then false
    else Contains(history[0].bot, ClarificationMarker) || MarkerSeen(history[1..])
  }

  // ---------------------------------------------------------------------------
  // The history string handed to the research manager
  // ---------------------------------------------------------------------------

  function TurnText(t: Turn): string {
    "User: " + t.user + "\n" + "Assistant: " + t.bot + "\n" + "---\n"
  }

  /** The loop over the history: one block per pair, appended in order. */
  function Transcript(history: seq<Turn>): string
    decreases |history|
  {
    if |history| == 0 then ""
    else Transcript(history[..|history| - 1]) + TurnText(history[|history| - 1])
  }

  function HistoryString(history: seq<Turn>, query: string): string {
    Transcript(history) + "Current Research Query: " + query
  }

  function TurnTexts(history: seq<Turn>): (ts: seq<string>)
    ensures |ts| == |history| && forall i :: 0 <= i < |history| ==> ts[i] == TurnText(history[i])
  {
    seq(|history|, i requires 0 <= i < |history| => TurnText(history[i]))
  }

  /** The transcript is the pair blocks of the whole history, in order, nothing between. */
  lemma {:induction false} TranscriptIsBlocks(history: seq<Turn>)
    ensures Transcript(history) == Concat(TurnTexts(history))
    decreases |history|
  {
    if |history| > 0 {
      var n := |history| - 1;
      TranscriptIsBlocks(history[..n]);
      assert TurnTexts(history) == TurnTexts(history[..n]) + [TurnText(history[n])];
      ConcatSnoc(TurnTexts(history[..n]), TurnText(history[n]));
    }
  }

  /** The research manager sees every earlier pair, and the query last. */
  lemma HistoryStringHasEveryTurn(history: seq<Turn>, query: string, i: nat)
    requires i < |history|
    ensures Contains(HistoryString(history, query), TurnText(history[i]))
    ensures Contains(HistoryString(history, query), "Current Research Query: " + query)
  {
    var q := "Current Research Query: " + query;
    assert HistoryString(history, query) == Transcript(history) + q;
    TranscriptIsBlocks(history);
    ConcatContains(TurnTexts(history), i);
    ContainsBefore(Transcript(history), q, TurnText(history[i]));
    ContainsAppended(Transcript(history), q);
  }

  // ---------------------------------------------------------------------------
  // `execute_research`
  // ---------------------------------------------------------------------------

  /** The fixed lines of a completed research reply. `SourceWording` is the app's text;
      no property depends on the wording. */
  datatype Wording = Wording(heading: string, traceLink: string, summary: seq<string>, reportHeading: string, closing: string)

  const SourceWording: Wording := Wording(
    "\U{1F680} **Deep Research Process Complete**",
    "\U{1F4CA} [View Trace](https://platform.openai.com/traces/trace?trace_id=",
    [ "---",
      "\U{2705} **RESEARCH HANDOFF CHAIN COMPLETED!**",
      "---",
      "**Process Summary:**",
      "\U{2705} Research Manager \U{2192} gathered comprehensive information",
      "\U{2705} Writer Agent \U{2192} created detailed report",
      "\U{2705} Email Agent \U{2192} formatted and sent email",
      "---" ],
    "\U{1F4C4} **Final Report Summary:**",
    "\n\U{2705} **Research Complete!** Check your email for the full formatted report.")

  /** The lines that open every completed research reply. */
  function Preamble(w: Wording, traceId: string): seq<string> {
    [w.heading, w.traceLink + traceId + ")"] + w.summary
  }

  function OutcomeLines(w: Wording, run: ManagerRun): seq<string> {
    match run
    case Finished(out) => [w.reportHeading, out]
    case Other(shown) => [shown]
  }

  /** `execute_research`: the manager runs on the serialised chat; its output is placed
      between the fixed preamble and closing line; a raised error becomes the error reply. */
  function ExecuteResearch(w: Wording, query: string, history: seq<Turn>, traceId: string, manager: ResearchManager): (reply: string)
    ensures manager(HistoryString(history, query)).Failure? ==>
              reply == ErrorReply(manager(HistoryString(history, query)).error)
  {
    match manager(HistoryString(history, query))
    case Failure(e) => ErrorReply(e)
    case Success(run) => Join("\n", Preamble(w, traceId) + OutcomeLines(w, run) + [w.closing])
  }

  /** A completed run's report, or the shown result when there is none, appears in the
      reply, and so does the closing line. */
  lemma ResearchReplyCarriesOutput(w: Wording, query: string, history: seq<Turn>, traceId: string, manager: ResearchManager)
    requires manager(HistoryString(history, query)).Success?
    ensures var run := manager(HistoryString(history, query)).value;
            Contains(ExecuteResearch(w, query, history, traceId, manager),
                     if run.Finished? then run.finalOutput else run.shown)
    ensures Contains(ExecuteResearch(w, query, history, traceId, manager), w.closing)
  {
    var run := manager(HistoryString(history, query)).value;
    LinesCarryLastAndClosing(Preamble(w, traceId), OutcomeLines(w, run), w.closing);
  }

  /** The last outcome line and the closing line both occur in the joined reply. */
  lemma LinesCarryLastAndClosing(pre: seq<string>, outcome: seq<string>, closing: string)
    requires |outcome| > 0
    ensures Contains(Join("\n", pre + outcome + [closing]), outcome[|outcome| - 1])
    ensures Contains(Join("\n", pre + outcome + [closing]), closing)
  {
    var parts := pre + outcome + [closing];
    var k := |pre| + |outcome| - 1;
    assert parts[k] == outcome[|outcome| - 1];
    JoinContains("\n", parts, k);
    JoinContains("\n", parts, |parts| - 1);
  }

  // ---------------------------------------------------------------------------
  // `process_research_request`
  // ---------------------------------------------------------------------------

  function QuestionLine(i: nat, question: string): string {
    "**" + NatToString(i) + ".** " + question + "\n\n"
  }

  /** The numbered questions, starting at `first`. */
  function QuestionLines(questions: seq<string>, first: nat): string
    decreases |questions|
  {
    if |questions| == 0 then "" else QuestionLine(first, questions[0]) + QuestionLines(questions[1..], first + 1)
  }

  function ClarificationReply(questions: seq<string>): string {
    QuestionsHeader + QuestionLines(questions, 1) + ClarificationMarker
  }

  /** Question `i` (0-based) is shown under the number `i + 1`. */
  lemma {:induction false} QuestionLinesNumbered(questions: seq<string>, first: nat, i: nat)
    requires i < |questions|
    ensures Contains(QuestionLines(questions, first), QuestionLine(first + i, questions[i]))
    decreases |questions|
  {
    var rest := QuestionLines(questions[1..], first + 1);
    if i == 0 {
      OccursInMiddle("", QuestionLine(first, questions[0]), rest);
      assert "" + QuestionLine(first, questions[0]) + rest == QuestionLines(questions, first);
    } else {
      QuestionLinesNumbered(questions[1..], first + 1, i - 1);
      ContainsWithin(QuestionLine(first, questions[0]), rest, "", QuestionLine(first + i, questions[i]));
      assert QuestionLine(first, questions[0]) + rest + "" == QuestionLines(questions, first);
    }
  }

  /** Every clarification reply lists each question under its 1-based number and
      ends with the marker. */
  lemma ClarificationReplyShape(questions: seq<string>, i: nat)
    requires i < |questions|
    ensures Contains(ClarificationReply(questions), QuestionLine(i + 1, questions[i]))
  {
    QuestionLinesNumbered(questions, 1, i);
    ContainsWithin(QuestionsHeader, QuestionLines(questions, 1), ClarificationMarker, QuestionLine(i + 1, questions[i]));
  }

  lemma ClarificationReplyHasMarker(questions: seq<string>)
    ensures Contains(ClarificationReply(questions), ClarificationMarker)
  {
    OccursInMiddle(QuestionsHeader + QuestionLines(questions, 1), ClarificationMarker, "");
    assert QuestionsHeader + QuestionLines(questions, 1) + ClarificationMarker + "" == ClarificationReply(questions);
  }

  /** `process_research_request`: the new chat history (the text box is always
      cleared). A blank message changes nothing; otherwise exactly one pair is added. */
  function ProcessResearchRequest(w: Wording, message: string, history: seq<Turn>, traceId: string,
                                  clarifier: ClarificationAgent, manager: ResearchManager): (next: seq<Turn>)
    ensures IsBlank(message) ==> next == history
    ensures !IsBlank(message) ==> |next| == |history| + 1 && next[..|history|] == history
  {
    if IsBlank(message) then history
    else if MarkerSeen(history) then
      history + [Turn(message, ExecuteResearch(w, message, history, traceId, manager))]
    else
      match clarifier("Generate clarifying questions for: " + message)
      case Failure(e) => history + [Turn(message, ErrorReply(e))]
      case Success(Some(questions)) => history + [Turn(message, ClarificationReply(questions))]
      case Success(None) =>
        var query := ComprehensivePrefix + message;
        history + [Turn(query, ExecuteResearch(w, query, history, traceId, manager))]
  }

  /** Once an answer carried the marker, every non-blank message goes straight to
      research with the whole chat, and the clarification agent is not consulted. */
  lemma MarkerRoutesToResearch(w: Wording, message: string, history: seq<Turn>, traceId: string,
                               clarifier: ClarificationAgent, manager: ResearchManager)
    requires !IsBlank(message) && MarkerSeen(history)
    ensures ProcessResearchRequest(w, message, history, traceId, clarifier, manager)
            == history + [Turn(message, ExecuteResearch(w, message, history, traceId, manager))]
  {
  }

  /** Without the marker, a question list is shown and carries the marker, so the
      following non-blank message goes to research. */
  lemma QuestionsThenResearch(w: Wording, message: string, history: seq<Turn>, traceId: string,
                              clarifier: ClarificationAgent, manager: ResearchManager)
    requires !IsBlank(message) && !MarkerSeen(history)
    requires clarifier("Generate clarifying questions for: " + message).Success?
    requires clarifier("Generate clarifying questions for: " + message).value.Some?
    ensures MarkerSeen(ProcessResearchRequest(w, message, history, traceId, clarifier, manager))
  {
    var questions := clarifier("Generate clarifying questions for: " + message).value.value;
    var next := ProcessResearchRequest(w, message, history, traceId, clarifier, manager);
    ClarificationReplyHasMarker(questions);
    assert next[|history|].bot == ClarificationReply(questions);
  }

  /** The marker, once seen, stays seen: the history only grows. */
  lemma MarkerStaysSeen(w: Wording, message: string, history: seq<Turn>, traceId: string,
                        clarifier: ClarificationAgent, manager: ResearchManager)
    requires MarkerSeen(history)
    ensures MarkerSeen(ProcessResearchRequest(w, message, history, traceId, clarifier, manager))
  {
    var next := ProcessResearchRequest(w, message, history, traceId, clarifier, manager);
    var i :| 0 <= i < |history| && Contains(history[i].bot, ClarificationMarker);
    assert next[i] == history[i];
  }

  /** Without questions the research query is the prefixed message, and that prefixed
      text is what the chat records as the user's turn. */
  lemma NoQuestionsResearchesPrefixed(w: Wording, message: string, history: seq<Turn>, traceId: string,
                                      clarifier: ClarificationAgent, manager: ResearchManager)
    requires !IsBlank(message) && !MarkerSeen(history)
    requires clarifier("Generate clarifying questions for: " + message) == Success(None)
    ensures var next := ProcessResearchRequest(w, message, history, traceId, clarifier, manager);
            next[|history|].user == ComprehensivePrefix + message
            && next[|history|].bot == ExecuteResearch(w, ComprehensivePrefix + message, history, traceId, manager)
  {
  }
}
