/** The evaluated persona chat (`jongkook/app.py`): an assistant answers as the site
    owner, may call two recording tools, and a second model judges each answer; a
    rejected answer is regenerated with the rejection in the system prompt, at most
    twice. The chat model, the judge, `json.loads` and the resume text are inputs. */
module EvaluatedChat {
  import opened Wrappers
  import opened Text

  const Name: string := "Jongkook Kim"
  const MaxAttempt: nat := 2

  /** A tool call the chat model asks for: its id, the function name, and the JSON
      text of the arguments. */
  datatype ToolCall = ToolCall(id: string, name: string, arguments: string)

  /** The chat messages the app builds. */
  datatype Message =
    | SystemMsg(content: string)
    | UserMsg(content: string)
    | AssistantMsg(content: string, toolCalls: seq<ToolCall>)
    | ToolMsg(content: string, toolCallId: string)

  /** `json.loads` of a tool call's arguments: the keyword arguments, or `None` where
      the text is not a JSON object. */
  type ArgDecoder = string -> Option<map<string, string>>

  /** What calling a tool produced: the `json.dumps` of its result and the line it
      pushed, if any. */
  datatype ToolRun = ToolRun(result: string, pushed: Option<string>)

  const RecordedOk: string := "{\"recorded\": \"ok\"}"
  const NoResult: string := "{}"
  const TypeError: string := "TypeError"

  // ---------------------------------------------------------------------------
  // The two tools and their schemas
  // ---------------------------------------------------------------------------

  /** A keyword argument's value, or the parameter's default. */
  function ArgOr(args: map<string, string>, key: string, default: string): (v: string)
    ensures key in args ==> v == args[key]
    ensures key !in args ==> v == default
  {
    if key in args then args[key] else default
  }

  const UserDetailsParams: set<string> := {"email", "name", "notes"}

  /** `record_user_details(**args)`: `email` is required, `name` and `notes` have
      defaults, and any other keyword is a `TypeError`. */
  function RecordUserDetails(args: map<string, string>): (r: Result<ToolRun, string>)
    ensures r.Success? <==> "email" in args && args.Keys <= UserDetailsParams
    ensures r.Success? ==> r.value.result == RecordedOk && r.value.pushed.Some?
    ensures r.Failure? ==> r.error == TypeError
  {
    if "email" in args && args.Keys <= UserDetailsParams then
      Success(ToolRun(RecordedOk, Some("Recording interest from " + ArgOr(args, "name", "Name not provided")
                                       + " with email " + args["email"]
                                       + " and notes " + ArgOr(args, "notes", "not provided"))))
    else Failure(TypeError)
  }

  /** `record_unknown_question(**args)`: exactly the one `question` keyword. */
  function RecordUnknownQuestion(args: map<string, string>): (r: Result<ToolRun, string>)
    ensures r.Success? <==> args.Keys == {"question"}
    ensures r.Success? ==> r.value.result == RecordedOk && r.value.pushed.Some?
    ensures r.Failure? ==> r.error == TypeError
  {
    if args.Keys == {"question"} then
      Success(ToolRun(RecordedOk, Some("Recording " + args["question"] + " asked that I couldn't answer")))
    else Failure(TypeError)
  }

  /** The tool the name finds among the script's globals: the two recording tools;
      any other name finds nothing and yields the empty result. */
  function CallTool(name: string, args: map<string, string>): (r: Result<ToolRun, string>)
    ensures name != "record_user_details" && name != "record_unknown_question"
            ==> r == Success(ToolRun(NoResult, None))
    ensures r.Success? ==> r.value.result in {RecordedOk, NoResult}
  {
    if name == "record_user_details" then RecordUserDetails(args)
    else if name == "record_unknown_question" then RecordUnknownQuestion(args)
    else Success(ToolRun(NoResult, None))
  }

  /** A tool's parameter schema: its properties and the required ones; extra
      properties are forbidden. */
  datatype Schema = Schema(properties: set<string>, required: set<string>)

  /** Arguments the schema lets the model send. */
  predicate SchemaAllows(s: Schema, args: map<string, string>) {
    s.required <= args.Keys && args.Keys <= s.properties
  }

  /** `record_user_details_json` as written: the third property is spelled `nodes`. */
  const UserDetailsSchema: Schema := Schema({"email", "name", "nodes"}, {"email"})

  /** The schema spelled as the function's parameter, `notes`. */
  const UserDetailsSchemaFixed: Schema := Schema({"email", "name", "notes"}, {"email"})

  const UnknownQuestionSchema: Schema := Schema({"question"}, {"question"})

  /** As written, arguments the schema allows make the tool raise: the model may send
      the notes under `nodes`, which the function does not accept. */
  lemma NodesArgumentRaises()
    ensures SchemaAllows(UserDetailsSchema, map["email" := "a@b.c", "nodes" := "met at a talk"])
    ensures CallTool("record_user_details", map["email" := "a@b.c", "nodes" := "met at a talk"]).Failure?
  {
    var args := map["email" := "a@b.c", "nodes" := "met at a talk"];
    assert "nodes" in args.Keys && "nodes" !in UserDetailsParams;
  }

  /** With the schema spelled `notes`, every argument set it allows is recorded, and
      notes that are sent reach the pushed line. */
  lemma FixedSchemaArgsRecorded(args: map<string, string>)
    requires SchemaAllows(UserDetailsSchemaFixed, args)
    ensures CallTool("record_user_details", args).Success?
    ensures CallTool("record_user_details", args).value.result == RecordedOk
    ensures "notes" in args ==> Contains(CallTool("record_user_details", args).value.pushed.value, args["notes"])
  {
    if "notes" in args {
      var head := "Recording interest from " + ArgOr(args, "name", "Name not provided")
                  + " with email " + args["email"] + " and notes ";
      OccursInMiddle(head, args["notes"], "");
      assert head + args["notes"] + "" == CallTool("record_user_details", args).value.pushed.value;
    }
  }

  /** The question schema matches its function: everything it allows is recorded. */
  lemma QuestionSchemaArgsRecorded(args: map<string, string>)
    requires SchemaAllows(UnknownQuestionSchema, args)
    ensures CallTool("record_unknown_question", args) == Success(ToolRun(RecordedOk,
              Some("Recording " + args["question"] + " asked that I couldn't answer")))
  {
    assert args.Keys == {"question"};
  }

  // ---------------------------------------------------------------------------
  // Handling tool calls
  // ---------------------------------------------------------------------------

  /** One call answered: decode the arguments, run the tool, and reply with a tool
      message carrying the call's id. */
  function ToolReply(call: ToolCall, decode: ArgDecoder): (r: Result<Message, string>)
    ensures r.Success? ==> r.value.ToolMsg? && r.value.toolCallId == call.id
    ensures decode(call.arguments).None? ==> r == Failure("JSONDecodeError")
  {
    match decode(call.arguments)
    case None => Failure("JSONDecodeError")
    case Some(args) =>
      match CallTool(call.name, args)
      case Failure(e) => Failure(e)
      case Success(run) => Success(ToolMsg(run.result, call.id))
  }

  /** `handle_tool_calls` as written: its `return` sits inside the loop, so it answers
      the first call and returns; for no calls it falls off the end (`None`). */
  function HandleToolCalls(calls: seq<ToolCall>, decode: ArgDecoder): (r: Result<Option<seq<Message>>, string>)
    ensures |calls| == 0 ==> r == Success(None)
    ensures r.Success? && r.value.Some? ==> |r.value.value| == 1
  {
    if |calls| == 0 then Success(None)
    else
      match ToolReply(calls[0], decode)
      case Failure(e) => Failure(e)
      case Success(m) => Success(Some([m]))
  }

  /** Whether some message answers the call with this id. */
  predicate Answers(replies: seq<Message>, id: string) {
    exists j :: 0 <= j < |replies| && replies[j].ToolMsg? && replies[j].toolCallId == id
  }

  /** As written, when the model asks for two calls the second is never answered, so
      the next request carries a tool call without its tool message. */
  lemma SecondCallUnanswered(calls: seq<ToolCall>, decode: ArgDecoder)
    requires |calls| >= 2 && calls[1].id != calls[0].id
    requires HandleToolCalls(calls, decode).Success?
    ensures HandleToolCalls(calls, decode).value.Some?
    ensures !Answers(HandleToolCalls(calls, decode).value.value, calls[1].id)
  {
    var replies := HandleToolCalls(calls, decode).value.value;
    assert replies[0].toolCallId == calls[0].id;
  }

  /** `handle_tool_calls` with the `return` after the loop: every call answered in
      order; a failing call raises. */
  function HandleToolCallsFixed(calls: seq<ToolCall>, decode: ArgDecoder): (r: Result<seq<Message>, string>)
    ensures r.Success? ==> |r.value| == |calls|
    ensures r.Success? ==> forall i :: 0 <= i < |calls| ==> r.value[i].ToolMsg? && r.value[i].toolCallId == calls[i].id
    decreases |calls|
  {
    if |calls| == 0 then Success([])
    else
      match ToolReply(calls[0], decode)
      case Failure(e) => Failure(e)
      case Success(m) =>
        match HandleToolCallsFixed(calls[1..], decode)
        case Failure(e) => Failure(e)
        case Success(rest) => Success([m] + rest)
  }

  /** The fixed handler answers every call, and fails exactly when some call's
      arguments do not decode or its tool raises. */
  lemma {:induction false} FixedAnswersEveryCall(calls: seq<ToolCall>, decode: ArgDecoder)
    ensures HandleToolCallsFixed(calls, decode).Success?
            <==> forall i :: 0 <= i < |calls| ==> ToolReply(calls[i], decode).Success?
    ensures HandleToolCallsFixed(calls, decode).Success?
            ==> forall i :: 0 <= i < |calls| ==> Answers(HandleToolCallsFixed(calls, decode).value, calls[i].id)
    decreases |calls|
  {
    if |calls| > 0 {
      FixedAnswersEveryCall(calls[1..], decode);
      assert forall i :: 1 <= i < |calls| ==> calls[1..][i - 1] == calls[i];
    }
    var r := HandleToolCallsFixed(calls, decode);
    if r.Success? {
      forall i | 0 <= i < |calls| ensures Answers(r.value, calls[i].id) {
        assert r.value[i].ToolMsg? && r.value[i].toolCallId == calls[i].id;
      }
    }
  }

  /** The two handlers agree on a single call. */
  lemma HandlersAgreeOnOneCall(call: ToolCall, decode: ArgDecoder)
    ensures HandleToolCalls([call], decode).Success? <==> HandleToolCallsFixed([call], decode).Success?
    ensures HandleToolCalls([call], decode).Success?
            ==> HandleToolCalls([call], decode).value == Some(HandleToolCallsFixed([call], decode).value)
  {
    assert [call][1..] == [];
    assert HandleToolCallsFixed([], decode) == Success([]);
    match ToolReply(call, decode)
    case Failure(_) =>
    case Success(m) => assert [m] + [] == [m];
  }

  // ---------------------------------------------------------------------------
  // The persona assistant (`avator`)
  // ---------------------------------------------------------------------------

  /** The judge's verdict on one answer, with the answer it judged. */
  datatype Evaluation = Evaluation(isAcceptable: bool, feedback: string, avatorResponse: string)

  /** The fixed text of the persona's and the judge's prompts, in the pieces around
      the inserted values. `SourceWording` is the app's text; no property depends on the
      wording. */
  datatype Wording = Wording(
    persona: string, resumeHeading: string, stayInCharacter: string, rejectedHeader: string,
    evaluatorPrompt: string, evaluatorResumeHeading: string, evaluatorTail: string,
    conversationIntro: string, questionIntro: string, responseIntro: string, evaluateRequest: string)

  const SourceWording: Wording := Wording(
    "You are acting as " + Name + ". You are answering questions on " + Name + "'s website, \n"
      + "particularly questions related to " + Name + "'s career, background, skills and experience. \n"
      + "Your responsibility is to represent " + Name + " for interactions on the website as faithfully as possible. \n"
      + "You are given a Resume of " + Name + "'s background which you can use to answer questions. \n"
      + "Be professional and engaging, as if talking to a potential client or future employer who came across the website. \n"
      + "If you don't know the answer, say so.\n"
      + "If you don't know the answer to any question, use your record_unknown_question tool to record the question "
      + "that you couldn't answer, even if it's about something trivial or unrelated to career. "
      + "If the user is engaging in discussion, try to steer them towards getting in touch via email; "
      + "ask for their email and record it using your record_user_details tool. ",
    "\n\n## Resume:\n",
    "\n\nWith this context, please chat with the user, always staying in character as " + Name + ".",
    "\n\n## Previous answer rejected\nYou just tried to reply, but the quality control rejected your reply\n",
    "You are an evaluator that decides whether a response to a question is acceptable. "
      + "You are provided with a conversation between a User and an Agent. "
      + "Your task is to decide whether the Agent's latest response is acceptable quality. "
      + "The Agent is playing the role of " + Name + " and is representing " + Name + " on their website. "
      + "The Agent has been instructed to be professional and engaging, as if talking to a potential client "
      + "or future employer who came across the website. "
      + "The Agent has been provided with context on " + Name + " in the form of their Resume details. "
      + "Here's the information:",
    "## Resume:\n",
    "\n\nWith this context, please evaluate the latest response, replying with whether the response is acceptable and your feedback.",
    "Here's the conversation between the User and the Agent: \n\n",
    "\n\nHere's the latest message from the User: \n\n",
    "\n\nHere's the latest response from the Agent: \n\n",
    "\n\nPlease evaluate the response, replying with whether it is acceptable and your feedback.")

  /** The prompt with the resume, before any rejection. */
  function PersonaWithResume(w: Wording, resume: string): string {
    w.persona + w.resumeHeading + resume + w.stayInCharacter
  }

  /** The section a rejected answer adds: the answer and the reason. */
  function RejectionSection(w: Wording, e: Evaluation): (r: string)
    ensures Contains(r, "## Your attempted answer:\n" + e.avatorResponse)
    ensures Contains(r, "## Reason for rejection:\n" + e.feedback)
  {
    var answer := "## Your attempted answer:\n" + e.avatorResponse;
    var reason := "## Reason for rejection:\n" + e.feedback;
    var gap := "\n\n";
    ThreePartsOccur(w.rejectedHeader, answer, gap, reason, gap);
    w.rejectedHeader + answer + gap + reason + gap
  }

  /** Whether an evaluation asks for a retry: present and not acceptable. */
  predicate Rejected(evaluation: Option<Evaluation>) {
    evaluation.Some? && !evaluation.value.isAcceptable
  }

  /** The system prompt of `avator`: the persona and the resume, then the rejection
      section when the previous answer was rejected. */
  function AvatorSystemPrompt(w: Wording, resume: string, evaluation: Option<Evaluation>): string {
    PersonaWithResume(w, resume) + (if Rejected(evaluation) then RejectionSection(w, evaluation.value) else "")
  }

  /** Without a rejection the prompt is the persona with the resume; after one it
      extends that prompt and shows the rejected answer and the reason. */
  lemma RejectionShownOnlyWhenRejected(w: Wording, resume: string, evaluation: Option<Evaluation>)
    ensures !Rejected(evaluation) ==> AvatorSystemPrompt(w, resume, evaluation) == PersonaWithResume(w, resume)
    ensures Rejected(evaluation) ==>
              |AvatorSystemPrompt(w, resume, evaluation)| > |PersonaWithResume(w, resume)|
              && AvatorSystemPrompt(w, resume, evaluation)[..|PersonaWithResume(w, resume)|] == PersonaWithResume(w, resume)
              && Contains(AvatorSystemPrompt(w, resume, evaluation), "## Your attempted answer:\n" + evaluation.value.avatorResponse)
              && Contains(AvatorSystemPrompt(w, resume, evaluation), "## Reason for rejection:\n" + evaluation.value.feedback)
  {
    if Rejected(evaluation) {
      var base := PersonaWithResume(w, resume);
      var section := RejectionSection(w, evaluation.value);
      assert AvatorSystemPrompt(w, resume, evaluation) == base + section;
      assert (base + section)[..|base|] == base;
      ContainsWithin(base, section, "", "## Your attempted answer:\n" + evaluation.value.avatorResponse);
      ContainsWithin(base, section, "", "## Reason for rejection:\n" + evaluation.value.feedback);
      assert base + section + "" == base + section;
    }
  }

  /** The request `avator` starts from: its system prompt, the history, the message. */
  function AvatorMessages(w: Wording, message: string, history: seq<Message>, resume: string, evaluation: Option<Evaluation>): (ms: seq<Message>)
    ensures |ms| == |history| + 2
    ensures ms[0] == SystemMsg(AvatorSystemPrompt(w, resume, evaluation))
    ensures ms[1..|ms| - 1] == history
    ensures ms[|ms| - 1] == UserMsg(message)
  {
    [SystemMsg(AvatorSystemPrompt(w, resume, evaluation))] + history + [UserMsg(message)]
  }

  /** One chat completion: why it finished, the assistant text and its tool calls. */
  datatype Completion = Completion(finishReason: string, content: string, toolCalls: seq<ToolCall>)

  type ChatModel = seq<Message> -> Completion

  /** `str(e)` of the `TypeError` that `messages.extend(None)` raises. */
  const NotIterableError: string := "'NoneType' object is not iterable"

  /** The tool messages one tool round adds: `handle_tool_calls` as written, whose `None`
      makes `messages.extend` raise, or the fixed handler. */
  function ToolRound(calls: seq<ToolCall>, decode: ArgDecoder, fixedHandler: bool): (r: Result<seq<Message>, string>)
    ensures !fixedHandler && |calls| == 0 ==> r == Failure(NotIterableError)
    ensures !fixedHandler && r.Success? ==>
              |calls| > 0 && ToolReply(calls[0], decode).Success? && r.value == [ToolReply(calls[0], decode).value]
    ensures !fixedHandler && |calls| > 0 ==> (r.Success? <==> ToolReply(calls[0], decode).Success?)
    ensures fixedHandler ==> r == HandleToolCallsFixed(calls, decode)
  {
    if fixedHandler then HandleToolCallsFixed(calls, decode)
    else
      match HandleToolCalls(calls, decode)
      case Failure(e) => Failure(e)
      case Success(None) => Failure(NotIterableError)
      case Success(Some(replies)) => Success(replies)
  }

  /** The `while not done` loop of `avator`: each tool-call completion is appended with
      the round's tool messages and the model is asked again; any other completion ends
      the loop with its text. `fuel` bounds the rounds; the reply also carries the final
      request. */
  function ChatLoop(messages: seq<Message>, chat: ChatModel, decode: ArgDecoder, fixedHandler: bool, fuel: nat): (r: Result<(string, seq<Message>), string>)
    ensures r.Success? ==> |r.value.1| >= |messages| && r.value.1[..|messages|] == messages
    ensures r.Success? ==> chat(r.value.1).finishReason != "tool_calls" && r.value.0 == chat(r.value.1).content
    decreases fuel
  {
    if fuel == 0 then Failure("no final answer within the rounds allowed")
    else
      var c := chat(messages);
      if c.finishReason != "tool_calls" then Success((c.content, messages))
      else
        match ToolRound(c.toolCalls, decode, fixedHandler)
        case Failure(e) => Failure(e)
        case Success(replies) =>
          var next := messages + [AssistantMsg(c.content, c.toolCalls)] + replies;
          var r := ChatLoop(next, chat, decode, fixedHandler, fuel - 1);
          assert r.Success? ==> r.value.1[..|messages|] == r.value.1[..|next|][..|messages|];
          r
  }

  /** The loop as written, with `handle_tool_calls` answering only the first call. */
  function AvatorLoop(messages: seq<Message>, chat: ChatModel, decode: ArgDecoder, fuel: nat): (r: Result<(string, seq<Message>), string>)
    ensures r.Success? ==> |r.value.1| >= |messages| && r.value.1[..|messages|] == messages
    ensures r.Success? ==> chat(r.value.1).finishReason != "tool_calls" && r.value.0 == chat(r.value.1).content
  {
    ChatLoop(messages, chat, decode, false, fuel)
  }

  /** The loop with the fixed handler, answering every call. */
  function AvatorLoopFixed(messages: seq<Message>, chat: ChatModel, decode: ArgDecoder, fuel: nat): (r: Result<(string, seq<Message>), string>)
    ensures r.Success? ==> |r.value.1| >= |messages| && r.value.1[..|messages|] == messages
    ensures r.Success? ==> chat(r.value.1).finishReason != "tool_calls" && r.value.0 == chat(r.value.1).content
  {
    ChatLoop(messages, chat, decode, true, fuel)
  }

  /** As written, a tool round appends the assistant's request and one tool message, for
      its first call only; a tool round with no calls raises `TypeError`. */
  lemma ToolRoundAnswersFirstCall(messages: seq<Message>, chat: ChatModel, decode: ArgDecoder, fuel: nat)
    requires fuel > 0 && chat(messages).finishReason == "tool_calls"
    ensures chat(messages).toolCalls == [] ==> AvatorLoop(messages, chat, decode, fuel) == Failure(NotIterableError)
    ensures var c := chat(messages);
            c.toolCalls != [] && ToolReply(c.toolCalls[0], decode).Success? ==>
              var next := messages + [AssistantMsg(c.content, c.toolCalls), ToolReply(c.toolCalls[0], decode).value];
              next[|messages| + 1].toolCallId == c.toolCalls[0].id
              && AvatorLoop(messages, chat, decode, fuel) == AvatorLoop(next, chat, decode, fuel - 1)
  {
    var c := chat(messages);
    if c.toolCalls != [] && ToolReply(c.toolCalls[0], decode).Success? {
      var m := ToolReply(c.toolCalls[0], decode).value;
      assert messages + [AssistantMsg(c.content, c.toolCalls)] + [m] == messages + [AssistantMsg(c.content, c.toolCalls), m];
    }
  }

  /** With the fixed handler a tool round keeps the conversation well formed: the
      assistant's request is followed by one answer per call, in the order of the calls. */
  lemma {:induction false} ToolRoundAnswersInOrder(messages: seq<Message>, chat: ChatModel, decode: ArgDecoder, fuel: nat)
    requires fuel > 0 && chat(messages).finishReason == "tool_calls"
    requires HandleToolCallsFixed(chat(messages).toolCalls, decode).Success?
    ensures var c := chat(messages);
            var next := messages + [AssistantMsg(c.content, c.toolCalls)] + HandleToolCallsFixed(c.toolCalls, decode).value;
            |next| == |messages| + 1 + |c.toolCalls|
            && (forall i :: 0 <= i < |c.toolCalls| ==> next[|messages| + 1 + i] == ToolMsg(next[|messages| + 1 + i].content, c.toolCalls[i].id))
            && AvatorLoopFixed(messages, chat, decode, fuel) == AvatorLoopFixed(next, chat, decode, fuel - 1)
  {
    var c := chat(messages);
    var replies := HandleToolCallsFixed(c.toolCalls, decode).value;
    var next := messages + [AssistantMsg(c.content, c.toolCalls)] + replies;
    forall i | 0 <= i < |c.toolCalls|
      ensures next[|messages| + 1 + i] == ToolMsg(next[|messages| + 1 + i].content, c.toolCalls[i].id)
    {
      assert next[|messages| + 1 + i] == replies[i];
    }
  }

  // ---------------------------------------------------------------------------
  // The evaluator
  // ---------------------------------------------------------------------------

  /** `evaluator_user_prompt`; `historyText` is the `str` of the history. */
  function EvaluatorUserPrompt(w: Wording, question: string, response: string, historyText: string): string {
    w.conversationIntro + historyText + (w.questionIntro + question) + (w.responseIntro + response) + w.evaluateRequest
  }

  /** The judge sees the history, the user's latest message and the answer, each
      under its heading. */
  lemma EvaluatorUserPromptShowsExchange(w: Wording, question: string, response: string, historyText: string)
    ensures Contains(EvaluatorUserPrompt(w, question, response, historyText), historyText)
    ensures Contains(EvaluatorUserPrompt(w, question, response, historyText), w.questionIntro + question)
    ensures Contains(EvaluatorUserPrompt(w, question, response, historyText), w.responseIntro + response)
  {
    ThreePartsOccur(w.conversationIntro, historyText, w.questionIntro + question, w.responseIntro + response, w.evaluateRequest);
  }

  /** Each of three pieces spliced between fixed texts occurs in the result. */
  lemma ThreePartsOccur(a: string, x: string, y: string, z: string, b: string)
    ensures Contains(a + x + y + z + b, x) && Contains(a + x + y + z + b, y) && Contains(a + x + y + z + b, z)
  {
    OccursInMiddle(a, x, y + z + b);
    assert a + x + (y + z + b) == a + x + y + z + b;
    OccursInMiddle(a + x, y, z + b);
    assert a + x + y + (z + b) == a + x + y + z + b;
    OccursInMiddle(a + x + y, z, b);
  }

  /** The judge's request: the evaluator prompt with the resume, then the user prompt. */
  function EvaluatorMessages(w: Wording, question: string, response: string, historyText: string, resume: string): (ms: seq<Message>)
    ensures |ms| == 2 && ms[0].SystemMsg? && ms[1] == UserMsg(EvaluatorUserPrompt(w, question, response, historyText))
  {
    [SystemMsg(w.evaluatorPrompt + w.evaluatorResumeHeading + resume + w.evaluatorTail),
     UserMsg(EvaluatorUserPrompt(w, question, response, historyText))]
  }

  /** The judge is given the resume in its system prompt. */
  lemma EvaluatorSeesResume(w: Wording, question: string, response: string, historyText: string, resume: string)
    ensures Contains(EvaluatorMessages(w, question, response, historyText, resume)[0].content, resume)
  {
    OccursInMiddle(w.evaluatorPrompt + w.evaluatorResumeHeading, resume, w.evaluatorTail);
  }

  /** What the judge model returns: the verdict and the feedback. */
  datatype Verdict = Verdict(isAcceptable: bool, feedback: string)

  type Judge = seq<Message> -> Verdict

  /** `evaluator`: the judge's verdict, with the judged answer recorded over whatever
      the judge put there. */
  function Evaluate(w: Wording, question: string, response: string, historyText: string, resume: string, judge: Judge): (e: Evaluation)
    ensures e.avatorResponse == response
    ensures Verdict(e.isAcceptable, e.feedback) == judge(EvaluatorMessages(w, question, response, historyText, resume))
  {
    var v := judge(EvaluatorMessages(w, question, response, historyText, resume));
    Evaluation(v.isAcceptable, v.feedback, response)
  }

  // ---------------------------------------------------------------------------
  // The orchestrator
  // ---------------------------------------------------------------------------

  /** `avator` as the orchestrator uses it: message, history and the evaluation of
      the previous answer, to a reply. */
  type Responder = (string, seq<Message>, Option<Evaluation>) -> string

  /** The orchestrator's result: the reply shown and the evaluations made, in order. */
  datatype Attempted = Attempted(reply: string, evaluations: seq<Evaluation>)

  function Last(evals: seq<Evaluation>): Evaluation
    requires |evals| > 0
  {
    evals[|evals| - 1]
  }

  /** The regeneration after a rejection: the feedback is put before the message and
      the evaluation is passed along. */
  function Regenerate(message: string, history: seq<Message>, e: Evaluation, avator: Responder): string {
    avator(e.feedback + message, history, Some(e))
  }

  /** The attempts loop from `attempt` on, holding the current answer `response`. */
  function Attempts(w: Wording, message: string, history: seq<Message>, historyText: string, resume: string,
                    avator: Responder, judge: Judge, response: string, attempt: nat): (r: Attempted)
    requires 1 <= attempt <= MaxAttempt + 1
    ensures |r.evaluations| == 0 <==> attempt == MaxAttempt + 1
    ensures |r.evaluations| <= MaxAttempt + 1 - attempt
    ensures |r.evaluations| > 0 ==> r.evaluations[0] == Evaluate(w, message, response, historyText, resume, judge)
    ensures forall i :: 0 <= i < |r.evaluations| - 1 ==>
              !r.evaluations[i].isAcceptable
              && r.evaluations[i + 1].avatorResponse == Regenerate(message, history, r.evaluations[i], avator)
    ensures |r.evaluations| > 0 && Last(r.evaluations).isAcceptable ==> r.reply == Last(r.evaluations).avatorResponse
    ensures |r.evaluations| > 0 && !Last(r.evaluations).isAcceptable ==>
              |r.evaluations| == MaxAttempt + 1 - attempt
              && r.reply == Regenerate(message, history, Last(r.evaluations), avator)
    decreases MaxAttempt + 1 - attempt
  {
    if attempt == MaxAttempt + 1 then Attempted(response, [])
    else
      var e := Evaluate(w, message, response, historyText, resume, judge);
      if e.isAcceptable then Attempted(response, [e])
      else
        var next := Regenerate(message, history, e, avator);
        var rest := Attempts(w, message, history, historyText, resume, avator, judge, next, attempt + 1);
        Attempted(rest.reply, [e] + rest.evaluations)
  }

  /** `orchestrator`: a first answer, then up to `MaxAttempt` evaluations. */
  function Orchestrator(w: Wording, message: string, history: seq<Message>, historyText: string, resume: string,
                        avator: Responder, judge: Judge): (r: Attempted)
    ensures 1 <= |r.evaluations| <= MaxAttempt
    ensures r.evaluations[0].avatorResponse == avator(message, history, None)
  {
    Attempts(w, message, history, historyText, resume, avator, judge, avator(message, history, None), 1)
  }

  /** An accepted answer ends the loop and is the reply; only the last evaluation can
      accept. */
  lemma AcceptedAnswerIsReply(w: Wording, message: string, history: seq<Message>, historyText: string, resume: string,
                              avator: Responder, judge: Judge, i: nat)
    requires var r := Orchestrator(w, message, history, historyText, resume, avator, judge);
             i < |r.evaluations| && r.evaluations[i].isAcceptable
    ensures var r := Orchestrator(w, message, history, historyText, resume, avator, judge);
            i == |r.evaluations| - 1 && r.reply == r.evaluations[i].avatorResponse
  {
  }

  /** When every answer is rejected, the reply is the last regeneration, which no
      judge has seen: it is shown unevaluated. */
  lemma AllRejectedShowsUnevaluated(w: Wording, message: string, history: seq<Message>, historyText: string, resume: string,
                                    avator: Responder, judge: Judge)
    requires !Last(Orchestrator(w, message, history, historyText, resume, avator, judge).evaluations).isAcceptable
    ensures var r := Orchestrator(w, message, history, historyText, resume, avator, judge);
            |r.evaluations| == MaxAttempt
            && r.reply == Regenerate(message, history, r.evaluations[MaxAttempt - 1], avator)
  {
  }

  /** Each regeneration is asked with the judged answer and the judge's reason in its
      system prompt, and with the feedback before the user's message. */
  lemma RegenerationSeesRejection(w: Wording, message: string, history: seq<Message>, historyText: string, resume: string,
                                  avator: Responder, judge: Judge, i: nat)
    requires var r := Orchestrator(w, message, history, historyText, resume, avator, judge);
             i < |r.evaluations| && !r.evaluations[i].isAcceptable
    ensures var r := Orchestrator(w, message, history, historyText, resume, avator, judge);
            var e := r.evaluations[i];
            var ms := AvatorMessages(w, e.feedback + message, history, resume, Some(e));
            Contains(ms[0].content, "## Your attempted answer:\n" + e.avatorResponse)
            && Contains(ms[0].content, "## Reason for rejection:\n" + e.feedback)
            && ms[|ms| - 1] == UserMsg(e.feedback + message)
  {
    var e := Orchestrator(w, message, history, historyText, resume, avator, judge).evaluations[i];
    RejectionShownOnlyWhenRejected(w, resume, Some(e));
  }
}
