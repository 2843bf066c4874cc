/** The orchestrator-workers demo (`orchestrator_workers_demo.py`): an orchestrator model
    splits a task into subtasks, each subtask goes to a worker model chosen by its id and
    by which optional clients exist, and the orchestrator writes a report from the
    workers' answers. Every model call and the plan's JSON decoding are oracles. */
module OrchestratorWorkers {
  import opened Wrappers
  import opened Text

  /** The JSON `id` of a subtask: an integer, or any other value shown by its text. */
  datatype SubtaskId = IntId(n: int) | OtherId(shown: string)

  datatype Subtask = Subtask(id: SubtaskId, description: string, expertise: string, outputFormat: string)

  /** The environment keys that decide which optional clients are built. */
  datatype Keys = Keys(google: Option<string>, deepseek: Option<string>)

  /** The optional clients present: each exists iff its key is set and non-empty. */
  datatype Clients = Clients(gemini: bool, deepseek: bool)

  function Present(key: Option<string>): bool {
    key.Some? && key.value != ""
  }

  /** `__init__`: `self.gemini` / `self.deepseek` are created only under a truthy key. */
  function MakeClients(keys: Keys): (c: Clients)
    ensures c.gemini <==> keys.google.Some? && keys.google.value != ""
    ensures c.deepseek <==> keys.deepseek.Some? && keys.deepseek.value != ""
  {
    Clients(Present(keys.google), Present(keys.deepseek))
  }

  datatype Provider = Claude | OpenAI | Gemini | DeepSeek

  /** Where a worker call goes: the client, the model id sent, and the `worker_model` recorded. */
  datatype Route = Route(provider: Provider, model: string, workerModel: string)

  /** The `if subtask['id'] == ...` chain of `execute_worker_tasks`. */
  function RouteFor(id: SubtaskId, clients: Clients): (r: Route)
    ensures id == IntId(1) ==> r == Route(Claude, "claude-3-7-sonnet-latest", "claude-3-7-sonnet-latest")
    ensures id == IntId(2) ==> r == Route(OpenAI, "gpt-4o-mini", "gpt-4o-mini")
    ensures id == IntId(3) && clients.gemini ==> r == Route(Gemini, "gemini-2.0-flash", "gemini-2.0-flash")
    ensures id == IntId(3) && !clients.gemini ==> r == Route(OpenAI, "gpt-4o-mini", "gpt-4o-mini (fallback)")
    ensures id !in {IntId(1), IntId(2), IntId(3)} && clients.deepseek ==> r == Route(DeepSeek, "deepseek-chat", "deepseek-chat")
    ensures id !in {IntId(1), IntId(2), IntId(3)} && !clients.deepseek ==> r == Route(OpenAI, "gpt-4o-mini", "gpt-4o-mini (additional)")
  {
    if id == IntId(1) then Route(Claude, "claude-3-7-sonnet-latest", "claude-3-7-sonnet-latest")
    else if id == IntId(2) then Route(OpenAI, "gpt-4o-mini", "gpt-4o-mini")
    else if id == IntId(3) then
      if clients.gemini then Route(Gemini, "gemini-2.0-flash", "gemini-2.0-flash")
      else Route(OpenAI, "gpt-4o-mini", "gpt-4o-mini (fallback)")
    else if clients.deepseek then Route(DeepSeek, "deepseek-chat", "deepseek-chat")
    else Route(OpenAI, "gpt-4o-mini", "gpt-4o-mini (additional)")
  }

  /** An optional client is used only when it exists, and a missing one falls back to
      OpenAI's `gpt-4o-mini`; the recorded name always starts with which model answered. */
  lemma RouteUsesOnlyPresentClients(id: SubtaskId, clients: Clients)
    ensures RouteFor(id, clients).provider == Gemini ==> clients.gemini
    ensures RouteFor(id, clients).provider == DeepSeek ==> clients.deepseek
    ensures RouteFor(id, clients).provider == OpenAI <==>
      id == IntId(2) || (id == IntId(3) && !clients.gemini) || (id !in {IntId(1), IntId(2), IntId(3)} && !clients.deepseek)
    ensures RouteFor(id, clients).provider == OpenAI ==> RouteFor(id, clients).model == "gpt-4o-mini"
    ensures OccursAt(RouteFor(id, clients).workerModel, RouteFor(id, clients).model, 0)
  {
    var r := RouteFor(id, clients);
    assert r.workerModel[..|r.model|] == r.model;
  }

  /** The fixed text of the two prompt templates, in the pieces between the inserted
      values. `SourceWording` is the demo's text; no property depends on the wording. */
  datatype Wording = Wording(
    specialist: string, yourTask: string, formatIntro: string, focus: string,
    managerIntro: string, workersIntro: string, reportsIntro: string, synthesisTail: string)

  const SourceWording: Wording := Wording(
    "\nYou are a specialist in ",
    ". \nYour task is: ",
    "\n\nPlease provide your analysis in the following format: ",
    "\n\nFocus only on your area of expertise and provide a comprehensive, well-reasoned response.\n",
    "\nYou are the project manager orchestrating this analysis. You have received detailed reports from ",
    " specialized workers.\n\nORIGINAL TASK: ",
    "\n\nWORKER REPORTS:\n",
    "\nYour job is to synthesize these specialized analyses into a comprehensive, coherent final report.\n\nCreate a final report that:\n1. Integrates all the worker perspectives\n2. Identifies any conflicts or gaps between the analyses\n3. Provides overall conclusions and recommendations\n4. Is well-structured and easy to understand\n\nFormat your response as a professional report with clear sections and actionable insights.\n")

  /** The worker prompt of a subtask. */
  function WorkerPrompt(w: Wording, t: Subtask): string {
    w.specialist + t.expertise + w.yourTask + t.description + w.formatIntro + t.outputFormat + w.focus
  }

  /** A chat call: the answer text, or the message of the exception raised. */
  type Api = (Provider, string, string) -> Result<string, string>

  /** One entry of `worker_results`. */
  datatype WorkerResult = WorkerResult(subtaskId: SubtaskId, description: string, expertise: string, result: string, workerModel: string)

  /** The record kept for a subtask whose call answered `answer`. */
  function RecordFor(t: Subtask, clients: Clients, answer: string): WorkerResult {
    WorkerResult(t.id, t.description, t.expertise, answer, RouteFor(t.id, clients).workerModel)
  }

  /** The worker call for one subtask. */
  function Call(w: Wording, t: Subtask, clients: Clients, api: Api): Result<string, string> {
    var route := RouteFor(t.id, clients);
    api(route.provider, route.model, WorkerPrompt(w, t))
  }

  /** `execute_worker_tasks`: subtasks run in order; the first failed call aborts the
      whole step with its error. */
  function ExecuteWorkerTasks(w: Wording, subtasks: seq<Subtask>, clients: Clients, api: Api): (r: Result<seq<WorkerResult>, string>)
    ensures r.Success? ==> |r.value| == |subtasks|
  {
    if |subtasks| == 0 then Success([])
    else
      match Call(w, subtasks[0], clients, api)
      case Failure(e) => Failure(e)
      case Success(answer) =>
        var rest := ExecuteWorkerTasks(w, subtasks[1..], clients, api);
        if rest.Failure? then Failure(rest.error)
        else Success([RecordFor(subtasks[0], clients, answer)] + rest.value)
  }

  /** A completed step holds, at every position, the record of that subtask with the
      answer of its own successful call. */
  lemma {:induction false} ExecuteRecordsEverySubtask(w: Wording, subtasks: seq<Subtask>, clients: Clients, api: Api, i: nat)
    requires ExecuteWorkerTasks(w, subtasks, clients, api).Success?
    requires i < |subtasks|
    ensures Call(w, subtasks[i], clients, api).Success?
    ensures ExecuteWorkerTasks(w, subtasks, clients, api).value[i]
            == RecordFor(subtasks[i], clients, Call(w, subtasks[i], clients, api).value)
    decreases i
  {
    if i > 0 {
      ExecuteRecordsEverySubtask(w, subtasks[1..], clients, api, i - 1);
      assert subtasks[1..][i - 1] == subtasks[i];
    }
  }

  /** A failed step reports the error of the first subtask whose call failed; every
      call before it succeeded. */
  lemma {:induction false} ExecuteStopsAtFirstFailure(w: Wording, subtasks: seq<Subtask>, clients: Clients, api: Api)
    requires ExecuteWorkerTasks(w, subtasks, clients, api).Failure?
    ensures exists i :: (0 <= i < |subtasks|
      && Call(w, subtasks[i], clients, api) == Failure(ExecuteWorkerTasks(w, subtasks, clients, api).error)
      && (forall j :: 0 <= j < i ==> Call(w, subtasks[j], clients, api).Success?))
  {
    var e := ExecuteWorkerTasks(w, subtasks, clients, api).error;
    if Call(w, subtasks[0], clients, api).Failure? {
      assert Call(w, subtasks[0], clients, api) == Failure(e);
    } else {
      ExecuteStopsAtFirstFailure(w, subtasks[1..], clients, api);
      var i :| 0 <= i < |subtasks| - 1 && Call(w, subtasks[1..][i], clients, api) == Failure(e)
               && (forall j :: 0 <= j < i ==> Call(w, subtasks[1..][j], clients, api).Success?);
      assert Call(w, subtasks[i + 1], clients, api) == Failure(e);
      forall j | 0 <= j < i + 1 ensures Call(w, subtasks[j], clients, api).Success? {
        if j > 0 {
          assert subtasks[j] == subtasks[1..][j - 1];
        }
      }
    }
  }

  /** `str(id)` in an f-string. */
  function ShowId(id: SubtaskId): string {
    match id
    case IntId(n) => IntToString(n)
    case OtherId(s) => s
  }

  /** The report block of one worker in the synthesis prompt. */
  function WorkerBlock(w: WorkerResult): string {
    "\nWORKER " + ShowId(w.subtaskId) + " - " + w.expertise + ":\n" + w.result + "\n\n---\n"
  }

  function SynthesisHead(w: Wording, task: string, workers: nat): string {
    w.managerIntro + NatToString(workers) + w.workersIntro + task + w.reportsIntro
  }

  /** The report blocks appended one by one, as the loop of `synthesize_results` does. */
  function Reports(results: seq<WorkerResult>): string
    decreases |results|
  {
    if |results| == 0 then ""
    else Reports(results[..|results| - 1]) + WorkerBlock(results[|results| - 1])
  }

  function Blocks(results: seq<WorkerResult>): (bs: seq<string>)
    ensures |bs| == |results| && forall i :: 0 <= i < |results| ==> bs[i] == WorkerBlock(results[i])
  {
    seq(|results|, i requires 0 <= i < |results| => WorkerBlock(results[i]))
  }

  /** The appended reports are the workers' blocks in order, nothing in between. */
  lemma {:induction false} ReportsAreBlocks(results: seq<WorkerResult>)
    ensures Reports(results) == Concat(Blocks(results))
    decreases |results|
  {
    if |results| > 0 {
      var n := |results| - 1;
      ReportsAreBlocks(results[..n]);
      assert Blocks(results) == Blocks(results[..n]) + [WorkerBlock(results[n])];
      ConcatSnoc(Blocks(results[..n]), WorkerBlock(results[n]));
    }
  }

  /** `synthesis_prompt` */
  function SynthesisPrompt(w: Wording, task: string, results: seq<WorkerResult>): string {
    SynthesisHead(w, task, |results|) + Reports(results) + w.synthesisTail
  }

  /** The synthesis prompt holds one `WORKER <id> - <expertise>` block per result, with
      that worker's answer. */
  lemma SynthesisHasEveryWorker(w: Wording, task: string, results: seq<WorkerResult>, i: nat)
    requires i < |results|
    ensures Contains(SynthesisPrompt(w, task, results), WorkerBlock(results[i]))
  {
    ReportsAreBlocks(results);
    ConcatContains(Blocks(results), i);
    ContainsWithin(SynthesisHead(w, task, |results|), Reports(results), w.synthesisTail, WorkerBlock(results[i]));
  }

  /** The dictionary `run_workflow` returns. */
  datatype WorkflowRecord = WorkflowRecord(originalTask: string, subtasks: seq<Subtask>, workerResults: seq<WorkerResult>, finalReport: string)

  /** `run_workflow`: breakdown, workers, synthesis; any exception ends the run. */
  function RunWorkflow(w: Wording, task: string, keys: Keys, plan: string -> Result<seq<Subtask>, string>, api: Api,
                       synthesize: string -> Result<string, string>): (r: Result<WorkflowRecord, string>)
    ensures r.Success? ==>
      plan(task).Success? && r.value.originalTask == task && r.value.subtasks == plan(task).value
      && ExecuteWorkerTasks(w, r.value.subtasks, MakeClients(keys), api) == Success(r.value.workerResults)
      && synthesize(SynthesisPrompt(w, task, r.value.workerResults)) == Success(r.value.finalReport)
    ensures plan(task).Failure? ==> r == Failure(plan(task).error)
  {
    match plan(task)
    case Failure(e) => Failure(e)
    case Success(subtasks) =>
      match ExecuteWorkerTasks(w, subtasks, MakeClients(keys), api)
      case Failure(e) => Failure(e)
      case Success(results) =>
        match synthesize(SynthesisPrompt(w, task, results))
        case Failure(e) => Failure(e)
        case Success(report) => Success(WorkflowRecord(task, subtasks, results, report))
  }

  /** A completed run keeps one worker record per subtask, in order, with the subtask's
      id, description and expertise. */
  lemma RunKeepsSubtaskOrder(w: Wording, task: string, keys: Keys, plan: string -> Result<seq<Subtask>, string>, api: Api,
                             synthesize: string -> Result<string, string>, i: nat)
    requires RunWorkflow(w, task, keys, plan, api, synthesize).Success?
    requires i < |RunWorkflow(w, task, keys, plan, api, synthesize).value.subtasks|
    ensures var rec := RunWorkflow(w, task, keys, plan, api, synthesize).value;
      |rec.workerResults| == |rec.subtasks|
      && rec.workerResults[i].subtaskId == rec.subtasks[i].id
      && rec.workerResults[i].description == rec.subtasks[i].description
      && rec.workerResults[i].expertise == rec.subtasks[i].expertise
      && Contains(SynthesisPrompt(w, task, rec.workerResults), WorkerBlock(rec.workerResults[i]))
  {
    var rec := RunWorkflow(w, task, keys, plan, api, synthesize).value;
    ExecuteRecordsEverySubtask(w, rec.subtasks, MakeClients(keys), api, i);
    SynthesisHasEveryWorker(w, task, rec.workerResults, i);
  }
}
