/** The parallel fan-out/fan-in of the judged-ranking script
    (`elchanio_wk1_lab2_llm_parallel_evaluation.py`, `call_single_model` and `call_models`).
    Every provider SDK call is an oracle; the thread pool is replaced by a sequential fold
    over an arbitrary completion order of the submitted calls. */
module FanIn {
  import opened Wrappers
  import opened Text
  import opened Dicts

  /** The client classes `call_single_model` dispatches on; `OtherClient` is anything else. */
  datatype ClientKind = OpenAIClient | AnthropicClient | BedrockClient | OtherClient

  /** `call_openai` / `call_anthropic` / `call_bedrock` for a client kind, model id and
      prompt: the answer text, or the message of the exception raised. */
  type ModelApi = (ClientKind, string, string) -> Result<string, string>

  /** Message of the `ValueError` raised for a client of no known kind. */
  function UnknownClientMessage(model: string): string {
    "❌ Unknown client type for model " + model
  }

  function NoClientError(provider: string): string {
    "Error: No client available for " + provider
  }

  /** `call_single_model`: never raises; any failure becomes the text `"Error: " + message`. */
  function CallSingleModel(provider: string, model: string, client: ClientKind, prompt: string, api: ModelApi): (r: (string, string))
    ensures r.0 == model
    ensures client != OtherClient && api(client, model, prompt).Success? ==> r.1 == api(client, model, prompt).value
    ensures client != OtherClient && api(client, model, prompt).Failure? ==> r.1 == "Error: " + api(client, model, prompt).error
    ensures client == OtherClient ==> r.1 == "Error: " + UnknownClientMessage(model)
  {
    var outcome := if client == OtherClient then Failure(UnknownClientMessage(model)) else api(client, model, prompt);
    match outcome
    case Success(text) => (model, text)
    case Failure(e) => (model, "Error: " + e)
  }

  /** A failed call is reported in-band: the response then begins with `"Error: "`. */
  lemma FailedCallIsErrorText(provider: string, model: string, client: ClientKind, prompt: string, api: ModelApi)
    requires client == OtherClient || api(client, model, prompt).Failure?
    ensures OccursAt(CallSingleModel(provider, model, client, prompt, api).1, "Error: ", 0)
  {
    var r := CallSingleModel(provider, model, client, prompt, api).1;
    assert r[..7] == "Error: ";
  }

  /** What `call_models` records for the `i`-th requested (provider, model) pair. */
  function Expected(clients: map<string, ClientKind>, request: (string, string), prompt: string, api: ModelApi): string {
    if request.0 in clients then CallSingleModel(request.0, request.1, clients[request.0], prompt, api).1
    else NoClientError(request.0)
  }

  /** `order` lists every index below `n` exactly once: the order in which the submitted
      calls complete (indices of requests without a client are skipped when folding). */
  predicate IsCompletionOrder(order: seq<nat>, n: nat) {
    |order| == n
    && (forall t :: 0 <= t < n ==> order[t] < n)
    && (forall i :: 0 <= i < n ==> i in order)
    && (forall a, b :: 0 <= a < b < n ==> order[a] != order[b])
  }

  function Range(n: nat): (r: seq<nat>)
    ensures |r| == n && forall t :: 0 <= t < n ==> r[t] == t
  {
    seq(n, t requires 0 <= t < n => t)
  }

  /** Completion in submission order is one possible order. */
  lemma SubmissionOrderIsCompletionOrder(n: nat)
    ensures IsCompletionOrder(Range(n), n)
  {
    forall i | 0 <= i < n ensures i in Range(n) {
      assert Range(n)[i] == i;
    }
  }

  /** What a loop stores for one (provider, model) request, if anything. */
  type Entry = ((string, string)) -> Option<string>

  /** Both loops of `call_models`: for each request index of `order` in turn, store the
      request's entry, when it has one, under its model id. */
  function StoreEach(d: Dict<string, string>, requests: seq<(string, string)>, order: seq<nat>, entry: Entry): (r: Dict<string, string>)
    requires forall t :: 0 <= t < |order| ==> order[t] < |requests|
    ensures DistinctKeys(d) ==> DistinctKeys(r)
    decreases |order|
  {
    if |order| == 0 then d
    else
      var p := requests[order[0]];
      var d' := if entry(p).Some? then Put(d, p.1, entry(p).value) else d;
      StoreEach(d', requests, order[1..], entry)
  }

  /** The model ids `StoreEach` stores under. */
  function StoredIds(requests: seq<(string, string)>, order: seq<nat>, entry: Entry): set<string>
    requires forall t :: 0 <= t < |order| ==> order[t] < |requests|
    decreases |order|
  {
    if |order| == 0 then {}
    else (if entry(requests[order[0]]).Some? then {requests[order[0]].1} else {}) + StoredIds(requests, order[1..], entry)
  }

  /** The loops add exactly the stored ids to the keys. */
  lemma {:induction false} StoreEachKeys(d: Dict<string, string>, requests: seq<(string, string)>, order: seq<nat>, entry: Entry)
    requires forall t :: 0 <= t < |order| ==> order[t] < |requests|
    ensures KeySet(StoreEach(d, requests, order, entry)) == KeySet(d) + StoredIds(requests, order, entry)
    decreases |order|
  {
    if |order| > 0 {
      var p := requests[order[0]];
      var d' := if entry(p).Some? then Put(d, p.1, entry(p).value) else d;
      StoreEachKeys(d', requests, order[1..], entry);
    }
  }

  /** The stored ids are exactly the model ids of the visited requests that have an entry. */
  lemma {:induction false} StoredIdsExactly(requests: seq<(string, string)>, order: seq<nat>, entry: Entry)
    requires forall t :: 0 <= t < |order| ==> order[t] < |requests|
    ensures StoredIds(requests, order, entry)
            == set t | 0 <= t < |order| && entry(requests[order[t]]).Some? :: requests[order[t]].1
    decreases |order|
  {
    if |order| > 0 {
      StoredIdsExactly(requests, order[1..], entry);
      var p := requests[order[0]];
      var rest := set t | 0 <= t < |order| - 1 && entry(requests[order[1..][t]]).Some? :: requests[order[1..][t]].1;
      var all := set t | 0 <= t < |order| && entry(requests[order[t]]).Some? :: requests[order[t]].1;
      forall x | x in all ensures x in rest + (if entry(p).Some? then {p.1} else {}) {
        var t :| 0 <= t < |order| && entry(requests[order[t]]).Some? && requests[order[t]].1 == x;
        if t > 0 { assert order[1..][t - 1] == order[t]; }
      }
      forall x | x in rest ensures x in all {
        var t :| 0 <= t < |order| - 1 && entry(requests[order[1..][t]]).Some? && requests[order[1..][t]].1 == x;
        assert order[t + 1] == order[1..][t];
      }
      assert all == rest + (if entry(p).Some? then {p.1} else {});
    }
  }

  predicate DistinctModels(requests: seq<(string, string)>) {
    forall i, j :: 0 <= i < j < |requests| ==> requests[i].1 != requests[j].1
  }

  lemma SameModelSameIndex(requests: seq<(string, string)>, i: nat, j: nat)
    requires DistinctModels(requests) && i < |requests| && j < |requests|
    ensures requests[i].1 == requests[j].1 <==> i == j
  {
    if i < j { assert requests[i].1 != requests[j].1; }
    else if j < i { assert requests[j].1 != requests[i].1; }
  }

  /** With distinct model ids and each index visited at most once, a request's model id
      ends up holding that request's own entry, when it has one and was visited. */
  lemma {:induction false} StoreEachGet(d: Dict<string, string>, requests: seq<(string, string)>, order: seq<nat>,
                                        entry: Entry, i: nat)
    requires forall t :: 0 <= t < |order| ==> order[t] < |requests|
    requires forall a, b :: 0 <= a < b < |order| ==> order[a] != order[b]
    requires DistinctKeys(d) && DistinctModels(requests) && i < |requests|
    ensures Get(StoreEach(d, requests, order, entry), requests[i].1) ==
      if i in order && entry(requests[i]).Some? then entry(requests[i]) else Get(d, requests[i].1)
    decreases |order|
  {
    if |order| > 0 {
      var p := requests[order[0]];
      var d' := if entry(p).Some? then Put(d, p.1, entry(p).value) else d;
      StoreEachGet(d', requests, order[1..], entry, i);
      if entry(p).Some? {
        GetPut(d, p.1, entry(p).value, requests[i].1);
        SameModelSameIndex(requests, i, order[0]);
      }
      if i == order[0] {
        assert i !in order[1..] by {
          forall t | 0 <= t < |order| - 1 ensures order[1..][t] != i {
            assert order[1..][t] == order[t + 1];
          }
        }
      } else {
        assert (i in order) == (i in order[1..]) by {
          if i in order {
            var t :| 0 <= t < |order| && order[t] == i;
            assert order[1..][t - 1] == i;
          }
        }
      }
    }
  }

  /** The submission loop's entry: the no-client error when the provider has no client. */
  function NoClientEntry(clients: map<string, ClientKind>, request: (string, string)): Option<string> {
    if request.0 in clients then None else Some(NoClientError(request.0))
  }

  /** The completion loop's entry: the call's response when the provider has a client. */
  function CompletedEntry(clients: map<string, ClientKind>, prompt: string, api: ModelApi, request: (string, string)): Option<string> {
    if request.0 in clients then Some(Expected(clients, request, prompt, api)) else None
  }

  /** The submission loop: every request without a client gets its error entry at once. */
  function MissingEntries(clients: map<string, ClientKind>, requests: seq<(string, string)>): (d: Dict<string, string>)
    ensures DistinctKeys(d)
  {
    StoreEach([], requests, Range(|requests|), p => NoClientEntry(clients, p))
  }

  /** The completion loop: each finished call stores its response under its model id. */
  function Completions(d: Dict<string, string>, clients: map<string, ClientKind>, requests: seq<(string, string)>,
                       order: seq<nat>, prompt: string, api: ModelApi): (r: Dict<string, string>)
    requires forall t :: 0 <= t < |order| ==> order[t] < |requests|
    ensures DistinctKeys(d) ==> DistinctKeys(r)
  {
    StoreEach(d, requests, order, p => CompletedEntry(clients, prompt, api, p))
  }

  /** `str(e)` of the `ValueError` a thread pool of no workers raises. */
  const NoWorkersError: string := "max_workers must be greater than 0"

  /** `call_models(clients, prompt, models)` with the calls completing in `order`:
      `requests` are the (provider, model) items of `models` in dict order. With no
      models the pool is created with `max_workers=0`, which raises; the error is
      re-raised. */
  function CallModels(clients: map<string, ClientKind>, requests: seq<(string, string)>, order: seq<nat>,
                      prompt: string, api: ModelApi): (responses: Result<Dict<string, string>, string>)
    requires IsCompletionOrder(order, |requests|)
    ensures responses.Failure? <==> |requests| == 0
    ensures responses.Failure? ==> responses.error == NoWorkersError
    ensures responses.Success? ==> DistinctKeys(responses.value)
  {
    if |requests| == 0 then Failure(NoWorkersError)
    else Success(Completions(MissingEntries(clients, requests), clients, requests, order, prompt, api))
  }

  function ModelIds(requests: seq<(string, string)>): set<string> {
    set i | 0 <= i < |requests| :: requests[i].1
  }

  /** Visiting the requests in submission order stores the ids of the requests with an entry. */
  lemma StoredInSubmissionOrder(requests: seq<(string, string)>, entry: Entry)
    ensures StoredIds(requests, Range(|requests|), entry) == set i | 0 <= i < |requests| && entry(requests[i]).Some? :: requests[i].1
  {
    var order := Range(|requests|);
    StoredIdsExactly(requests, order, entry);
    var stored := set t | 0 <= t < |order| && entry(requests[order[t]]).Some? :: requests[order[t]].1;
    var direct := set i | 0 <= i < |requests| && entry(requests[i]).Some? :: requests[i].1;
    forall x | x in stored ensures x in direct {
      var t :| 0 <= t < |order| && entry(requests[order[t]]).Some? && requests[order[t]].1 == x;
      assert order[t] == t;
    }
    forall x | x in direct ensures x in stored {
      var i :| 0 <= i < |requests| && entry(requests[i]).Some? && requests[i].1 == x;
      assert order[i] == i;
    }
  }

  /** The submission loop records exactly the model ids whose provider has no client. */
  lemma MissingEntriesKeys(clients: map<string, ClientKind>, requests: seq<(string, string)>)
    ensures KeySet(MissingEntries(clients, requests)) == set i | 0 <= i < |requests| && requests[i].0 !in clients :: requests[i].1
  {
    var entry: Entry := p => NoClientEntry(clients, p);
    var empty: Dict<string, string> := [];
    StoreEachKeys(empty, requests, Range(|requests|), entry);
    StoredInSubmissionOrder(requests, entry);
    assert KeySet(empty) == {};
    assert (set i | 0 <= i < |requests| && entry(requests[i]).Some? :: requests[i].1)
           == set i | 0 <= i < |requests| && requests[i].0 !in clients :: requests[i].1;
  }

  /** The completion loop adds exactly the model ids of the completed calls whose
      provider has a client. */
  lemma CompletionsKeys(d: Dict<string, string>, clients: map<string, ClientKind>, requests: seq<(string, string)>,
                        order: seq<nat>, prompt: string, api: ModelApi)
    requires forall t :: 0 <= t < |order| ==> order[t] < |requests|
    ensures KeySet(Completions(d, clients, requests, order, prompt, api))
            == KeySet(d) + set t | 0 <= t < |order| && requests[order[t]].0 in clients :: requests[order[t]].1
  {
    var entry: Entry := p => CompletedEntry(clients, prompt, api, p);
    StoreEachKeys(d, requests, order, entry);
    StoredIdsExactly(requests, order, entry);
    var stored := set t | 0 <= t < |order| && entry(requests[order[t]]).Some? :: requests[order[t]].1;
    var completed := set t | 0 <= t < |order| && requests[order[t]].0 in clients :: requests[order[t]].1;
    assert stored == completed;
  }

  /** Whatever the completion order, the responses hold exactly one entry per requested model id. */
  lemma CallModelsKeys(clients: map<string, ClientKind>, requests: seq<(string, string)>, order: seq<nat>,
                       prompt: string, api: ModelApi)
    requires IsCompletionOrder(order, |requests|)
    ensures CallModels(clients, requests, order, prompt, api).Success? ==>
      KeySet(CallModels(clients, requests, order, prompt, api).value) == ModelIds(requests)
  {
    if |requests| == 0 {
      return;
    }
    var r := CallModels(clients, requests, order, prompt, api).value;
    MissingEntriesKeys(clients, requests);
    CompletionsKeys(MissingEntries(clients, requests), clients, requests, order, prompt, api);
    forall x | x in ModelIds(requests) ensures x in KeySet(r) {
      var i :| 0 <= i < |requests| && requests[i].1 == x;
      if requests[i].0 in clients {
        assert i in order;
        var t :| 0 <= t < |order| && order[t] == i;
        assert requests[order[t]].1 == x;
      }
    }
  }

  /** A model without a client maps to its no-client error; the others have no entry yet. */
  lemma MissingEntriesGet(clients: map<string, ClientKind>, requests: seq<(string, string)>, i: nat)
    requires i < |requests| && DistinctModels(requests)
    ensures Get(MissingEntries(clients, requests), requests[i].1) ==
      if requests[i].0 !in clients then Some(NoClientError(requests[i].0)) else None
  {
    var order := Range(|requests|);
    StoreEachGet([], requests, order, p => NoClientEntry(clients, p), i);
    assert order[i] == i;
    var empty: Dict<string, string> := [];
    assert requests[i].1 !in KeySet(empty);
  }

  /** A completed call stores its own response under its model id; any other entry is unchanged. */
  lemma CompletionsGet(d: Dict<string, string>, clients: map<string, ClientKind>, requests: seq<(string, string)>,
                       order: seq<nat>, prompt: string, api: ModelApi, i: nat)
    requires forall t :: 0 <= t < |order| ==> order[t] < |requests|
    requires forall a, b :: 0 <= a < b < |order| ==> order[a] != order[b]
    requires DistinctKeys(d) && DistinctModels(requests) && i < |requests|
    ensures Get(Completions(d, clients, requests, order, prompt, api), requests[i].1) ==
      if i in order && requests[i].0 in clients then Some(Expected(clients, requests[i], prompt, api))
      else Get(d, requests[i].1)
  {
    StoreEachGet(d, requests, order, p => CompletedEntry(clients, prompt, api, p), i);
  }

  /** When the requested model ids are distinct, the response stored for each request is
      its own call's outcome, or the no-client error; so the result does not depend on the
      order in which the calls complete. */
  lemma CallModelsResponse(clients: map<string, ClientKind>, requests: seq<(string, string)>, order: seq<nat>,
                           prompt: string, api: ModelApi, i: nat)
    requires IsCompletionOrder(order, |requests|) && DistinctModels(requests) && i < |requests|
    ensures CallModels(clients, requests, order, prompt, api).Success?
    ensures Get(CallModels(clients, requests, order, prompt, api).value, requests[i].1) == Some(Expected(clients, requests[i], prompt, api))
  {
    MissingEntriesGet(clients, requests, i);
    CompletionsGet(MissingEntries(clients, requests), clients, requests, order, prompt, api, i);
  }

  /** Two completion orders give responses that agree on every model id. */
  lemma CallModelsOrderIndependent(clients: map<string, ClientKind>, requests: seq<(string, string)>,
                                   order1: seq<nat>, order2: seq<nat>, prompt: string, api: ModelApi, m: string)
    requires IsCompletionOrder(order1, |requests|) && IsCompletionOrder(order2, |requests|)
    requires DistinctModels(requests)
    ensures CallModels(clients, requests, order1, prompt, api).Success? == CallModels(clients, requests, order2, prompt, api).Success?
    ensures CallModels(clients, requests, order1, prompt, api).Success? ==>
      Get(CallModels(clients, requests, order1, prompt, api).value, m) == Get(CallModels(clients, requests, order2, prompt, api).value, m)
  {
    if |requests| == 0 {
      return;
    }
    CallModelsKeys(clients, requests, order1, prompt, api);
    CallModelsKeys(clients, requests, order2, prompt, api);
    if m in ModelIds(requests) {
      var i :| 0 <= i < |requests| && requests[i].1 == m;
      CallModelsResponse(clients, requests, order1, prompt, api, i);
      CallModelsResponse(clients, requests, order2, prompt, api, i);
    }
  }
}
