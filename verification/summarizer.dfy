/** The transcript summarisation workflow (`transcript_summarizer/src/core/summarizer.py`):
    four nodes run in a fixed line — parse the input, chunk it, summarise the chunks,
    write the final summary — each passing the state on untouched once an error is set.
    The chunker, the batch model call and the single model call are oracles; the
    chunker's own behaviour is modelled in `Chunker`. */
module Summarizer {
  import opened Wrappers
  import opened Text
  import Chunker
  import VttParser

  /** The configuration the workflow reads: chunk size, chunk overlap and temperature. */
  datatype Settings = Settings(chunkSize: int, chunkOverlap: int, temperature: real)

  /** `chunk_by_sentences` of a chunker built from a configuration; `Failure` is the
      message of an exception it raises. */
  type Chunking = (Chunker.Config, string) -> Result<seq<Chunker.Chunk>, string>

  /** `generate_multiple_async` at a temperature: one response per prompt, or an exception. */
  type BatchModel = (seq<string>, real) -> Result<seq<string>, string>

  /** `generate_sync` at a temperature. */
  type Model = (string, real) -> Result<string, string>

  /** The entries of `processing_stats` that the result is built from. */
  datatype ProcessingStats = ProcessingStats(
    originalLength: nat,
    chunksCreated: Option<nat>,
    chunksSummarized: Option<nat>,
    finalSummaryLength: Option<nat>)

  /** `SummarizationState` */
  datatype State = State(
    originalText: string,
    chunks: Option<seq<Chunker.Chunk>>,
    chunkSummaries: Option<seq<string>>,
    finalSummary: string,
    stats: Option<ProcessingStats>,
    error: Option<string>,
    debugConfig: bool)

  /** The state `summarize_text` starts the workflow from; `debug_config` is `None`
      (`debugConfig` false) until `parse_input` fills it. */
  function InitialState(text: string): State {
    State(text, None, None, "", None, None, false)
  }

  const EmptyInputError: string := "Empty input text"

  /** `str(e)` of the `AttributeError` raised by `None.get(...)`. */
  const NoneGetError: string := "'NoneType' object has no attribute 'get'"

  /** `processing_stats` as a node reads it: `state.get("processing_stats", {})`. */
  function CurrentStats(s: State): ProcessingStats {
    s.stats.GetOr(ProcessingStats(0, None, None, None))
  }

  // ---------------------------------------------------------------------------
  // Prompts
  // ---------------------------------------------------------------------------

  /** The fixed text of the two prompts, in the pieces around the inserted values.
      `SourceWording` is the service's text; no property depends on the wording. */
  datatype Wording = Wording(chunkHead: string, chunkBody: string, chunkTail: string, finalHead: string, finalTail: string)

  const SourceWording: Wording := Wording(
    "You are an expert at summarizing transcript content. Please provide a concise but comprehensive summary of the following transcript segment.\n\n",
    "\n\nKey requirements:\n- Capture the main topics and key points discussed\n- Preserve important details, names, and specific information\n- Keep the summary focused and well-structured\n- Maintain the chronological flow of information\n- Use clear, professional language\n\nTranscript segment:\n",
    "\n\nSummary:",
    "You are an expert at creating comprehensive summaries from multiple related text segments. Below are summaries of different parts of a transcript. Please create a final, cohesive summary that:\n\n1. Integrates all the key information from the segments\n2. Maintains logical flow and structure\n3. Eliminates redundancy while preserving important details\n4. Provides a clear overview of the main topics and conclusions\n5. Uses professional, clear language\n6. Organizes information in a helpful way for the reader\n\nSegment summaries:\n",
    "\n\nPlease provide a comprehensive final summary:")

  /** The sentence announcing a chunk's place in the transcript. */
  function ChunkAnnouncement(num: nat, total: nat): string {
    "This is chunk " + NatToString(num) + " of " + NatToString(total) + " from a larger transcript."
  }

  /** Both inner pieces of a five-part concatenation occur in it. */
  lemma OccursBothInMiddle(a: string, x: string, b: string, y: string, c: string)
    ensures Contains(a + x + b + y + c, x) && Contains(a + x + b + y + c, y)
  {
    OccursInMiddle(a, x, b + y + c);
    assert a + x + (b + y + c) == a + x + b + y + c;
    OccursInMiddle(a + x + b, y, c);
  }

  /** `_create_chunk_summary_prompt` */
  function ChunkPrompt(w: Wording, chunkText: string, num: nat, total: nat): (p: string)
    ensures Contains(p, ChunkAnnouncement(num, total))
    ensures Contains(p, chunkText)
  {
    OccursBothInMiddle(w.chunkHead, ChunkAnnouncement(num, total), w.chunkBody, chunkText, w.chunkTail);
    w.chunkHead + ChunkAnnouncement(num, total) + w.chunkBody + chunkText + w.chunkTail
  }

  /** `_create_final_summary_prompt` */
  function FinalPrompt(w: Wording, combined: string): (p: string)
    ensures Contains(p, combined)
  {
    OccursInMiddle(w.finalHead, combined, w.finalTail);
    w.finalHead + combined + w.finalTail
  }

  /** The prompts of `summarize_chunks`, one per chunk, numbered from 1. */
  function ChunkPrompts(w: Wording, chunks: seq<Chunker.Chunk>): (ps: seq<string>)
    ensures |ps| == |chunks|
    ensures forall i :: 0 <= i < |chunks| ==>
      Contains(ps[i], ChunkAnnouncement(i + 1, |chunks|)) && Contains(ps[i], chunks[i].content)
  {
    seq(|chunks|, i requires 0 <= i < |chunks| => ChunkPrompt(w, chunks[i].content, i + 1, |chunks|))
  }

  // ---------------------------------------------------------------------------
  // The four nodes
  // ---------------------------------------------------------------------------

  /** `parse_input`: blank text sets the error and leaves `debug_config` as it was;
      otherwise the statistics start with the text's length and `debug_config` is filled. */
  function ParseInput(s: State): (r: State)
    ensures IsBlank(s.originalText) ==> r == s.(error := Some(EmptyInputError))
    ensures !IsBlank(s.originalText) ==>
      r == s.(stats := Some(ProcessingStats(|s.originalText|, None, None, None)), debugConfig := true)
  {
    if Strip(s.originalText) == "" then s.(error := Some(EmptyInputError))
    else s.(stats := Some(ProcessingStats(|s.originalText|, None, None, None)), debugConfig := true)
  }

  /** `chunk_text`, as written: its first log line calls `debug_config.get`, before the
      error check, so a state whose `debug_config` is still `None` raises
      `AttributeError`; otherwise the node goes on as `ChunkNodeFixed`. */
  function ChunkNode(s: State, settings: Settings, chunking: Chunking): (r: Result<State, string>)
    ensures !s.debugConfig ==> r == Failure(NoneGetError)
    ensures s.debugConfig ==> r.Success? && r.value.debugConfig
    ensures s.debugConfig && s.error.Some? ==> r == Success(s)
    ensures s.debugConfig && s.error.None? && chunking(Chunker.Config(settings.chunkSize, settings.chunkOverlap), s.originalText).Success? ==>
      r.value.error.None? && r.value.chunks == Some(chunking(Chunker.Config(settings.chunkSize, settings.chunkOverlap), s.originalText).value)
  {
    if !s.debugConfig then Failure(NoneGetError) else Success(ChunkNodeFixed(s, settings, chunking))
  }

  /** `chunk_text` from its error check on (:163-194): what the node does once its log
      line reads `debug_config` safely. */
  function ChunkNodeFixed(s: State, settings: Settings, chunking: Chunking): (r: State)
    ensures s.error.Some? ==> r == s
    ensures r.debugConfig == s.debugConfig
    ensures s.error.None? && chunking(Chunker.Config(settings.chunkSize, settings.chunkOverlap), s.originalText).Success? ==>
      r.error.None? && r.chunks == Some(chunking(Chunker.Config(settings.chunkSize, settings.chunkOverlap), s.originalText).value)
    ensures s.error.None? && chunking(Chunker.Config(settings.chunkSize, settings.chunkOverlap), s.originalText).Failure? ==>
      r.error == Some("Error chunking text: " + chunking(Chunker.Config(settings.chunkSize, settings.chunkOverlap), s.originalText).error)
  {
    if s.error.Some? then s
    else
      match chunking(Chunker.Config(settings.chunkSize, settings.chunkOverlap), s.originalText)
      case Failure(e) => s.(error := Some("Error chunking text: " + e))
      case Success(chunks) =>
        s.(chunks := Some(chunks), stats := Some(CurrentStats(s).(chunksCreated := Some(|chunks|))))
  }

  /** `summarize_chunks` (its log line reads `debug_config` too, but the node is only
      reached after `chunk_text` has read it): nothing to do without chunks; a single chunk is its own summary
      and no model is asked; otherwise every chunk's prompt goes to the model in one batch. */
  function SummarizeNode(w: Wording, s: State, settings: Settings, batch: BatchModel): (r: State)
    ensures s.error.Some? || s.chunks.None? || s.chunks == Some([]) ==> r == s
    ensures s.error.None? && s.chunks.Some? && |s.chunks.value| == 1 ==>
      r == s.(chunkSummaries := Some([s.chunks.value[0].content]))
    ensures s.error.None? && s.chunks.Some? && |s.chunks.value| > 1
            && batch(ChunkPrompts(w, s.chunks.value), settings.temperature).Success? ==>
      var rs := batch(ChunkPrompts(w, s.chunks.value), settings.temperature).value;
      r.error.None? && r.chunkSummaries.Some? && |r.chunkSummaries.value| == |rs|
      && (forall i :: 0 <= i < |rs| ==> r.chunkSummaries.value[i] == Strip(rs[i]))
      && r.stats.Some? && r.stats.value.chunksSummarized == Some(|rs|)
    ensures s.error.None? && s.chunks.Some? && |s.chunks.value| > 1
            && batch(ChunkPrompts(w, s.chunks.value), settings.temperature).Failure? ==>
      r.error == Some("Error summarizing chunks: " + batch(ChunkPrompts(w, s.chunks.value), settings.temperature).error)
  {
    if s.error.Some? || s.chunks.None? || |s.chunks.value| == 0 then s
    else if |s.chunks.value| == 1 then s.(chunkSummaries := Some([s.chunks.value[0].content]))
    else
      match batch(ChunkPrompts(w, s.chunks.value), settings.temperature)
      case Failure(e) => s.(error := Some("Error summarizing chunks: " + e))
      case Success(responses) =>
        var summaries := seq(|responses|, i requires 0 <= i < |responses| => Strip(responses[i]));
        s.(chunkSummaries := Some(summaries),
           stats := Some(CurrentStats(s).(chunksSummarized := Some(|responses|))))
  }

  /** `create_final_summary`: the chunk summaries, joined by blank lines, go into one
      final prompt; the stripped answer is the summary. */
  function FinalNode(w: Wording, s: State, settings: Settings, model: Model): (r: State)
    ensures s.error.Some? || s.chunkSummaries.None? || s.chunkSummaries == Some([]) ==> r == s
    ensures s.error.None? && s.chunkSummaries.Some? && s.chunkSummaries.value != []
            && model(FinalPrompt(w, Join("\n\n", s.chunkSummaries.value)), settings.temperature).Success? ==>
      var answer := Strip(model(FinalPrompt(w, Join("\n\n", s.chunkSummaries.value)), settings.temperature).value);
      r.error.None? && r.finalSummary == answer
      && r.stats.Some? && r.stats.value.finalSummaryLength == Some(|answer|)
    ensures s.error.None? && s.chunkSummaries.Some? && s.chunkSummaries.value != []
            && model(FinalPrompt(w, Join("\n\n", s.chunkSummaries.value)), settings.temperature).Failure? ==>
      r.error == Some("Error creating final summary: " + model(FinalPrompt(w, Join("\n\n", s.chunkSummaries.value)), settings.temperature).error)
  {
    if s.error.Some? || s.chunkSummaries.None? || |s.chunkSummaries.value| == 0 then s
    else
      match model(FinalPrompt(w, Join("\n\n", s.chunkSummaries.value)), settings.temperature)
      case Failure(e) => s.(error := Some("Error creating final summary: " + e))
      case Success(content) =>
        var summary := Strip(content);
        s.(finalSummary := summary, stats := Some(CurrentStats(s).(finalSummaryLength := Some(|summary|))))
  }

  /** The compiled graph: START → parse_input → chunk_text → summarize_chunks →
      create_final_summary → END; `Failure` is the exception that escapes `ainvoke`. */
  function Workflow(w: Wording, text: string, settings: Settings, chunking: Chunking, batch: BatchModel, model: Model): (r: Result<State, string>)
    ensures !IsBlank(text) ==> r.Success?
  {
    match ChunkNode(ParseInput(InitialState(text)), settings, chunking)
    case Failure(e) => Failure(e)
    case Success(s) => Success(FinalNode(w, SummarizeNode(w, s, settings, batch), settings, model))
  }

  /** The graph with every node reading `debug_config` safely: `summarize_chunks` and
      `create_final_summary` also log `debug_config.get` before their error check, so a
      fix to `chunk_text` alone would still raise on blank text. */
  function WorkflowFixed(w: Wording, text: string, settings: Settings, chunking: Chunking, batch: BatchModel, model: Model): State {
    FinalNode(w, SummarizeNode(w, ChunkNodeFixed(ParseInput(InitialState(text)), settings, chunking), settings, batch), settings, model)
  }

  /** Where nothing raises, the graph as written and the fixed one agree. */
  lemma WorkflowsAgreeOnSuccess(w: Wording, text: string, settings: Settings, chunking: Chunking, batch: BatchModel, model: Model)
    ensures Workflow(w, text, settings, chunking, batch, model).Success? ==>
      Workflow(w, text, settings, chunking, batch, model).value == WorkflowFixed(w, text, settings, chunking, batch, model)
    ensures Workflow(w, text, settings, chunking, batch, model).Failure? <==> IsBlank(text)
  {
  }

  /** Once the error is set every later node passes the state through, so the first
      error is the one reported, provided `debug_config` was filled; if it was not,
      `chunk_text` raises. */
  lemma ErrorIsSticky(w: Wording, s: State, settings: Settings, chunking: Chunking, batch: BatchModel, model: Model)
    requires s.error.Some?
    ensures s.debugConfig ==> ChunkNode(s, settings, chunking) == Success(s)
    ensures s.debugConfig ==> FinalNode(w, SummarizeNode(w, s, settings, batch), settings, model) == s
    ensures !s.debugConfig ==> ChunkNode(s, settings, chunking) == Failure(NoneGetError)
  {
  }

  /** With the fixed node the error is sticky whatever `debug_config` holds. */
  lemma ErrorIsStickyFixed(w: Wording, s: State, settings: Settings, chunking: Chunking, batch: BatchModel, model: Model)
    requires s.error.Some?
    ensures FinalNode(w, SummarizeNode(w, ChunkNodeFixed(s, settings, chunking), settings, batch), settings, model) == s
  {
  }

  /** The later nodes' errors all start with "Error", so only blank text can end with
      the empty-input error. */
  lemma OnlyBlankTextReportsEmptyInput(w: Wording, text: string, settings: Settings, chunking: Chunking, batch: BatchModel, model: Model)
    requires !IsBlank(text)
    ensures WorkflowFixed(w, text, settings, chunking, batch, model).error != Some(EmptyInputError)
  {
    var s0 := ParseInput(InitialState(text));
    var s1 := ChunkNodeFixed(s0, settings, chunking);
    var s2 := SummarizeNode(w, s1, settings, batch);
    ChunkNodeErrorIsNodeError(s0, settings, chunking);
    SummarizeNodeErrorIsNodeError(w, s1, settings, batch);
    FinalNodeErrorIsNodeError(w, s2, settings, model);
    assert EmptyInputError[1] == 'm';
  }

  /** The error, if any, is one of the nodes' `"Error ..."` messages. */
  predicate NodeError(s: State) {
    s.error.None? || (|s.error.value| > 1 && s.error.value[1] == 'r')
  }

  lemma ChunkNodeErrorIsNodeError(s: State, settings: Settings, chunking: Chunking)
    requires NodeError(s)
    ensures NodeError(ChunkNodeFixed(s, settings, chunking))
  {
  }

  lemma SummarizeNodeErrorIsNodeError(w: Wording, s: State, settings: Settings, batch: BatchModel)
    requires NodeError(s)
    ensures NodeError(SummarizeNode(w, s, settings, batch))
  {
  }

  lemma FinalNodeErrorIsNodeError(w: Wording, s: State, settings: Settings, model: Model)
    requires NodeError(s)
    ensures NodeError(FinalNode(w, s, settings, model))
  {
  }

  /** As written, blank text never reaches the empty-input result: `parse_input` sets the
      error but leaves `debug_config` `None`, and `chunk_text` raises on it. */
  lemma BlankTextRaises(w: Wording, text: string, settings: Settings, chunking: Chunking, batch: BatchModel, model: Model)
    requires IsBlank(text)
    ensures Workflow(w, text, settings, chunking, batch, model) == Failure(NoneGetError)
  {
  }

  /** With the fix, blank text stops at the first node with the empty-input error;
      nothing is chunked and no model is asked. */
  lemma BlankTextFails(w: Wording, text: string, settings: Settings, chunking: Chunking, batch: BatchModel, model: Model)
    requires IsBlank(text)
    ensures WorkflowFixed(w, text, settings, chunking, batch, model) == InitialState(text).(error := Some(EmptyInputError))
  {
    ErrorIsStickyFixed(w, InitialState(text).(error := Some(EmptyInputError)), settings, chunking, batch, model);
  }

  /** With a single chunk the batch model is never consulted: any two batch models give
      the same outcome, whose chunk summary is the chunk's own text. */
  lemma SingleChunkSkipsBatch(w: Wording, s: State, settings: Settings, batch1: BatchModel, batch2: BatchModel)
    requires s.error.None? && s.chunks.Some? && |s.chunks.value| == 1
    ensures SummarizeNode(w, s, settings, batch1) == SummarizeNode(w, s, settings, batch2)
    ensures SummarizeNode(w, s, settings, batch1).chunkSummaries == Some([s.chunks.value[0].content])
  {
  }

  // ---------------------------------------------------------------------------
  // `summarize_text`
  // ---------------------------------------------------------------------------

  /** `SummarizationResult` without the float fields (time and compression ratio). */
  datatype Summary = Summary(summary: string, originalLength: nat, summaryLength: nat, chunksProcessed: nat, error: Option<string>)

  /** The configuration after `summarize_text`'s optional overrides: when any is given,
      `update_config` receives each given value and the current value of each absent one;
      when none is given the configuration is left alone. */
  function ApplyOverrides(cfg: Settings, chunkSize: Option<int>, chunkOverlap: Option<int>, temperature: Option<real>): (r: Settings)
    ensures r.chunkSize == chunkSize.GetOr(cfg.chunkSize)
    ensures r.chunkOverlap == chunkOverlap.GetOr(cfg.chunkOverlap)
    ensures r.temperature == temperature.GetOr(cfg.temperature)
  {
    if chunkSize.Some? || chunkOverlap.Some? || temperature.Some? then
      Settings(chunkSize.GetOr(cfg.chunkSize), chunkOverlap.GetOr(cfg.chunkOverlap), temperature.GetOr(cfg.temperature))
    else cfg
  }

  /** Overrides stick: applying the same ones again changes nothing, and applying none
      keeps the configuration. */
  lemma OverridesIdempotent(cfg: Settings, chunkSize: Option<int>, chunkOverlap: Option<int>, temperature: Option<real>)
    ensures var once := ApplyOverrides(cfg, chunkSize, chunkOverlap, temperature);
      ApplyOverrides(once, chunkSize, chunkOverlap, temperature) == once
    ensures ApplyOverrides(cfg, None, None, None) == cfg
  {
  }

  /** The result record built from the final state. */
  function ResultOf(text: string, st: State): (r: Summary)
    ensures st.error.Some? ==> r == Summary("", |text|, 0, 0, st.error)
    ensures st.error.None? ==> r.error.None? && r.summary == st.finalSummary
    ensures st.error.None? ==> r.chunksProcessed == CurrentStats(st).chunksSummarized.GetOr(0)
  {
    if st.error.Some? then Summary("", |text|, 0, 0, st.error)
    else
      var stats := CurrentStats(st);
      Summary(st.finalSummary, stats.originalLength, stats.finalSummaryLength.GetOr(0), stats.chunksSummarized.GetOr(0), None)
  }

  /** `summarize_text`: the configuration after the overrides (applied before the
      workflow runs), and the result, or the exception the workflow raised. */
  function SummarizeText(w: Wording, cfg: Settings, text: string, chunkSize: Option<int>, chunkOverlap: Option<int>, temperature: Option<real>,
                         chunking: Chunking, batch: BatchModel, model: Model): (out: (Settings, Result<Summary, string>))
    ensures out.0 == ApplyOverrides(cfg, chunkSize, chunkOverlap, temperature)
    ensures IsBlank(text) ==> out.1 == Failure(NoneGetError)
    ensures !IsBlank(text) ==> out.1.Success?
  {
    var settings := ApplyOverrides(cfg, chunkSize, chunkOverlap, temperature);
    match Workflow(w, text, settings, chunking, batch, model)
    case Failure(e) => (settings, Failure(e))
    case Success(st) => (settings, Success(ResultOf(text, st)))
  }

  /** A run that returns reports the length of the text it was given. */
  lemma SuccessReportsOriginalLength(w: Wording, cfg: Settings, text: string, chunkSize: Option<int>, chunkOverlap: Option<int>,
                                     temperature: Option<real>, chunking: Chunking, batch: BatchModel, model: Model)
    ensures var r := SummarizeText(w, cfg, text, chunkSize, chunkOverlap, temperature, chunking, batch, model).1;
      r.Success? ==> r.value.originalLength == |text|
  {
  }

  /** When the chunker finds no sentences (a text of punctuation only, say) the run ends
      with no error and an empty summary: the later nodes have nothing to work on. */
  lemma NoChunksGivesEmptySummary(w: Wording, cfg: Settings, text: string, chunking: Chunking, batch: BatchModel, model: Model)
    requires !IsBlank(text)
    requires chunking(Chunker.Config(cfg.chunkSize, cfg.chunkOverlap), text) == Success([])
    ensures SummarizeText(w, cfg, text, None, None, None, chunking, batch, model).1 == Success(Summary("", |text|, 0, 0, None))
  {
  }

  /** As written, `chunks_processed` is read from `chunks_summarized`, which the
      single-chunk path never sets: a run that summarised its one chunk reports that
      no chunk was processed. */
  lemma SingleChunkReportsNoneProcessed(w: Wording, cfg: Settings, text: string, chunk: Chunker.Chunk,
                                        chunking: Chunking, batch: BatchModel, model: Model)
    requires !IsBlank(text)
    requires chunking(Chunker.Config(cfg.chunkSize, cfg.chunkOverlap), text) == Success([chunk])
    requires model(FinalPrompt(w, chunk.content), cfg.temperature).Success?
    ensures var r := SummarizeText(w, cfg, text, None, None, None, chunking, batch, model).1;
      r.Success? && r.value.error.None? && r.value.chunksProcessed == 0
  {
    var s1 := ChunkNodeFixed(ParseInput(InitialState(text)), cfg, chunking);
    var s2 := SummarizeNode(w, s1, cfg, batch);
    assert s2.chunkSummaries == Some([chunk.content]);
    assert Join("\n\n", [chunk.content]) == chunk.content;
  }

  /** The result record with `chunks_processed` counting the chunk summaries the run
      produced, whichever path produced them. */
  function ResultOfFixed(text: string, st: State): (r: Summary)
    ensures st.error.Some? ==> r == Summary("", |text|, 0, 0, st.error)
    ensures st.error.None? ==> r.error.None? && r.summary == st.finalSummary
    ensures st.error.None? && st.chunkSummaries.Some? ==> r.chunksProcessed == |st.chunkSummaries.value|
  {
    if st.error.Some? then Summary("", |text|, 0, 0, st.error)
    else
      var stats := CurrentStats(st);
      var processed := if st.chunkSummaries.Some? then |st.chunkSummaries.value| else 0;
      Summary(st.finalSummary, stats.originalLength, stats.finalSummaryLength.GetOr(0), processed, None)
  }

  /** `summarize_text` with both fixes: every node reads `debug_config` safely and the
      processed count comes from the chunk summaries. */
  function SummarizeTextFixed(w: Wording, cfg: Settings, text: string, chunkSize: Option<int>, chunkOverlap: Option<int>, temperature: Option<real>,
                              chunking: Chunking, batch: BatchModel, model: Model): (out: (Settings, Summary))
    ensures out.0 == ApplyOverrides(cfg, chunkSize, chunkOverlap, temperature)
    ensures IsBlank(text) ==> out.1 == Summary("", |text|, 0, 0, Some(EmptyInputError))
  {
    var settings := ApplyOverrides(cfg, chunkSize, chunkOverlap, temperature);
    (settings, ResultOfFixed(text, WorkflowFixed(w, text, settings, chunking, batch, model)))
  }

  /** With the fix, a successful run over `n` chunks reports `n` processed, for a single
      chunk as for many (when the batch answers once per prompt). */
  lemma FixedReportsEveryChunk(w: Wording, cfg: Settings, text: string, chunks: seq<Chunker.Chunk>,
                               chunking: Chunking, batch: BatchModel, model: Model)
    requires !IsBlank(text) && |chunks| > 0
    requires chunking(Chunker.Config(cfg.chunkSize, cfg.chunkOverlap), text) == Success(chunks)
    requires |chunks| > 1 ==> batch(ChunkPrompts(w, chunks), cfg.temperature).Success?
                              && |batch(ChunkPrompts(w, chunks), cfg.temperature).value| == |chunks|
    ensures var r := SummarizeTextFixed(w, cfg, text, None, None, None, chunking, batch, model).1;
      r.error.None? ==> r.chunksProcessed == |chunks|
  {
    var s1 := ChunkNodeFixed(ParseInput(InitialState(text)), cfg, chunking);
    var s2 := SummarizeNode(w, s1, cfg, batch);
    assert s2.chunkSummaries.Some? && |s2.chunkSummaries.value| == |chunks|;
  }

  // ---------------------------------------------------------------------------
  // VTT entry points
  // ---------------------------------------------------------------------------

  /** What `summarize_vtt_content` returns when `summarize_text` raised: the message in
      an otherwise empty result. */
  function Caught(r: Result<Summary, string>): (s: Summary)
    ensures r.Failure? ==> s == Summary("", 0, 0, 0, Some(r.error))
    ensures r.Success? ==> s == r.value
  {
    match r
    case Failure(e) => Summary("", 0, 0, 0, Some(e))
    case Success(v) => v
  }

  /** `summarize_vtt_content`, as written: the summariser's one shared parser parses the
      content, then its full transcript is summarised with the caller's overrides; any
      exception becomes an error result with zero lengths. The parser afterwards is
      returned with the settings, since both persist across calls. Blank content leaves
      the parser as it was, so the transcript summarised is the one an earlier call parsed. */
  function SummarizeVttContent(w: Wording, cfg: Settings, parser: VttParser.Parser, content: string, read: VttParser.Reader,
                               chunkSize: Option<int>, chunkOverlap: Option<int>, temperature: Option<real>,
                               chunking: Chunking, batch: BatchModel, model: Model): (out: (Settings, Summary, VttParser.Parser))
    ensures read(content).Failure? && !IsBlank(content) ==> out == (cfg, Summary("", 0, 0, 0, Some(
      "Error parsing VTT content: " + ("Error parsing VTT file: " + read(content).error))), parser)
    ensures IsBlank(content) || read(content).Success? ==> out.0 == ApplyOverrides(cfg, chunkSize, chunkOverlap, temperature)
    ensures IsBlank(content) ==> out.2 == parser
    ensures !IsBlank(content) && read(content).Success? ==> out.2 == VttParser.Parser(VttParser.KeepCaptions(read(content).value))
    ensures IsBlank(content) || read(content).Success? ==>
      (IsBlank(VttParser.FullTranscript(out.2)) <==> out.1 == Summary("", 0, 0, 0, Some(NoneGetError)))
    ensures IsBlank(content) || read(content).Success? ==>
      !IsBlank(VttParser.FullTranscript(out.2)) ==> out.1.originalLength == |VttParser.FullTranscript(out.2)|
  {
    var parsed := VttParser.ParseContent(parser, content, read);
    match parsed.result
    case Failure(e) => (cfg, Summary("", 0, 0, 0, Some(e)), parsed.parser)
    case Success(_) =>
      var text := VttParser.FullTranscript(parsed.parser);
      var (settings, result) := SummarizeText(w, cfg, text, chunkSize, chunkOverlap, temperature, chunking, batch, model);
      SuccessReportsOriginalLength(w, cfg, text, chunkSize, chunkOverlap, temperature, chunking, batch, model);
      (settings, Caught(result), parsed.parser)
  }

  /** Content that is not blank is summarised on its own: the settings and the result
      do not depend on what the shared parser held before. */
  lemma VttContentIgnoresEarlierParse(w: Wording, cfg: Settings, p1: VttParser.Parser, p2: VttParser.Parser, content: string,
                                      read: VttParser.Reader, chunkSize: Option<int>, chunkOverlap: Option<int>, temperature: Option<real>,
                                      chunking: Chunking, batch: BatchModel, model: Model)
    requires !IsBlank(content)
    ensures var o1 := SummarizeVttContent(w, cfg, p1, content, read, chunkSize, chunkOverlap, temperature, chunking, batch, model);
      var o2 := SummarizeVttContent(w, cfg, p2, content, read, chunkSize, chunkOverlap, temperature, chunking, batch, model);
      o1.0 == o2.0 && o1.1 == o2.1
  {
  }

  /** As written, blank content after a parse that produced "Hello" summarises "Hello"
      again instead of reporting empty input. */
  lemma BlankContentSummarisesStaleTranscript(w: Wording, cfg: Settings, read: VttParser.Reader,
                                              chunking: Chunking, batch: BatchModel, model: Model)
    ensures var p := VttParser.Parser([VttParser.Segment("00:00:00.000", "00:00:03.000", "Hello")]);
      var out := SummarizeVttContent(w, cfg, p, "", read, None, None, None, chunking, batch, model);
      out.1.originalLength == 5 && out.1.error != Some(EmptyInputError)
  {
    var p := VttParser.Parser([VttParser.Segment("00:00:00.000", "00:00:03.000", "Hello")]);
    VttParser.BlankContentKeepsStaleTranscript(read);
    assert !IsBlank("Hello") by { assert !IsSpace("Hello"[0]); }
    var out := SummarizeVttContent(w, cfg, p, "", read, None, None, None, chunking, batch, model);
    var r := SummarizeText(w, cfg, "Hello", None, None, None, chunking, batch, model).1;
    assert out.1 == r.value;
    WorkflowsAgreeOnSuccess(w, "Hello", cfg, chunking, batch, model);
    OnlyBlankTextReportsEmptyInput(w, "Hello", cfg, chunking, batch, model);
  }

  /** `summarize_vtt_content` with the parser reset on blank content and the fixed
      `summarize_text`: blank content always reports empty input. */
  function SummarizeVttContentFixed(w: Wording, cfg: Settings, parser: VttParser.Parser, content: string, read: VttParser.Reader,
                                    chunkSize: Option<int>, chunkOverlap: Option<int>, temperature: Option<real>,
                                    chunking: Chunking, batch: BatchModel, model: Model): (out: (Settings, Summary, VttParser.Parser))
    ensures read(content).Failure? && !IsBlank(content) ==> out == (cfg, Summary("", 0, 0, 0, Some(
      "Error parsing VTT content: " + ("Error parsing VTT file: " + read(content).error))), parser)
    ensures IsBlank(content) || read(content).Success? ==> out.0 == ApplyOverrides(cfg, chunkSize, chunkOverlap, temperature)
    ensures IsBlank(content) ==> out.1 == Summary("", 0, 0, 0, Some(EmptyInputError)) && out.2 == VttParser.InitialParser
    ensures !IsBlank(content) && read(content).Success? ==> out.2 == VttParser.Parser(VttParser.KeepCaptions(read(content).value))
  {
    var parsed := VttParser.ParseContentFresh(parser, content, read);
    match parsed.result
    case Failure(e) => (cfg, Summary("", 0, 0, 0, Some(e)), parsed.parser)
    case Success(_) =>
      var text := VttParser.FullTranscript(parsed.parser);
      var (settings, result) := SummarizeTextFixed(w, cfg, text, chunkSize, chunkOverlap, temperature, chunking, batch, model);
      (settings, result, parsed.parser)
  }

  /** With the fix, no content depends on an earlier parse: blank content reports empty
      input whatever the parser held. */
  lemma FixedVttContentIgnoresEarlierParse(w: Wording, cfg: Settings, p1: VttParser.Parser, p2: VttParser.Parser, content: string,
                                           read: VttParser.Reader, chunkSize: Option<int>, chunkOverlap: Option<int>, temperature: Option<real>,
                                           chunking: Chunking, batch: BatchModel, model: Model)
    ensures var o1 := SummarizeVttContentFixed(w, cfg, p1, content, read, chunkSize, chunkOverlap, temperature, chunking, batch, model);
      var o2 := SummarizeVttContentFixed(w, cfg, p2, content, read, chunkSize, chunkOverlap, temperature, chunking, batch, model);
      o1.0 == o2.0 && o1.1 == o2.1
  {
  }
}
