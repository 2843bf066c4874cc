# LLM workflow demos: the pure logic, modelled in Dafny

The repository is a collection of demo scripts built around calls to language models.
Its reusable logic is the deterministic code that surrounds those calls. This project
models that code in Dafny and proves properties of it. The model covers:

- **A judged ranking of model answers.** Fan-in of partial failures, anonymous labels
  `C1..Cn`, a two-stage JSON span extraction, and mean-rank aggregation with a stable
  sort and the id-to-name display.
- **A transcript summariser.** Token-window chunking, sentence trimming, sentence
  chunking and chunk statistics, the subtitle cleaner, and the four-node summarisation
  state machine.
- **Small agent workflows.** The engineering develop/review loop, the
  orchestrator-workers router, two clarification chats, the streamed notification log,
  and the evaluated persona chat.
- **Text sanitisers and validators.** The Pushover message cleaner and the crew task
  guardrails.

Every model, agent, tokenizer, JSON decoder, subtitle reader, HTTP post and event stream
is a function-typed parameter. No property assumes anything about these oracles that
the code does not itself check.

Modules, one per file:

- `wrappers.dfy`: `Option` and `Result`.
- `text.dfy`: Python string semantics (`isspace`, `strip`, `split`, `join`, `int`/`str`, slicing).
- `tags.dfy`: the `<[^>]+>` deletion both cleaners share.
- `dicts.dfy`: insertion-ordered `dict`.
- `fan_in.dfy`, `judge_parse.dfy`, `competition.dfy`, `rank_aggregation.dfy`: the judged ranking.
- `chunker.dfy`, `vtt_parser.dfy`, `summarizer.dfy`: the transcript summariser.
- `engineering_flow.dfy`, `orchestrator_workers.dfy`: the engineering flow and the router.
- `pushover.dfy`, `guardrails.dfy`: the sanitisers and validators.
- `clarifying_research.dfy`, `clarification_chat.dfy`, `stream_notifications.dfy`, `evaluated_chat.dfy`: the chats and the notification log.

## Model

| member | source | states |
|---|---|---|
| FanIn.CallSingleModel | 1_foundations/community_contributions/elchanio-76/elchanio_wk1_lab2_llm_parallel_evaluation.py:160-186 | never fails: returns the model id with the model's text, or `"Error: "` and the message for a failed call or an unknown client kind |
| FanIn.FailedCallIsErrorText | 1_foundations/community_contributions/elchanio-76/elchanio_wk1_lab2_llm_parallel_evaluation.py:180-186 | every failure is reported in-band, as a response starting with `"Error: "` |
| FanIn.SubmissionOrderIsCompletionOrder | 1_foundations/community_contributions/elchanio-76/elchanio_wk1_lab2_llm_parallel_evaluation.py:198-212 | completion in submission order is one of the completion orders the fold accepts |
| FanIn.StoreEach | 1_foundations/community_contributions/elchanio-76/elchanio_wk1_lab2_llm_parallel_evaluation.py:198-212 | visiting requests in a given order and storing each one's entry under its model id keeps the keys distinct |
| FanIn.StoreEachKeys | 1_foundations/community_contributions/elchanio-76/elchanio_wk1_lab2_llm_parallel_evaluation.py:198-212 | the visit adds exactly the stored ids to the keys |
| FanIn.StoredIdsExactly | 1_foundations/community_contributions/elchanio-76/elchanio_wk1_lab2_llm_parallel_evaluation.py:198-212 | the stored ids are exactly the model ids of the visited requests that have an entry |
| FanIn.StoreEachGet | 1_foundations/community_contributions/elchanio-76/elchanio_wk1_lab2_llm_parallel_evaluation.py:198-212 | with distinct model ids and each request visited at most once, a visited request with an entry leaves that entry under its model id; any other id reads as before |
| FanIn.StoredInSubmissionOrder | 1_foundations/community_contributions/elchanio-76/elchanio_wk1_lab2_llm_parallel_evaluation.py:198 | visiting in submission order stores the ids of all requests that have an entry |
| FanIn.MissingEntries | 1_foundations/community_contributions/elchanio-76/elchanio_wk1_lab2_llm_parallel_evaluation.py:198-207 | the submission loop's dict has distinct keys |
| FanIn.MissingEntriesKeys | 1_foundations/community_contributions/elchanio-76/elchanio_wk1_lab2_llm_parallel_evaluation.py:198-207 | the submission loop records exactly the models whose provider has no client |
| FanIn.Completions | 1_foundations/community_contributions/elchanio-76/elchanio_wk1_lab2_llm_parallel_evaluation.py:209-212 | the completion loop keeps keys distinct |
| FanIn.CompletionsKeys | 1_foundations/community_contributions/elchanio-76/elchanio_wk1_lab2_llm_parallel_evaluation.py:209-212 | the completion loop adds exactly the model ids of the completed calls whose provider has a client |
| FanIn.CallModels | 1_foundations/community_contributions/elchanio-76/elchanio_wk1_lab2_llm_parallel_evaluation.py:189-221 | no models raises `max_workers must be greater than 0` (a pool of zero workers, re-raised); otherwise the response dict has distinct keys for every completion order |
| FanIn.CallModelsKeys | 1_foundations/community_contributions/elchanio-76/elchanio_wk1_lab2_llm_parallel_evaluation.py:193-221 | whatever the completion order, a returned dict's keys are exactly the requested model ids |
| FanIn.MissingEntriesGet | 1_foundations/community_contributions/elchanio-76/elchanio_wk1_lab2_llm_parallel_evaluation.py:205-207 | a model without a client maps to `"Error: No client available for <provider>"`; other models have no entry yet |
| FanIn.CompletionsGet | 1_foundations/community_contributions/elchanio-76/elchanio_wk1_lab2_llm_parallel_evaluation.py:209-212 | a completed call stores its own outcome under its model id, and any other entry is unchanged |
| FanIn.CallModelsResponse | 1_foundations/community_contributions/elchanio-76/elchanio_wk1_lab2_llm_parallel_evaluation.py:189-221 | with distinct model ids, the call returns and each id maps to its own call's outcome or to the no-client error |
| FanIn.CallModelsOrderIndependent | 1_foundations/community_contributions/elchanio-76/elchanio_wk1_lab2_llm_parallel_evaluation.py:209-212 | two completion orders both raise or both return, and give the same response for every model id |
| JudgeParse.ResultsSpan | 1_foundations/community_contributions/elchanio-76/elchanio_wk1_lab2_llm_parallel_evaluation.py:224-233 | the lazy `{"results".*?}` match: the leftmost `{"results"` that some later `}` closes, ending at the nearest `}`; `None` iff no such pair exists |
| JudgeParse.FirstDecodable | 1_foundations/community_contributions/elchanio-76/elchanio_wk1_lab2_llm_parallel_evaluation.py:246-255 | any index found is at or after the search point, a `}` that brings the balance from `start` back to zero, and its span decodes |
| JudgeParse.FirstDecodableIsFirst | 1_foundations/community_contributions/elchanio-76/elchanio_wk1_lab2_llm_parallel_evaluation.py:246-255 | whenever some balancing `}` at `k` has a decodable span, the search finds one, no later than `k`: the first success is returned and every earlier balancing span failed to decode |
| JudgeParse.ExtractCompleteJson | 1_foundations/community_contributions/elchanio-76/elchanio_wk1_lab2_llm_parallel_evaluation.py:239-257 | `None` without `{"response"`; otherwise any result is a decodable span from a `{"response"` to a brace-balancing `}` |
| JudgeParse.ScanCompleteJson | 1_foundations/community_contributions/elchanio-76/elchanio_wk1_lab2_llm_parallel_evaluation.py:239-257 | the one-pass bracket-counting scan computes exactly the specified extraction |
| JudgeParse.ExtractJsonResponse | 1_foundations/community_contributions/elchanio-76/elchanio_wk1_lab2_llm_parallel_evaluation.py:224-237 | `None` when there is no `{"results"…}` span; the span's decoding when it decodes; the brace-balanced fallback only when it does not |
| JudgeParse.WholeReplyDecodes | 1_foundations/community_contributions/elchanio-76/elchanio_wk1_lab2_llm_parallel_evaluation.py:224-233 | a reply that is one `{"results"…}` object, with no `}` before its end, parses to its own decoding |
| JudgeParse.JudgeRanking | 1_foundations/community_contributions/elchanio-76/elchanio_wk1_lab2_llm_parallel_evaluation.py:403-414 | a reply that parses to a results list contributes exactly that list (`parsed["results"]`); one that does not parse, or parses without `"results"`, contributes an empty ranking instead of an error |
| JudgeParse.Rankings | 1_foundations/community_contributions/elchanio-76/elchanio_wk1_lab2_llm_parallel_evaluation.py:402-414 | one ranking per judge, in judge order |
| Competition.Blocks | 1_foundations/community_contributions/elchanio-76/elchanio_wk1_lab2_llm_parallel_evaluation.py:344-347 | the i-th block is answer i under the label `C{i+1}` |
| Competition.TogetherIsBlocks | 1_foundations/community_contributions/elchanio-76/elchanio_wk1_lab2_llm_parallel_evaluation.py:344-347 | the judge text is the blocks of all answers, in order, with nothing in between |
| Competition.TogetherHasEveryAnswer | 1_foundations/community_contributions/elchanio-76/elchanio_wk1_lab2_llm_parallel_evaluation.py:345-347 | every answer appears in the judge text under its own label and separator |
| Competition.NumberIndex | 1_foundations/community_contributions/elchanio-76/elchanio_wk1_lab2_llm_parallel_evaluation.py:443 | a bare number `n` (no `C`) also names position `n - 1`: `lower` and `strip('c')` leave it alone and `int` reads it back |
| Competition.LabelRoundTrip | 1_foundations/community_contributions/elchanio-76/elchanio_wk1_lab2_llm_parallel_evaluation.py:443 | reading a label back with `int(id.lower().strip('c')) - 1` gives the position it was made from |
| RankAggregation.Numbered | 1_foundations/community_contributions/elchanio-76/elchanio_wk1_lab2_llm_parallel_evaluation.py:422 | a ranking's positions are 1-based |
| RankAggregation.Collect | 1_foundations/community_contributions/elchanio-76/elchanio_wk1_lab2_llm_parallel_evaluation.py:420-423 | the `defaultdict` of positions has distinct keys and is non-empty when there is a vote |
| RankAggregation.CollectGet | 1_foundations/community_contributions/elchanio-76/elchanio_wk1_lab2_llm_parallel_evaluation.py:420-423 | each competitor's list is exactly its positions in vote order; a competitor with no votes has no entry |
| RankAggregation.CollectValuesNonEmpty | 1_foundations/community_contributions/elchanio-76/elchanio_wk1_lab2_llm_parallel_evaluation.py:426-427 | every collected list is non-empty, so the `if ranks` filter drops nothing |
| RankAggregation.Averages | 1_foundations/community_contributions/elchanio-76/elchanio_wk1_lab2_llm_parallel_evaluation.py:426-427 | the averages keep only collected competitors and keep keys distinct |
| RankAggregation.AveragesGet | 1_foundations/community_contributions/elchanio-76/elchanio_wk1_lab2_llm_parallel_evaluation.py:426-427 | a competitor's score is the mean of its positions; an absent or empty list gives no score |
| RankAggregation.AverageRankings | 1_foundations/community_contributions/elchanio-76/elchanio_wk1_lab2_llm_parallel_evaluation.py:419-427 | the scores have distinct keys |
| RankAggregation.AverageRankingsGet | 1_foundations/community_contributions/elchanio-76/elchanio_wk1_lab2_llm_parallel_evaluation.py:419-427 | a score is the mean of every position any judge gave (repeats counted); an unlisted competitor has no score |
| RankAggregation.PositionsOfVotes | 1_foundations/community_contributions/elchanio-76/elchanio_wk1_lab2_llm_parallel_evaluation.py:421-423 | a competitor receives a position iff some judge listed it |
| RankAggregation.AverageRankingsEmpty | 1_foundations/community_contributions/elchanio-76/elchanio_wk1_lab2_llm_parallel_evaluation.py:431-433 | the scores are empty, and the script stops, iff every ranking is empty |
| RankAggregation.Insert | 1_foundations/community_contributions/elchanio-76/elchanio_wk1_lab2_llm_parallel_evaluation.py:436 | insertion adds exactly one entry, as a permutation of the input plus that entry |
| RankAggregation.InsertSorted | 1_foundations/community_contributions/elchanio-76/elchanio_wk1_lab2_llm_parallel_evaluation.py:436 | inserting into a score-sorted list keeps it sorted |
| RankAggregation.InsertWithScore | 1_foundations/community_contributions/elchanio-76/elchanio_wk1_lab2_llm_parallel_evaluation.py:436 | the inserted entry goes ahead of every entry with its score |
| RankAggregation.SortByScore | 1_foundations/community_contributions/elchanio-76/elchanio_wk1_lab2_llm_parallel_evaluation.py:436 | `sorted(..., key=score)` is ascending by score and a permutation of its input |
| RankAggregation.SortKeys | 1_foundations/community_contributions/elchanio-76/elchanio_wk1_lab2_llm_parallel_evaluation.py:436 | sorting keeps the set of ids, and keeps them distinct |
| RankAggregation.SortIsStable | 1_foundations/community_contributions/elchanio-76/elchanio_wk1_lab2_llm_parallel_evaluation.py:436 | entries with equal scores keep their first-appearance order |
| RankAggregation.FirstIndex | 1_foundations/community_contributions/elchanio-76/elchanio_wk1_lab2_llm_parallel_evaluation.py:444 | `list.index`: the first position holding the entry |
| RankAggregation.ShowLine | 1_foundations/community_contributions/elchanio-76/elchanio_wk1_lab2_llm_parallel_evaluation.py:441-447 | as written: an id is skipped iff `int` fails or its number minus one falls outside Python's `-n..n-1` index range; a shown line names a competitor and keeps the average |
| RankAggregation.ShowLinesDifferOnNegativeIndex | 1_foundations/community_contributions/elchanio-76/elchanio_wk1_lab2_llm_parallel_evaluation.py:443 | the as-written and the checked line differ exactly for the ids whose number minus one is a negative index in range (`C0` down to `C(1-n)`) |
| RankAggregation.ShowLineChecked | 1_foundations/community_contributions/elchanio-76/elchanio_wk1_lab2_llm_parallel_evaluation.py:441-447 | a shown line names the competitor the id's number points at, within range; otherwise the id is skipped |
| RankAggregation.Display | 1_foundations/community_contributions/elchanio-76/elchanio_wk1_lab2_llm_parallel_evaluation.py:441-447 | as written: one line per sorted entry, and every shown name is one of the competitors |
| RankAggregation.DisplayChecked | 1_foundations/community_contributions/elchanio-76/elchanio_wk1_lab2_llm_parallel_evaluation.py:441-447 | corrected: one line per sorted entry; a shown name is the competitor the id's number points at, within `1..n` |
| RankAggregation.DisplaysAgreeOnLabels | 1_foundations/community_contributions/elchanio-76/elchanio_wk1_lab2_llm_parallel_evaluation.py:441-447 | when every id is one of the labels `C1..Cn`, the range check changes nothing |
| RankAggregation.DisplayLine | 1_foundations/community_contributions/elchanio-76/elchanio_wk1_lab2_llm_parallel_evaluation.py:441-447 | in both displays, the shown rank is index + 1; `C(k+1)` shows the k-th competitor; a label beyond the last competitor is skipped (`IndexError`) |
| RankAggregation.ZeroIdShowsLastCompetitor | 1_foundations/community_contributions/elchanio-76/elchanio_wk1_lab2_llm_parallel_evaluation.py:443 | as written, `C0` indexes position -1 and shows the last competitor; the checked display skips it |
| RankAggregation.FinalRanking | 1_foundations/community_contributions/elchanio-76/elchanio_wk1_lab2_llm_parallel_evaluation.py:402-447 | as written: a ranked outcome has one line per scored competitor, and every shown name is a competitor |
| RankAggregation.FinalRankingChecked | 1_foundations/community_contributions/elchanio-76/elchanio_wk1_lab2_llm_parallel_evaluation.py:402-447 | corrected: one line per scored competitor, and "no valid rankings" exactly when the script reports it |
| RankAggregation.ZeroIdReplyRanking | 1_foundations/community_contributions/elchanio-76/elchanio_wk1_lab2_llm_parallel_evaluation.py:403-404 | a reply that is exactly `{"results": ["C0"]}` gives the ranking `["C0"]` |
| RankAggregation.ZeroIdAverages | 1_foundations/community_contributions/elchanio-76/elchanio_wk1_lab2_llm_parallel_evaluation.py:421-433 | a single ranking `["C0"]` gives `C0` the average 1 |
| RankAggregation.ZeroIdRankingShowsLastCompetitor | 1_foundations/community_contributions/elchanio-76/elchanio_wk1_lab2_llm_parallel_evaluation.py:441-447 | as written, the judges' ranking `["C0"]` over `alpha, beta` shows `beta` at rank 1; the checked ranking reports the id |
| RankAggregation.FinalRankingAborts | 1_foundations/community_contributions/elchanio-76/elchanio_wk1_lab2_llm_parallel_evaluation.py:402-433 | "no valid rankings" iff no judge produced a non-empty ranking; unparseable judges raise nothing |
| Chunker.CharIndex | 4_langgraph/community_contributions/transcript_summarizer/src/core/chunker.py:215-233 | a token index at or past the end maps to the text length; every index maps within the text |
| Chunker.CharIndexBeforeEnd | 4_langgraph/community_contributions/transcript_summarizer/src/core/chunker.py:227-233 | a token position before the end maps to a character position before the end |
| Chunker.LastSentenceEnd | 4_langgraph/community_contributions/transcript_summarizer/src/core/chunker.py:183-184 | the backward scan finds the last `.`, `!` or `?` below the bound, and none lies after it |
| Chunker.AdjustChunkBoundary | 4_langgraph/community_contributions/transcript_summarizer/src/core/chunker.py:169-196 | without a sentence end before the final character: drop the last word when there are several words, else keep the text |
| Chunker.AdjustCutsAfterLastSentenceEnd | 4_langgraph/community_contributions/transcript_summarizer/src/core/chunker.py:183-189 | with a sentence end before the final character, the cut falls after the last such end plus the whitespace run that follows it |
| Chunker.LastSentenceEndIs | 4_langgraph/community_contributions/transcript_summarizer/src/core/chunker.py:183-184 | the backward search finds exactly the sentence end after which none occurs below the bound |
| Chunker.AdjustEndsAtSentence | 4_langgraph/community_contributions/transcript_summarizer/src/core/chunker.py:183-189 | in the sentence case the result is a prefix of the text ending in a sentence end followed only by whitespace |
| Chunker.AdjustDropsLastWord | 4_langgraph/community_contributions/transcript_summarizer/src/core/chunker.py:191-194 | in the word case the result holds every word but the last, in order |
| Chunker.WindowEnd | 4_langgraph/community_contributions/transcript_summarizer/src/core/chunker.py:69-80 | an untrimmed window ends at `min(start + chunk_size, total)`; a trimmed one never ends before its start |
| Chunker.WindowChunk | 4_langgraph/community_contributions/transcript_summarizer/src/core/chunker.py:69-89 | the chunk carries its id, both character indices, and a token count equal to the window's length |
| Chunker.NextStart | 4_langgraph/community_contributions/transcript_summarizer/src/core/chunker.py:93 | the next start always advances |
| Chunker.WindowsFrom | 4_langgraph/community_contributions/transcript_summarizer/src/core/chunker.py:67-98 | the loop terminates with at most one chunk per remaining token, ids counting up, and untrimmed chunks no larger than `chunk_size` |
| Chunker.ChunkText | 4_langgraph/community_contributions/transcript_summarizer/src/core/chunker.py:35-100 | blank text gives `[]`; short text gives the one whole-text chunk; ids are 0,1,2,…; untrimmed chunks fit `chunk_size` |
| Chunker.NoOverlapKeepsOneWindow | 4_langgraph/community_contributions/transcript_summarizer/src/core/chunker.py:93-98 | as written, with overlap 0 the guard stops after the first window and the rest of the text is lost |
| Chunker.WindowsFromFixed | 4_langgraph/community_contributions/transcript_summarizer/src/core/chunker.py:67-98 | the loop with the guard only stopping at the end: terminates, ids counting up |
| Chunker.ChunkTextFixed | 4_langgraph/community_contributions/transcript_summarizer/src/core/chunker.py:35-100 | the corrected chunking keeps the blank, single-chunk and id guarantees |
| Chunker.FixedWindowsReachEnd | 4_langgraph/community_contributions/transcript_summarizer/src/core/chunker.py:67-98 | with the fixed guard the last window ends at the end of the text, for every non-negative overlap |
| Chunker.FixedChunksReachEnd | 4_langgraph/community_contributions/transcript_summarizer/src/core/chunker.py:35-100 | the corrected chunking covers the whole text |
| Chunker.FixedAgreesWhenWindowsOverlap | 4_langgraph/community_contributions/transcript_summarizer/src/core/chunker.py:93-98 | for a positive overlap smaller than the window, the fix changes nothing |
| Chunker.EndRun | 4_langgraph/community_contributions/transcript_summarizer/src/core/chunker.py:115 | the `[.!?]+` run at the start of the text is maximal |
| Chunker.SentenceBreak | 4_langgraph/community_contributions/transcript_summarizer/src/core/chunker.py:115-116 | a match of `[.!?]+\s+` lies at or after the search position and is non-empty |
| Chunker.SplitSentences | 4_langgraph/community_contributions/transcript_summarizer/src/core/chunker.py:116 | `re.split` always yields at least one part |
| Chunker.OverlapText | 4_langgraph/community_contributions/transcript_summarizer/src/core/chunker.py:198-213 | as written: the whole text when it has at most `overlap_size` tokens; for a positive overlap below that, the decoded last `overlap_size` tokens |
| Chunker.ZeroOverlapCarriesEverything | 4_langgraph/community_contributions/transcript_summarizer/src/core/chunker.py:209-213 | as written, an overlap of 0 carries every token of the previous chunk |
| Chunker.OverlapTextFixed | 4_langgraph/community_contributions/transcript_summarizer/src/core/chunker.py:198-213 | no overlap text for a non-positive overlap; the whole text when it is short enough |
| Chunker.OverlapFixAgreesOnPositive | 4_langgraph/community_contributions/transcript_summarizer/src/core/chunker.py:209-213 | for a positive overlap the fix equals the original |
| Chunker.ChunkBySentences | 4_langgraph/community_contributions/transcript_summarizer/src/core/chunker.py:102-167 | as written (overlap from `_get_overlap_text`): ids are 0,1,2,…; every chunk's content is stripped, non-empty and no longer than its `end_index - start_index`; no chunks iff every sentence is blank; every non-blank stripped sentence occurs in some chunk |
| Chunker.ChunkBySentencesFixed | 4_langgraph/community_contributions/transcript_summarizer/src/core/chunker.py:102-167 | corrected overlap: the same guarantees, with an overlap of 0 carrying nothing over |
| Chunker.ChunkSentences | 4_langgraph/community_contributions/transcript_summarizer/src/core/chunker.py:114-167 | the loop with either overlap: well-formed chunks, none iff every sentence is blank, and no non-blank sentence lost |
| Chunker.ContainsInStrip | 4_langgraph/community_contributions/transcript_summarizer/src/core/chunker.py:135 | a text with no whitespace at either end that occurs in the current chunk still occurs in `current_chunk.strip()` |
| Chunker.HoldsAfterClose | 4_langgraph/community_contributions/transcript_summarizer/src/core/chunker.py:133-146 | closing the chunk loses no sentence: what the current chunk held is in the closed chunk |
| Chunker.HoldsAfterJoin | 4_langgraph/community_contributions/transcript_summarizer/src/core/chunker.py:148-153 | appending a sentence to the current chunk loses nothing it held |
| Chunker.AddSentence | 4_langgraph/community_contributions/transcript_summarizer/src/core/chunker.py:128-153 | a sentence either joins the current chunk (with one space), or, when it would go over the limit, closes it as the next-numbered chunk with the stripped content, start, end and token count of `TextChunk`, and the new chunk starts as the overlap (as written or fixed), a space and the sentence; the sentence occurs in the new current chunk and nothing held before is lost |
| Chunker.MinTokens | 4_langgraph/community_contributions/transcript_summarizer/src/core/chunker.py:260 | the minimum token count is attained and no chunk is smaller |
| Chunker.MaxTokens | 4_langgraph/community_contributions/transcript_summarizer/src/core/chunker.py:261 | the maximum token count is attained and no chunk is larger |
| Chunker.ChunkStats | 4_langgraph/community_contributions/transcript_summarizer/src/core/chunker.py:235-262 | all zeros for no chunks; otherwise the count, the token total, and min ≤ every count ≤ max |
| Chunker.TokenSumBounds | 4_langgraph/community_contributions/transcript_summarizer/src/core/chunker.py:258-261 | the token total lies between count × lower bound and count × upper bound |
| Chunker.ChunkStatsBounds | 4_langgraph/community_contributions/transcript_summarizer/src/core/chunker.py:256-262 | count × min ≤ total ≤ count × max |
| Tags.TagLength | 4_langgraph/community_contributions/transcript_summarizer/src/core/vtt_parser.py:116 | a match of `<[^>]+>` at the start: `<`, at least one non-`>`, then `>` |
| Tags.StripTags | 4_langgraph/community_contributions/transcript_summarizer/src/core/vtt_parser.py:116 | tag deletion only shortens and only keeps characters of the input |
| Tags.StripTagsLeavesNoTag | 4_langgraph/community_contributions/transcript_summarizer/src/core/vtt_parser.py:116 | no tag remains after deletion |
| Tags.StripTagsOfNoTag | 4_langgraph/community_contributions/transcript_summarizer/src/core/vtt_parser.py:116 | text without tags is unchanged |
| VttParser.CollapseSpaces | 4_langgraph/community_contributions/transcript_summarizer/src/core/vtt_parser.py:119 | every whitespace run becomes one space and other characters are kept |
| VttParser.CleanText | 4_langgraph/community_contributions/transcript_summarizer/src/core/vtt_parser.py:105-124 | cleaned text has no tag, no two adjacent whitespace characters, and no surrounding whitespace |
| VttParser.CollapseKeepsNoTag | 4_langgraph/community_contributions/transcript_summarizer/src/core/vtt_parser.py:116-119 | collapsing whitespace does not create a tag |
| VttParser.CleanTextNormalForm | 4_langgraph/community_contributions/transcript_summarizer/src/core/vtt_parser.py:116-122 | the three steps in order leave text in normal form |
| VttParser.CollapseOfSingleSpaced | 4_langgraph/community_contributions/transcript_summarizer/src/core/vtt_parser.py:119 | collapsing single-spaced text changes nothing |
| VttParser.CleanTextIdempotent | 4_langgraph/community_contributions/transcript_summarizer/src/core/vtt_parser.py:105-124 | cleaning twice equals cleaning once |
| VttParser.KeepCaptions | 4_langgraph/community_contributions/transcript_summarizer/src/core/vtt_parser.py:33-42 | at most one segment per caption, none with empty text |
| VttParser.KeepCaptionsMembers | 4_langgraph/community_contributions/transcript_summarizer/src/core/vtt_parser.py:33-42 | exactly the captions with non-empty cleaned text are kept, as cleaned segments |
| VttParser.CleanTextBlank | 4_langgraph/community_contributions/transcript_summarizer/src/core/vtt_parser.py:36 | for cleaned text, `strip()` is empty iff the text is empty |
| VttParser.KeepCaptionsAppend | 4_langgraph/community_contributions/transcript_summarizer/src/core/vtt_parser.py:33-42 | filtering keeps order: the filter of a concatenation is the concatenation of the filters |
| VttParser.ParseFile | 4_langgraph/community_contributions/transcript_summarizer/src/core/vtt_parser.py:19-48 | a reader failure becomes `"Error parsing VTT file: …"`; otherwise the kept segments are both returned and stored |
| VttParser.ParseContent | 4_langgraph/community_contributions/transcript_summarizer/src/core/vtt_parser.py:50-80 | blank content gives `[]` with the parser untouched; failures get both error prefixes; success stores the segments |
| VttParser.ParseContentFresh | 4_langgraph/community_contributions/transcript_summarizer/src/core/vtt_parser.py:50-80 | corrected: blank content also clears the stored segments |
| VttParser.BlankContentKeepsStaleTranscript | 4_langgraph/community_contributions/transcript_summarizer/src/core/vtt_parser.py:61-62 | as written, blank content returns `[]` but the transcript still shows the previous segments |
| VttParser.BlankContentClearsTranscript | 4_langgraph/community_contributions/transcript_summarizer/src/core/vtt_parser.py:82-103 | after the corrected blank parse both transcripts are empty |
| VttParser.Texts | 4_langgraph/community_contributions/transcript_summarizer/src/core/vtt_parser.py:89 | the segment texts, in order |
| VttParser.FullTranscriptWords | 4_langgraph/community_contributions/transcript_summarizer/src/core/vtt_parser.py:82-89 | the full transcript's words are the segments' words, in order |
| VttParser.TimestampLines | 4_langgraph/community_contributions/transcript_summarizer/src/core/vtt_parser.py:98-102 | one `[start -> end] text` line per segment |
| VttParser.TimestampedTranscriptLines | 4_langgraph/community_contributions/transcript_summarizer/src/core/vtt_parser.py:91-103 | splitting the timestamped transcript on newlines gives back exactly the segment lines |
| VttParser.FullTranscript | 4_langgraph/community_contributions/transcript_summarizer/src/core/vtt_parser.py:82-89 | no segments give `""`; one segment gives its text |
| VttParser.TranscriptWithTimestamps | 4_langgraph/community_contributions/transcript_summarizer/src/core/vtt_parser.py:91-102 | no segments give `""`; one segment gives its one timestamped line |
| VttParser.CleanTextHasNoNewline | 4_langgraph/community_contributions/transcript_summarizer/src/core/vtt_parser.py:119 | cleaned text holds no newline |
| Summarizer.ChunkPrompt | 4_langgraph/community_contributions/transcript_summarizer/src/core/summarizer.py:327-343 | the chunk prompt announces `chunk i of n` and embeds the chunk |
| Summarizer.FinalPrompt | 4_langgraph/community_contributions/transcript_summarizer/src/core/summarizer.py:345-359 | the final prompt embeds the combined summaries |
| Summarizer.ChunkPrompts | 4_langgraph/community_contributions/transcript_summarizer/src/core/summarizer.py:214-217 | one prompt per chunk; chunk i is announced as `i+1 of n` and embedded |
| Summarizer.ParseInput | 4_langgraph/community_contributions/transcript_summarizer/src/core/summarizer.py:130-155 | blank text sets `"Empty input text"` and leaves `debug_config` `None`; otherwise the stats record the original length and `debug_config` is filled |
| Summarizer.ChunkNode | 4_langgraph/community_contributions/transcript_summarizer/src/core/summarizer.py:157-194 | as written: a state whose `debug_config` is `None` raises `AttributeError` at the log line, before the error check; otherwise an errored state passes through and the chunks are stored |
| Summarizer.ChunkNodeFixed | 4_langgraph/community_contributions/transcript_summarizer/src/core/summarizer.py:163-194 | passes an errored state through; stores the chunks, or the prefixed chunking error |
| Summarizer.Workflow | 4_langgraph/community_contributions/transcript_summarizer/src/core/summarizer.py:296-310 | the four nodes in line; as written it returns exactly when the text is not blank |
| Summarizer.WorkflowsAgreeOnSuccess | 4_langgraph/community_contributions/transcript_summarizer/src/core/summarizer.py:296-310 | the as-written graph raises iff the text is blank, and otherwise ends in the corrected graph's state |
| Summarizer.SummarizeNode | 4_langgraph/community_contributions/transcript_summarizer/src/core/summarizer.py:196-238 | pass-through on error or no chunks; one chunk is its own summary; otherwise stripped batch results and their count, or the prefixed error |
| Summarizer.FinalNode | 4_langgraph/community_contributions/transcript_summarizer/src/core/summarizer.py:240-292 | pass-through on error or no summaries; otherwise the stripped answer to the final prompt over the `"\n\n"`-joined summaries, or the prefixed error |
| Summarizer.ErrorIsSticky | 4_langgraph/community_contributions/transcript_summarizer/src/core/summarizer.py:157-164 | an errored state with `debug_config` filled passes through the remaining nodes unchanged; with `debug_config` `None`, `chunk_text` raises |
| Summarizer.ErrorIsStickyFixed | 4_langgraph/community_contributions/transcript_summarizer/src/core/summarizer.py:163-164 | corrected: once the error is set, the remaining three nodes return the state unchanged |
| Summarizer.OnlyBlankTextReportsEmptyInput | 4_langgraph/community_contributions/transcript_summarizer/src/core/summarizer.py:133-135 | only blank text can end with `"Empty input text"`: the other errors all start with `Error` |
| Summarizer.BlankTextRaises | 4_langgraph/community_contributions/transcript_summarizer/src/core/summarizer.py:157-161 | as written, blank input raises `'NoneType' object has no attribute 'get'` instead of ending with the empty-input error |
| Summarizer.BlankTextFails | 4_langgraph/community_contributions/transcript_summarizer/src/core/summarizer.py:133-135 | corrected: blank input ends the workflow with `"Empty input text"` and nothing else changed |
| Summarizer.SingleChunkSkipsBatch | 4_langgraph/community_contributions/transcript_summarizer/src/core/summarizer.py:209-211 | with one chunk the model is not consulted and the summary is the chunk's content |
| Summarizer.ApplyOverrides | 4_langgraph/community_contributions/transcript_summarizer/src/core/summarizer.py:445-451 | each absent override keeps the configured value |
| Summarizer.OverridesIdempotent | 4_langgraph/community_contributions/transcript_summarizer/src/core/summarizer.py:445-451 | applying the same overrides twice equals once; no overrides change nothing |
| Summarizer.ResultOf | 4_langgraph/community_contributions/transcript_summarizer/src/core/summarizer.py:472-493 | an error gives an empty summary, zero counts and the text length; success reports the summary and `chunks_summarized` or 0 |
| Summarizer.SummarizeText | 4_langgraph/community_contributions/transcript_summarizer/src/core/summarizer.py:429-497 | the settings after the overrides, applied even when the run raises; blank text raises the `AttributeError`; other text returns a result |
| Summarizer.SuccessReportsOriginalLength | 4_langgraph/community_contributions/transcript_summarizer/src/core/summarizer.py:476-487 | every returned result reports the input's length |
| Summarizer.NoChunksGivesEmptySummary | 4_langgraph/community_contributions/transcript_summarizer/src/core/summarizer.py:202-203 | when chunking yields nothing, the result is an empty summary without error |
| Summarizer.SingleChunkReportsNoneProcessed | 4_langgraph/community_contributions/transcript_summarizer/src/core/summarizer.py:209-211 | as written, a successful single-chunk summary reports 0 chunks processed |
| Summarizer.ResultOfFixed | 4_langgraph/community_contributions/transcript_summarizer/src/core/summarizer.py:472-493 | corrected: the processed count is the number of chunk summaries |
| Summarizer.SummarizeTextFixed | 4_langgraph/community_contributions/transcript_summarizer/src/core/summarizer.py:429-497 | corrected: the same overrides, and blank text gives the empty-input error result |
| Summarizer.FixedReportsEveryChunk | 4_langgraph/community_contributions/transcript_summarizer/src/core/summarizer.py:209-231 | corrected: a successful summary reports every chunk as processed |
| Summarizer.SummarizeVttContent | 4_langgraph/community_contributions/transcript_summarizer/src/core/summarizer.py:395-427 | as written, with the shared parser: a parse failure gives an error result with zero lengths and the settings and parser unchanged; otherwise the caller's overrides are applied and kept, the parser holds the new captions (or, for blank content, the old ones), and that parser's transcript is summarised: a blank one gives exactly the `AttributeError` result, any other reports its own length |
| Summarizer.VttContentIgnoresEarlierParse | 4_langgraph/community_contributions/transcript_summarizer/src/core/summarizer.py:411-415 | for content that is not blank, the settings and result do not depend on what the shared parser held before |
| Summarizer.Caught | 4_langgraph/community_contributions/transcript_summarizer/src/core/summarizer.py:417-427 | an exception becomes a result with an empty summary, zero lengths and the message |
| Summarizer.BlankContentSummarisesStaleTranscript | 4_langgraph/community_contributions/transcript_summarizer/src/core/summarizer.py:409-413 | as written, blank content after a parse of "Hello" reports a 5-character original and not the empty-input error |
| Summarizer.SummarizeVttContentFixed | 4_langgraph/community_contributions/transcript_summarizer/src/core/summarizer.py:395-427 | corrected: blank content resets the parser and reports `"Empty input text"`; the overrides and the new captions are kept as in the as-written call |
| Summarizer.FixedVttContentIgnoresEarlierParse | 4_langgraph/community_contributions/transcript_summarizer/src/core/summarizer.py:411-415 | corrected: for every content, blank or not, the settings and result do not depend on an earlier parse |
| EngineeringFlow.LatestComments | 3_crew/community_contributions/engineering_team_with_feedback_loops/src/engineering_team_using_flow/main.py:82 | the latest feedback's comments, or `""` when there is none |
| EngineeringFlow.DevelopNodeEffect | 3_crew/community_contributions/engineering_team_with_feedback_loops/src/engineering_team_using_flow/main.py:68-88 | development gets the latest comments and changes only its own side's code |
| EngineeringFlow.ReviewNodeEffect | 3_crew/community_contributions/engineering_team_with_feedback_loops/src/engineering_team_using_flow/main.py:90-122 | at 3 or more feedbacks it routes to "exceeded" without appending; otherwise it appends one feedback and routes on `passed` |
| EngineeringFlow.Phase | 3_crew/community_contributions/engineering_team_with_feedback_loops/src/engineering_team_using_flow/main.py:68-122 | a develop/review phase ends reviewed or exceeded |
| EngineeringFlow.RoundEffect | 3_crew/community_contributions/engineering_team_with_feedback_loops/src/engineering_team_using_flow/main.py:90-122 | one round stops at the cap iff 3 feedbacks exist, leaving them alone; otherwise it appends one feedback and routes to "reviewed" iff it passed, else back to development; the other side is untouched |
| EngineeringFlow.RoundLog | 3_crew/community_contributions/engineering_team_with_feedback_loops/src/engineering_team_using_flow/main.py:68-122 | a round logs one development of its side and one review numbered with the prior feedback count |
| EngineeringFlow.PhaseFeedbacks | 3_crew/community_contributions/engineering_team_with_feedback_loops/src/engineering_team_using_flow/main.py:93-122 | feedbacks only grow and stay within 3; "exceeded" is reported only at the cap |
| EngineeringFlow.PhaseEndsOnPass | 3_crew/community_contributions/engineering_team_with_feedback_loops/src/engineering_team_using_flow/main.py:112-122 | a phase that ends reviewed appended at least one feedback and the last one passed |
| EngineeringFlow.PhaseFailsBeforeLast | 3_crew/community_contributions/engineering_team_with_feedback_loops/src/engineering_team_using_flow/main.py:112-122 | every feedback a phase appended before its last one failed |
| EngineeringFlow.PhaseLeavesOtherSide | 3_crew/community_contributions/engineering_team_with_feedback_loops/src/engineering_team_using_flow/main.py:68-122 | a phase leaves the other side's code and feedbacks unchanged |
| EngineeringFlow.PhaseDevelops | 3_crew/community_contributions/engineering_team_with_feedback_loops/src/engineering_team_using_flow/main.py:68-122 | develops = new feedbacks, plus one when the cap is hit; the other side never develops |
| EngineeringFlow.PhaseIterations | 3_crew/community_contributions/engineering_team_with_feedback_loops/src/engineering_team_using_flow/main.py:110 | the review iterations are the prior feedback counts, counting up |
| EngineeringFlow.NoTestsInPhase | 3_crew/community_contributions/engineering_team_with_feedback_loops/src/engineering_team_using_flow/main.py:180-181 | no phase writes test cases |
| EngineeringFlow.Run | 3_crew/community_contributions/engineering_team_with_feedback_loops/src/engineering_team_using_flow/main.py:40-200 | tests are prepared iff the test-writing step ran |
| EngineeringFlow.RunFeedbacksBounded | 3_crew/community_contributions/engineering_team_with_feedback_loops/src/engineering_team_using_flow/main.py:124-200 | both feedback lists stay within 3 over a whole run |
| EngineeringFlow.RunOutcome | 3_crew/community_contributions/engineering_team_with_feedback_loops/src/engineering_team_using_flow/main.py:124-200 | tests are written only after a passed backend and a passed frontend review, as the latest of each list, and for the final code |
| EngineeringFlow.DevelopBound | 3_crew/community_contributions/engineering_team_with_feedback_loops/src/engineering_team_using_flow/main.py:27 | each side is developed at most 4 times |
| OrchestratorWorkers.MakeClients | 1_foundations/community_contributions/lab_2_orchestrator_workers_demo/orchestrator_workers_demo.py:47-57 | the gemini and deepseek clients exist iff their key is set and non-empty |
| OrchestratorWorkers.RouteFor | 1_foundations/community_contributions/lab_2_orchestrator_workers_demo/orchestrator_workers_demo.py:149-201 | id 1 → claude, id 2 → gpt-4o-mini, id 3 → gemini or the labelled fallback, any other id → deepseek or the labelled fallback |
| OrchestratorWorkers.RouteUsesOnlyPresentClients | 1_foundations/community_contributions/lab_2_orchestrator_workers_demo/orchestrator_workers_demo.py:149-201 | a route never uses a missing client; OpenAI serves exactly id 2 and the fallbacks; the shown model starts with the called model |
| OrchestratorWorkers.ExecuteWorkerTasks | 1_foundations/community_contributions/lab_2_orchestrator_workers_demo/orchestrator_workers_demo.py:120-214 | on success, exactly one record per subtask |
| OrchestratorWorkers.ExecuteRecordsEverySubtask | 1_foundations/community_contributions/lab_2_orchestrator_workers_demo/orchestrator_workers_demo.py:120-214 | on success, the i-th record is built from the i-th subtask's fields and that subtask's successful call |
| OrchestratorWorkers.ExecuteStopsAtFirstFailure | 1_foundations/community_contributions/lab_2_orchestrator_workers_demo/orchestrator_workers_demo.py:120-214 | a failure is the first failed call's error, and every earlier call succeeded |
| OrchestratorWorkers.Blocks | 1_foundations/community_contributions/lab_2_orchestrator_workers_demo/orchestrator_workers_demo.py:235-241 | one `WORKER <id> - <expertise>` block per result |
| OrchestratorWorkers.ReportsAreBlocks | 1_foundations/community_contributions/lab_2_orchestrator_workers_demo/orchestrator_workers_demo.py:235-241 | the reports are the blocks in order |
| OrchestratorWorkers.SynthesisHasEveryWorker | 1_foundations/community_contributions/lab_2_orchestrator_workers_demo/orchestrator_workers_demo.py:216-241 | the synthesis prompt contains every worker's block |
| OrchestratorWorkers.RunWorkflow | 1_foundations/community_contributions/lab_2_orchestrator_workers_demo/orchestrator_workers_demo.py:265-304 | the record holds the task, the plan's subtasks, the worker results and the synthesis of exactly those; a planning failure is returned |
| OrchestratorWorkers.RunKeepsSubtaskOrder | 1_foundations/community_contributions/lab_2_orchestrator_workers_demo/orchestrator_workers_demo.py:206-212 | the i-th worker result copies the i-th subtask's id, description and expertise, and appears in the synthesis |
| Pushover.LeadingRun | 2_openai/community_contributions/deep_research_with_pushover_report/pushover_notification_agent.py:15-18 | the maximal run of one character at the start, as the greedy `#{1,6}` and `\n\n+` patterns consume it |
| Pushover.MarkerLength | 2_openai/community_contributions/deep_research_with_pushover_report/pushover_notification_agent.py:15 | a `#{1,6}\s*` match at a `#` is non-empty and within the text |
| Pushover.StripHeaders | 2_openai/community_contributions/deep_research_with_pushover_report/pushover_notification_agent.py:15 | the header deletion never lengthens the text |
| Pushover.StripHeadersRemovesHashes | 2_openai/community_contributions/deep_research_with_pushover_report/pushover_notification_agent.py:15 | no `#` remains after the header step |
| Pushover.StripHeadersOfHashFree | 2_openai/community_contributions/deep_research_with_pushover_report/pushover_notification_agent.py:15 | text without `#` is unchanged |
| Pushover.StripHeadersKeepsAbsent | 2_openai/community_contributions/deep_research_with_pushover_report/pushover_notification_agent.py:15 | the header step introduces no character |
| Pushover.CloseFrom | 2_openai/community_contributions/deep_research_with_pushover_report/pushover_notification_agent.py:16-17 | the closing delimiter of a lazy `.*?` lies within the text |
| Pushover.CloseFound | 2_openai/community_contributions/deep_research_with_pushover_report/pushover_notification_agent.py:16-17 | the close is the nearest occurrence, with no newline before it |
| Pushover.CloseMissing | 2_openai/community_contributions/deep_research_with_pushover_report/pushover_notification_agent.py:16-17 | without a close on the line, every later occurrence lies past a newline |
| Pushover.Unwrap | 2_openai/community_contributions/deep_research_with_pushover_report/pushover_notification_agent.py:16-17 | unwrapping never lengthens the text |
| Pushover.UnwrapPair | 2_openai/community_contributions/deep_research_with_pushover_report/pushover_notification_agent.py:16-17 | a delimited span on one line becomes its inside and the scan resumes after the closing delimiter |
| Pushover.UnwrapChar | 2_openai/community_contributions/deep_research_with_pushover_report/pushover_notification_agent.py:16-17 | anywhere else the first character is kept and the scan moves on by one |
| Pushover.UnwrapWithoutDelimiter | 2_openai/community_contributions/deep_research_with_pushover_report/pushover_notification_agent.py:16-17 | text without the delimiter is unchanged |
| Pushover.UnwrapKeepsAbsent | 2_openai/community_contributions/deep_research_with_pushover_report/pushover_notification_agent.py:16-17 | unwrapping introduces no character |
| Pushover.UnwrapStarFreePrefix | 2_openai/community_contributions/deep_research_with_pushover_report/pushover_notification_agent.py:17 | a star-free prefix passes through the italic step |
| Pushover.StarFreeThenNoPair | 2_openai/community_contributions/deep_research_with_pushover_report/pushover_notification_agent.py:17 | a star-free prefix adds no star pair |
| Pushover.LoneStarThenNoPair | 2_openai/community_contributions/deep_research_with_pushover_report/pushover_notification_agent.py:17 | a star alone on its line forms no pair |
| Pushover.LineAfterLoneStar | 2_openai/community_contributions/deep_research_with_pushover_report/pushover_notification_agent.py:17 | after an unclosed star, the rest of its line is star-free |
| Pushover.NoStarBeforeNewline | 2_openai/community_contributions/deep_research_with_pushover_report/pushover_notification_agent.py:17 | when the lazy group finds no close, no star follows on the same line |
| Pushover.ItalicLeavesNoStarPair | 2_openai/community_contributions/deep_research_with_pushover_report/pushover_notification_agent.py:17 | after the italic step no two stars share a line |
| Pushover.ItalicPairLeavesNoStarPair | 2_openai/community_contributions/deep_research_with_pushover_report/pushover_notification_agent.py:17 | a replaced star pair leaves its star-free inside and no pair after it |
| Pushover.ItalicLoneStarLeavesNoStarPair | 2_openai/community_contributions/deep_research_with_pushover_report/pushover_notification_agent.py:17 | an unmatched star stays, followed by the star-free rest of its line, and no pair follows |
| Pushover.ItalicOfNoStarPair | 2_openai/community_contributions/deep_research_with_pushover_report/pushover_notification_agent.py:17 | text without a star pair is unchanged |
| Pushover.StarCloseIsPair | 2_openai/community_contributions/deep_research_with_pushover_report/pushover_notification_agent.py:17 | a star whose close is found on its line makes a star pair |
| Pushover.NoStarPairOfTail | 2_openai/community_contributions/deep_research_with_pushover_report/pushover_notification_agent.py:17 | dropping the first character keeps a text free of star pairs |
| Pushover.ItalicIdempotent | 2_openai/community_contributions/deep_research_with_pushover_report/pushover_notification_agent.py:17 | the italic step is idempotent |
| Pushover.CollapseNewlines | 2_openai/community_contributions/deep_research_with_pushover_report/pushover_notification_agent.py:18 | collapsing never lengthens and keeps the first character |
| Pushover.CollapseLeavesNoBlankRun | 2_openai/community_contributions/deep_research_with_pushover_report/pushover_notification_agent.py:18 | no three consecutive newlines remain |
| Pushover.CollapseOfNoBlankRun | 2_openai/community_contributions/deep_research_with_pushover_report/pushover_notification_agent.py:18 | text without such a run is unchanged |
| Pushover.NoBlankRunSuffix | 2_openai/community_contributions/deep_research_with_pushover_report/pushover_notification_agent.py:18 | a suffix of collapsed text is collapsed too |
| Pushover.CollapseKeepsAbsent | 2_openai/community_contributions/deep_research_with_pushover_report/pushover_notification_agent.py:18 | collapsing introduces no character except newlines |
| Pushover.CleanShape | 2_openai/community_contributions/deep_research_with_pushover_report/pushover_notification_agent.py:14-18 | the cleaned report has no `#` and no three consecutive newlines |
| Pushover.TruncateShape | 2_openai/community_contributions/deep_research_with_pushover_report/pushover_notification_agent.py:21-22 | up to 900 characters unchanged; beyond, the first 900 plus the truncation note; never over 1024 |
| Pushover.TruncateKeepsHashFree | 2_openai/community_contributions/deep_research_with_pushover_report/pushover_notification_agent.py:21-22 | truncation adds no `#` |
| Pushover.SendResearchNotification | 2_openai/community_contributions/deep_research_with_pushover_report/pushover_notification_agent.py:9-36 | `"success"` iff status 200, else `"error"` with `Error <code>: <text>` |
| Pushover.PostedMessageShape | 2_openai/community_contributions/deep_research_with_pushover_report/pushover_notification_agent.py:14-29 | the posted message has no `#`, fits Pushover's 1024 limit, and is the cleaned text when short |
| Guardrails.ValidateReportContent | 3_crew/community_contributions/financial_researcher_guard/src/financial_researcher_guard/crew.py:31-39 | rejected with "Report exceeds 500 words" iff over 500 words; accepted output unchanged |
| Guardrails.ExactlyMaxWordsPasses | 3_crew/community_contributions/financial_researcher_guard/src/financial_researcher_guard/crew.py:35-37 | 500 words pass and 501 do not, however they are spaced |
| Guardrails.PaddingDoesNotCount | 3_crew/community_contributions/financial_researcher_guard/src/financial_researcher_guard/crew.py:35 | appended whitespace does not change the verdict |
| Guardrails.ValidateJsonOutput | 3_crew/community_contributions/financial_researcher_guard/src/financial_researcher_guard/crew.py:21-29 | accepted with the decoded value iff the raw text decodes; else "Invalid JSON format" |
| ClarifyingResearch.MarkerSeen | 2_openai/community_contributions/deep_research_elixirgam_version/deep_research.py:23 | true iff some earlier bot response contains the clarification marker |
| ClarifyingResearch.TurnTexts | 2_openai/community_contributions/deep_research_elixirgam_version/deep_research.py:77-80 | one `User/Assistant/---` block per turn |
| ClarifyingResearch.TranscriptIsBlocks | 2_openai/community_contributions/deep_research_elixirgam_version/deep_research.py:76-80 | the history string is the turn blocks, in order |
| ClarifyingResearch.HistoryStringHasEveryTurn | 2_openai/community_contributions/deep_research_elixirgam_version/deep_research.py:76-83 | every turn and the current query line appear in the research input |
| ClarifyingResearch.ExecuteResearch | 2_openai/community_contributions/deep_research_elixirgam_version/deep_research.py:66-113 | a failing research run gives the error reply |
| ClarifyingResearch.ResearchReplyCarriesOutput | 2_openai/community_contributions/deep_research_elixirgam_version/deep_research.py:101-110 | the reply contains the final output (or the result's text) and the closing line |
| ClarifyingResearch.QuestionLinesNumbered | 2_openai/community_contributions/deep_research_elixirgam_version/deep_research.py:46-47 | question i appears under its number |
| ClarifyingResearch.ClarificationReplyShape | 2_openai/community_contributions/deep_research_elixirgam_version/deep_research.py:44-49 | the reply lists question i as `**i+1.** q` |
| ClarifyingResearch.ClarificationReplyHasMarker | 2_openai/community_contributions/deep_research_elixirgam_version/deep_research.py:49 | the reply carries the clarification marker |
| ClarifyingResearch.ProcessResearchRequest | 2_openai/community_contributions/deep_research_elixirgam_version/deep_research.py:13-63 | a blank message leaves the history; any other message appends exactly one pair |
| ClarifyingResearch.MarkerRoutesToResearch | 2_openai/community_contributions/deep_research_elixirgam_version/deep_research.py:23-29 | after the marker, the message goes to research with the whole chat |
| ClarifyingResearch.QuestionsThenResearch | 2_openai/community_contributions/deep_research_elixirgam_version/deep_research.py:40-52 | after questions are asked, the marker is seen, so the next turn goes to research |
| ClarifyingResearch.MarkerStaysSeen | 2_openai/community_contributions/deep_research_elixirgam_version/deep_research.py:23 | once seen, the marker stays seen |
| ClarifyingResearch.NoQuestionsResearchesPrefixed | 2_openai/community_contributions/deep_research_elixirgam_version/deep_research.py:53-58 | without questions, the prefixed query is both researched and recorded |
| ClarificationChat.ResetState | 2_openai/community_contributions/dr_chat_workfow_w_clarifications/app.py:11-16 | back to the greeting, type "query", no manager |
| ClarificationChat.ManagerRun | 2_openai/community_contributions/dr_chat_workfow_w_clarifications/research_manager.py:53-67 | succeeds iff the type is query or clarification; the session gains `"<type>: <input>"` |
| ClarificationChat.HandleInput | 2_openai/community_contributions/dr_chat_workfow_w_clarifications/app.py:18-40 | appends `You: <input>` first; a manager exists afterwards and got exactly one prompt when the type is known |
| ClarificationChat.HandleInputKeepsReplyTypeKnown | 2_openai/community_contributions/dr_chat_workfow_w_clarifications/app.py:32-40 | the reply type stays query or clarification, so the assertion never fails |
| ClarificationChat.FollowUpAsksForClarification | 2_openai/community_contributions/dr_chat_workfow_w_clarifications/app.py:32-37 | a follow-up adds one manager line of newline-joined questions and expects a clarification |
| ClarificationChat.AnswerShowsReport | 2_openai/community_contributions/dr_chat_workfow_w_clarifications/app.py:38-40 | any other answer adds no line, keeps the type and shows the content |
| ClarificationChat.OneManagerPerConversation | 2_openai/community_contributions/dr_chat_workfow_w_clarifications/app.py:21-30 | one manager serves all submissions, with one prompt each in order; history only grows |
| ClarificationChat.FirstSubmissionIsQuery | 2_openai/community_contributions/dr_chat_workfow_w_clarifications/app.py:11-30 | after a reset, the first submission creates the manager and sends a query |
| StreamNotifications.NoteOf | 2_openai/community_contributions/autonomous_deep_research/research_manager.py:13-31 | an agent update, tool call or tool output adds exactly one notification; a raw response or other item adds none |
| StreamNotifications.Run | 2_openai/community_contributions/autonomous_deep_research/research_manager.py:7-32 | one yield per notification showing all so far, joined by newlines, then exactly one final yield with the report |
| StreamNotifications.ProgressOfExtension | 2_openai/community_contributions/autonomous_deep_research/research_manager.py:19-31 | later notifications do not change an earlier yield |
| StreamNotifications.NotificationsCountReported | 2_openai/community_contributions/autonomous_deep_research/main.py:19-37 | the notifications count exactly the agent-update, tool-call and tool-output events |
| StreamNotifications.PrefixCountReported | 2_openai/community_contributions/autonomous_deep_research/main.py:19-37 | after any prefix of the event stream, the notifications so far count exactly the reported events in that prefix |
| StreamNotifications.ReportIsLastToolOutput | 2_openai/community_contributions/autonomous_deep_research/main.py:32-38 | the report is the last tool output |
| StreamNotifications.NoToolOutputEmptyReport | 2_openai/community_contributions/autonomous_deep_research/main.py:13 | without tool output the report is `""` |
| StreamNotifications.NotificationsOnlyGrow | 2_openai/community_contributions/autonomous_deep_research/research_manager.py:9-31 | each yield extends the previous text by a newline and the new notification |
| EvaluatedChat.ArgOr | 1_foundations/community_contributions/jongkook/app.py:18 | a keyword's value or the parameter default |
| EvaluatedChat.RecordUserDetails | 1_foundations/community_contributions/jongkook/app.py:18-20 | `{"recorded": "ok"}` iff `email` is given and no unknown keyword is; a TypeError otherwise |
| EvaluatedChat.RecordUnknownQuestion | 1_foundations/community_contributions/jongkook/app.py:47-49 | `{"recorded": "ok"}` iff exactly `question` is given |
| EvaluatedChat.CallTool | 1_foundations/community_contributions/jongkook/app.py:80-81 | an unknown tool name yields `{}`; a tool's result is one of the two |
| EvaluatedChat.NodesArgumentRaises | 1_foundations/community_contributions/jongkook/app.py:22-44 | as written, arguments the schema allows (`nodes`) make the tool raise |
| EvaluatedChat.FixedSchemaArgsRecorded | 1_foundations/community_contributions/jongkook/app.py:18-20 | corrected schema: everything it allows is recorded, and given notes reach the pushed line |
| EvaluatedChat.QuestionSchemaArgsRecorded | 1_foundations/community_contributions/jongkook/app.py:47-65 | the question schema matches its function |
| EvaluatedChat.ToolReply | 1_foundations/community_contributions/jongkook/app.py:76-82 | a reply is a tool message with the call's id; undecodable arguments raise |
| EvaluatedChat.HandleToolCalls | 1_foundations/community_contributions/jongkook/app.py:74-84 | as written: no calls give `None`, and a reply list has exactly one message |
| EvaluatedChat.SecondCallUnanswered | 1_foundations/community_contributions/jongkook/app.py:74-84 | as written, the second of two calls gets no tool message |
| EvaluatedChat.HandleToolCallsFixed | 1_foundations/community_contributions/jongkook/app.py:74-84 | corrected: one tool message per call, in order, with its id |
| EvaluatedChat.FixedAnswersEveryCall | 1_foundations/community_contributions/jongkook/app.py:74-84 | succeeds iff every call succeeds, and then every call id is answered |
| EvaluatedChat.HandlersAgreeOnOneCall | 1_foundations/community_contributions/jongkook/app.py:74-84 | for a single call the fix changes nothing |
| EvaluatedChat.RejectionSection | 1_foundations/community_contributions/jongkook/app.py:129-131 | the section shows the attempted answer and the reason |
| EvaluatedChat.RejectionShownOnlyWhenRejected | 1_foundations/community_contributions/jongkook/app.py:122-131 | the prompt is the persona with the resume, extended by the rejection section iff the previous answer was rejected |
| EvaluatedChat.AvatorMessages | 1_foundations/community_contributions/jongkook/app.py:133 | the request is the system prompt, the history, then the message |
| EvaluatedChat.AvatorLoop | 1_foundations/community_contributions/jongkook/app.py:135-151 | as written: the reply is the text of the first completion that is not a tool request, and the request only grows |
| EvaluatedChat.ToolRound | 1_foundations/community_contributions/jongkook/app.py:141-146 | as written, a tool round adds one tool message, for the first call, and no calls raise `TypeError` from `extend(None)`; the fixed handler answers every call |
| EvaluatedChat.ChatLoop | 1_foundations/community_contributions/jongkook/app.py:135-151 | with either handler: the reply is the text of the first completion that is not a tool request, and the request only grows |
| EvaluatedChat.AvatorLoopFixed | 1_foundations/community_contributions/jongkook/app.py:135-151 | corrected handler: the same loop guarantees |
| EvaluatedChat.ToolRoundAnswersFirstCall | 1_foundations/community_contributions/jongkook/app.py:140-146 | as written, a tool round appends the assistant message and one tool message answering only the first call; a round with no calls raises |
| EvaluatedChat.ToolRoundAnswersInOrder | 1_foundations/community_contributions/jongkook/app.py:140-146 | corrected handler: a tool round appends the assistant message and one answer per call, in call order |
| EvaluatedChat.EvaluatorUserPromptShowsExchange | 1_foundations/community_contributions/jongkook/app.py:160-165 | the judge sees the history, the latest message and the response, each under its heading |
| EvaluatedChat.EvaluatorMessages | 1_foundations/community_contributions/jongkook/app.py:167-171 | a system prompt, then the user prompt |
| EvaluatedChat.EvaluatorSeesResume | 1_foundations/community_contributions/jongkook/app.py:168 | the judge's system prompt contains the resume |
| EvaluatedChat.Evaluate | 1_foundations/community_contributions/jongkook/app.py:167-181 | the verdict is the judge's, and the recorded response is the one judged |
| EvaluatedChat.Attempts | 1_foundations/community_contributions/jongkook/app.py:190-204 | at most the remaining attempts are evaluated; every evaluation but the last rejects, and the next one judges the regeneration; an acceptance returns the judged answer, and a final rejection returns the unjudged regeneration |
| EvaluatedChat.Orchestrator | 1_foundations/community_contributions/jongkook/app.py:184-204 | 1 to 2 evaluations, the first of the first answer |
| EvaluatedChat.AcceptedAnswerIsReply | 1_foundations/community_contributions/jongkook/app.py:200-204 | only the last evaluation can accept, and then its answer is the reply |
| EvaluatedChat.AllRejectedShowsUnevaluated | 1_foundations/community_contributions/jongkook/app.py:196-204 | if every answer is rejected, two evaluations were made and the unjudged regeneration is shown |
| EvaluatedChat.RegenerationSeesRejection | 1_foundations/community_contributions/jongkook/app.py:127-131 | each regeneration's prompt shows the judged answer and the reason, and its message is `feedback + message` |

## Left out

- Language models, agents, tokenizers, `json.loads`, `webvtt.read`, HTTP posts and agent event streams are parameters. Their own behaviour is not modelled, and `decode(encode(x)) == x` is not assumed of the tokenizer.
- Concurrency (`ThreadPoolExecutor`, `as_completed`, `asyncio.gather`) is modelled as a fold over an arbitrary completion order.
- Printing, logging, tracing and trace ids, the PDF read, the Gradio UI and its `gr.update` tuples, environment loading, and the file writes are left out. Trace ids are parameters.
- Whitespace is the ASCII set that Python's `str.isspace` and `\s` accept. Other Unicode whitespace is left out.
- Floats are left out:
  - `processing_time`, `compression_ratio`, temperature arithmetic and `avg_tokens_per_chunk`;
  - rank averages are exact rationals;
  - `Chunker.CharIndex`: `_get_char_index` is computed with an exact ratio, so float rounding may differ at exact multiples.
- `Competition.NumberIndex`: stated for numbers written as `str(n)` writes them; ids with leading zeros such as `03` are read by the same `CompetitorIndex` but have no lemma of their own.
- `Competition.CompetitorIndex`: `int()` here accepts surrounding whitespace, a sign and ASCII digits. The underscores and non-ASCII digits Python also accepts, and `lower()` beyond ASCII letters, are not modelled.
- JSON values are abstracted:
  - a judge's reply decodes to "absent", "object without results", or a list of ids;
  - a tool call's arguments decode to a map from names to strings, or to nothing;
  - `EvaluatedChat.ToolReply`: arguments that are valid JSON but not an object count as "nothing" and fail with `"JSONDecodeError"`. In Python `**args` with a non-dict raises `TypeError` for a known tool, and an unknown tool still returns `{}`; neither is modelled;
  - `OrchestratorWorkers.RouteFor`: a subtask's id is an integer or some other value. A JSON `1.0` or `true`, which Python compares equal to `1`, is not distinguished from other non-integer ids, so it falls to the default route instead of claude.
- The contents of the summariser's `debug_config` are left out; only whether it is still `None` is modelled. The stats fields that only hold floats are left out too. So are `update_config`'s re-creation of the LLM service and `summarize_vtt_file`, which reads a file.
- `Guardrails.ValidateReportContent`: the "Unexpected error during validation" branch is left out, because `split()` on a string cannot raise.
- Exceptions raised by agent runs in the query/clarification chat are left out. The agent is a total function.
- `EvaluatedChat.AvatorLoop`, `EvaluatedChat.ChatLoop` and `EvaluatedChat.AvatorLoopFixed`: the loop is bounded by a round count (`fuel`). A model that asks for tools forever is reported as a failure instead of looping forever.
- `EvaluatedChat.Orchestrator`: the persona model and the judge are total functions here. An exception from either, which ends the Python call, is left out. The `str` of the history shown to the judge is a parameter.
- `EvaluatedChat.CallTool`: `globals().get(name)` also finds every other global of the script. Only the two tools and "nothing found" are modelled.
- The fixed prompt text of the orchestrator demo, the summariser, the evaluated chat and the clarifying research app is a parameter `w: Wording`. Each module's `SourceWording` holds the script's own text. The properties hold for any wording, so they hold for that one.
- The streamed fold of `autonomous_deep_research/main.py` is the same fold as `research_manager.py`. One model serves both.

## Findings

| source | as written | input that shows it | evidently intended | confidence | as-written member | corrected member |
|---|---|---|---|---|---|---|
| 4_langgraph/community_contributions/transcript_summarizer/src/core/vtt_parser.py:61-62 | blank content returns `[]` without clearing the stored segments | parse a file with one caption, then `parse_content("")`: the transcript still shows the old caption, and `summarize_vtt_content("")` summarises it again | a blank parse leaves an empty transcript | high, not executed | Summarizer.BlankContentSummarisesStaleTranscript | Summarizer.SummarizeVttContentFixed |
| 1_foundations/community_contributions/elchanio-76/elchanio_wk1_lab2_llm_parallel_evaluation.py:443 | `competitors[int(id)-1]` with `C0` indexes -1 | a judge ranking `["C0"]` with competitors `alpha, beta` shows `beta` | ids outside `C1..Cn` are reported as errors | high, not executed | RankAggregation.ZeroIdRankingShowsLastCompetitor | RankAggregation.FinalRankingChecked |
| 4_langgraph/community_contributions/transcript_summarizer/src/core/chunker.py:93-98 | with overlap 0 the next start equals the window end, and the guard breaks | `overlap_size=0`, text longer than one window: one chunk, the rest dropped | the loop stops only at the end of the tokens | high, not executed | Chunker.NoOverlapKeepsOneWindow | Chunker.WindowsFromFixed |
| 4_langgraph/community_contributions/transcript_summarizer/src/core/chunker.py:212 | `tokens[-0:]` is the whole list | `overlap_size=0`: the whole previous chunk is repeated | no overlap text for overlap 0 | high, not executed | Chunker.ZeroOverlapCarriesEverything | Chunker.ChunkBySentencesFixed |
| 4_langgraph/community_contributions/transcript_summarizer/src/core/summarizer.py:209-211 | the single-chunk path never sets `chunks_summarized` | a text of one chunk: `chunks_processed == 0` | one chunk processed | medium, not executed | Summarizer.SingleChunkReportsNoneProcessed | Summarizer.ResultOfFixed |
| 1_foundations/community_contributions/jongkook/app.py:83-84 | `return results` sits inside the loop | a completion with two tool calls: only the first gets a tool message | every call answered | high, not executed | EvaluatedChat.SecondCallUnanswered | EvaluatedChat.HandleToolCallsFixed |
| 4_langgraph/community_contributions/transcript_summarizer/src/core/summarizer.py:160-161 | `chunk_text` logs `debug_config.get(...)` before its error check, and blank input leaves `debug_config` `None`; `summarize_chunks` (:199-200) and `create_final_summary` (:243-244) do the same, so all three nodes need the safe read | `summarize_text("   ")` raises `AttributeError`; `summarize_vtt_content` reports `'NoneType' object has no attribute 'get'` | blank input ends with the `"Empty input text"` error result | medium (assumes the graph passes the initial `None` on), not executed | Summarizer.BlankTextRaises | Summarizer.BlankTextFails |
| 1_foundations/community_contributions/jongkook/app.py:36 | the schema names the property `nodes` | arguments `{"email": …, "nodes": …}`, which the schema allows, raise `TypeError` | the property is `notes`, as the parameter is | high, not executed | EvaluatedChat.NodesArgumentRaises | EvaluatedChat.FixedSchemaArgsRecorded |
