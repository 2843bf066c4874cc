/** Reading a judge's ranking out of its free-text reply
    (`extract_json_response`, `extract_complete_json` and the parsing loop of `main` in
    `elchanio_wk1_lab2_llm_parallel_evaluation.py`). `json.loads` is an oracle. */
module JudgeParse {
  import opened Wrappers
  import opened Text
  import opened Dicts

  /** A decoded JSON value, reduced to what the ranking step reads from it: a `"results"`
      list of competitor ids, or anything else (where `parsed["results"]` raises). */
  datatype Json = Ranking(results: seq<string>) | NoResults

  /** `json.loads`: `None` stands for `JSONDecodeError`. */
  type JsonDecoder = string -> Option<Json>

  const ResultsOpen: string := "{\"results\""
  const ResponseOpen: string := "{\"response\""

  /** A `{"results"` at `p` with a `}` at `q` after it: a match of `(\{"results".*?\})` could span [p, q]. */
  predicate ResultsCandidate(text: string, p: int, q: int) {
    OccursAt(text, ResultsOpen, p) && p + |ResultsOpen| <= q < |text| && text[q] == '}'
  }

  /** The span `re.search(r'(\{"results".*?\})', text, re.DOTALL)` matches, as [start, end):
      the leftmost `{"results"` that some later `}` closes, up to the nearest such `}`. */
  function ResultsSpan(text: string): (r: Option<(nat, nat)>)
    ensures r.Some? ==> ResultsCandidate(text, r.value.0, r.value.1 - 1)
    ensures r.Some? ==> forall k :: r.value.0 + |ResultsOpen| <= k < r.value.1 - 1 ==> text[k] != '}'
    ensures r.Some? ==> forall p :: 0 <= p < r.value.0 ==> !OccursAt(text, ResultsOpen, p)
    ensures r.None? <==> forall p, q :: !ResultsCandidate(text, p, q)
  {
    match Find(text, ResultsOpen)
    case None => None
    case Some(p) =>
      match CharIndexFrom(text, '}', p + |ResultsOpen|)
      case None =>
        None
      case Some(q) =>
        assert ResultsCandidate(text, p, q);
        Some((p, q + 1))
  }

  // ---------------------------------------------------------------------------
  // The brace-balance fallback
  // ---------------------------------------------------------------------------

  function BraceDelta(c: char): int {
    if c == '{' then 1 else if c == '}' then -1 else 0
  }

  /** Number of `{` minus number of `}` in `text[start..end]`. */
  function Balance(text: string, start: nat, end: nat): int
    requires start <= end <= |text|
    decreases end
  {
    if end == start then 0 else Balance(text, start, end - 1) + BraceDelta(text[end - 1])
  }

  /** A `}` at `i` that brings the balance counted from `start` back to zero. */
  predicate Closes(text: string, start: nat, i: int) {
    start <= i < |text| && text[i] == '}' && Balance(text, start, i + 1) == 0
  }

  /** The first candidate at or after `i` whose span from `start` decodes: the index of
      its closing `}`. */
  function FirstDecodable(text: string, start: nat, i: nat, decode: JsonDecoder): (r: Option<nat>)
    requires start <= i
    ensures r.Some? ==> i <= r.value && Closes(text, start, r.value) && decode(text[start..r.value + 1]).Some?
    decreases |text| - i
  {
    if i >= |text| then None
    else if Closes(text, start, i) && decode(text[start..i + 1]).Some? then Some(i)
    else FirstDecodable(text, start, i + 1, decode)
  }

  /** No candidate before the one found decodes, and when none is found none decodes. */
  lemma {:induction false} FirstDecodableIsFirst(text: string, start: nat, i: nat, decode: JsonDecoder, k: nat)
    requires start <= i <= k && Closes(text, start, k) && decode(text[start..k + 1]).Some?
    ensures FirstDecodable(text, start, i, decode).Some?
    ensures FirstDecodable(text, start, i, decode).value <= k
    decreases k - i
  {
    if !(Closes(text, start, i) && decode(text[start..i + 1]).Some?) {
      FirstDecodableIsFirst(text, start, i + 1, decode, k);
    }
  }

  /** One step of the search. */
  lemma FirstDecodableStep(text: string, start: nat, i: nat, decode: JsonDecoder)
    requires start <= i < |text|
    requires !(Closes(text, start, i) && decode(text[start..i + 1]).Some?)
    ensures FirstDecodable(text, start, i, decode) == FirstDecodable(text, start, i + 1, decode)
  {
  }

  /** `extract_complete_json`: from the first `{"response"`, the first span ending at a
      balancing `}` that decodes; `None` when there is no `{"response"` or no such span. */
  function ExtractCompleteJson(text: string, decode: JsonDecoder): (r: Option<Json>)
    ensures !Contains(text, ResponseOpen) ==> r.None?
    ensures r.Some? ==> exists s, j :: OccursAt(text, ResponseOpen, s) && Closes(text, s, j) && decode(text[s..j + 1]) == r
  {
    match Find(text, ResponseOpen)
    case None => None
    case Some(s) => ExtractFrom(text, s, decode)
  }

  /** The extraction once the object is known to open at `start`. */
  function ExtractFrom(text: string, start: nat, decode: JsonDecoder): (r: Option<Json>)
    ensures r.Some? ==> exists j :: Closes(text, start, j) && decode(text[start..j + 1]) == r
  {
    match FirstDecodable(text, start, start, decode)
    case None => None
    case Some(j) => decode(text[start..j + 1])
  }

  /** The scan as `extract_complete_json` performs it: one pass keeping a running
      bracket count, trying to decode whenever a `}` brings it to zero. */
  method ScanCompleteJson(text: string, decode: JsonDecoder) returns (r: Option<Json>)
    ensures r == ExtractCompleteJson(text, decode)
  {
    var found := Find(text, ResponseOpen);
    if found.None? {
      return None;
    }
    var start := found.value;
    var count := 0;
    var i := start;
    while i < |text|
      invariant start <= i <= |text|
      invariant count == Balance(text, start, i)
      invariant FirstDecodable(text, start, start, decode) == FirstDecodable(text, start, i, decode)
      decreases |text| - i
    {
      if text[i] == '{' {
        count := count + 1;
      } else if text[i] == '}' {
        count := count - 1;
        if count == 0 {
          var attempt := decode(text[start..i + 1]);
          if attempt.Some? {
            assert Closes(text, start, i);
            assert FirstDecodable(text, start, i, decode) == Some(i);
            assert attempt == ExtractFrom(text, start, decode);
            return attempt;
          }
        }
      }
      FirstDecodableStep(text, start, i, decode);
      i := i + 1;
    }
    assert FirstDecodable(text, start, i, decode).None?;
    assert ExtractFrom(text, start, decode).None?;
    return None;
  }

  /** `extract_json_response`: decode the `{"results"...}` span; only if that fails to
      decode, fall back to the brace-balanced `{"response"...}` object. */
  function ExtractJsonResponse(text: string, decode: JsonDecoder): (r: Option<Json>)
    ensures ResultsSpan(text).None? ==> r.None?
    ensures ResultsSpan(text).Some? && decode(text[ResultsSpan(text).value.0..ResultsSpan(text).value.1]).Some? ==>
      r == decode(text[ResultsSpan(text).value.0..ResultsSpan(text).value.1])
    ensures ResultsSpan(text).Some? && decode(text[ResultsSpan(text).value.0..ResultsSpan(text).value.1]).None? ==>
      r == ExtractCompleteJson(text, decode)
  {
    match ResultsSpan(text)
    case None => None
    case Some((a, b)) =>
      match decode(text[a..b])
      case Some(v) => Some(v)
      case None => ExtractCompleteJson(text, decode)
  }

  /** When the whole reply is one `{"results" ...}` object with no `}` before its last
      character and it decodes, that decoding is the answer. */
  lemma WholeReplyDecodes(body: string, decode: JsonDecoder)
    requires forall k :: 0 <= k < |body| ==> body[k] != '}'
    requires decode(ResultsOpen + body + "}").Some?
    ensures ExtractJsonResponse(ResultsOpen + body + "}", decode) == decode(ResultsOpen + body + "}")
  {
    var text := ResultsOpen + body + "}";
    assert OccursAt(text, ResultsOpen, 0) by { assert text[..|ResultsOpen|] == ResultsOpen; }
    assert ResultsCandidate(text, 0, |text| - 1);
    var span := ResultsSpan(text).value;
    assert span.0 == 0;
    assert span.1 == |text| by {
      forall k | |ResultsOpen| <= k < |text| - 1 ensures text[k] != '}' {
        assert text[k] == body[k - |ResultsOpen|];
      }
    }
    assert text[0..|text|] == text;
  }

  /** `rankings.append(parsed["results"])`, with every failure giving `[]`. */
  function JudgeRanking(evaluation: string, decode: JsonDecoder): (ranking: seq<string>)
    ensures ExtractJsonResponse(evaluation, decode).None? ==> ranking == []
    ensures ExtractJsonResponse(evaluation, decode) == Some(NoResults) ==> ranking == []
    ensures forall rs :: ExtractJsonResponse(evaluation, decode) == Some(Ranking(rs)) ==> ranking == rs
  {
    match ExtractJsonResponse(evaluation, decode)
    case Some(Ranking(results)) => results
    case _ => []
  }

  /** The loop over `evaluations.items()`: one ranking per judge, in dict order. */
  function Rankings(evaluations: Dict<string, string>, decode: JsonDecoder): (rankings: seq<seq<string>>)
    ensures |rankings| == |evaluations|
    ensures forall k :: 0 <= k < |evaluations| ==> rankings[k] == JudgeRanking(evaluations[k].1, decode)
  {
    seq(|evaluations|, k requires 0 <= k < |evaluations| => JudgeRanking(evaluations[k].1, decode))
  }
}
