/** Token-window chunking of long transcripts (`transcript_summarizer/src/core/chunker.py`):
    `chunk_text`, the sentence-boundary trimmer `_adjust_chunk_boundary`,
    `chunk_by_sentences` with its `_get_overlap_text`, and `get_chunk_stats`.
    The tokenizer is an oracle pair; nothing is assumed about how `encode` and
    `decode` relate. */
module Chunker {
  import opened Wrappers
  import opened Text

  /** `TextChunk` */
  datatype Chunk = Chunk(content: string, startIndex: int, endIndex: int, tokenCount: nat, chunkId: nat)

  /** The `tiktoken` encoding: both directions are oracles. */
  datatype Tokenizer = Tokenizer(encode: string -> seq<int>, decode: seq<int> -> string)

  /** `chunk_size` and `overlap_size`, unconstrained integers as in the constructor. */
  datatype Config = Config(chunkSize: int, overlapSize: int)

  function Min(a: int, b: int): int { if a <= b then a else b }
  function Max(a: int, b: int): int { if a >= b then a else b }

  /** `int(x)` on a quotient: truncation toward zero. */
  function TruncDiv(a: int, b: int): (q: int)
    requires b > 0
    ensures a >= 0 ==> q * b <= a < (q + 1) * b
  {
    if a >= 0 then a / b else -((-a) / b)
  }

  /** `_get_char_index`: the character position proportional to a token position,
      computed exactly (the script's float ratio is left out). */
  function CharIndex(text: string, tokenIndex: int, totalTokens: nat): (c: int)
    requires totalTokens > 0
    ensures tokenIndex >= totalTokens ==> c == |text|
    ensures c <= |text|
    ensures 0 <= tokenIndex ==> 0 <= c
  {
    if tokenIndex >= totalTokens then |text|
    else Min(TruncDiv(tokenIndex * |text|, totalTokens), |text|)
  }

  // ---------------------------------------------------------------------------
  // Sentence-boundary trimming
  // ---------------------------------------------------------------------------

  predicate IsSentenceEnd(c: char) {
    c == '.' || c == '!' || c == '?'
  }

  /** The last position below `k` holding a sentence-ending character. */
  function LastSentenceEnd(s: string, k: nat): (r: Option<nat>)
    requires k <= |s|
    ensures r.Some? ==> r.value < k && IsSentenceEnd(s[r.value])
    ensures forall j :: (if r.Some? then r.value + 1 else 0) <= j < k ==> !IsSentenceEnd(s[j])
  {
    if k == 0 then None
    else if IsSentenceEnd(s[k - 1]) then Some(k - 1)
    else LastSentenceEnd(s, k - 1)
  }

  /** `_adjust_chunk_boundary`: cut after the last sentence end that is not the final
      character (keeping the whitespace that follows it); failing that, drop the last
      word; failing that, keep the text. */
  function AdjustChunkBoundary(s: string): (r: string)
    ensures (forall i :: 0 <= i < |s| - 1 ==> !IsSentenceEnd(s[i])) && |Words(s)| > 1 ==>
      r == Join(" ", Words(s)[..|Words(s)| - 1])
    ensures (forall i :: 0 <= i < |s| - 1 ==> !IsSentenceEnd(s[i])) && |Words(s)| <= 1 ==> r == s
  {
    var found := if |s| == 0 then None else LastSentenceEnd(s, |s| - 1);
    match found
    case Some(i) => s[..i + 1 + LeadingSpaces(s[i + 1..])]
    case None =>
      var words := Words(s);
      if |words| > 1 then Join(" ", words[..|words| - 1]) else s
  }

  /** With a sentence end before the final character, the cut falls after the last
      such end and the whitespace run that follows it. */
  lemma AdjustCutsAfterLastSentenceEnd(s: string, i: nat)
    requires i < |s| - 1 && IsSentenceEnd(s[i])
    requires forall j :: i < j < |s| - 1 ==> !IsSentenceEnd(s[j])
    ensures AdjustChunkBoundary(s) == s[..i + 1 + LeadingSpaces(s[i + 1..])]
  {
    LastSentenceEndIs(s, |s| - 1, i);
  }

  /** The search below `k` finds a sentence end with none after it below `k`. */
  lemma {:induction false} LastSentenceEndIs(s: string, k: nat, i: nat)
    requires i < k <= |s| && IsSentenceEnd(s[i])
    requires forall j :: i < j < k ==> !IsSentenceEnd(s[j])
    ensures LastSentenceEnd(s, k) == Some(i)
    decreases k
  {
    if k - 1 != i {
      LastSentenceEndIs(s, k - 1, i);
    }
  }

  /** In the sentence-end case the result is a prefix of the text that ends in a
      sentence end followed only by whitespace. */
  lemma AdjustEndsAtSentence(s: string, i: nat)
    requires i < |s| - 1 && IsSentenceEnd(s[i])
    ensures var r := AdjustChunkBoundary(s);
      |r| <= |s| && r == s[..|r|] && exists k :: 0 <= k < |r| && IsSentenceEnd(r[k]) && IsBlank(r[k + 1..])
  {
    var found := LastSentenceEnd(s, |s| - 1);
    assert found.Some?;
    var j := found.value;
    var n := LeadingSpaces(s[j + 1..]);
    assert AdjustChunkBoundary(s) == s[..j + 1 + n];
    CutAfterEnd(s, j, n);
  }

  /** Cutting after a sentence end and the whitespace run that follows it leaves a
      prefix ending in that sentence end and whitespace only. */
  lemma CutAfterEnd(s: string, j: nat, n: nat)
    requires j < |s| && IsSentenceEnd(s[j]) && n == LeadingSpaces(s[j + 1..])
    ensures var r := s[..j + 1 + n];
      |r| <= |s| && r == s[..|r|] && IsSentenceEnd(r[j]) && IsBlank(r[j + 1..])
  {
    var r := s[..j + 1 + n];
    assert r[j + 1..] == s[j + 1..][..n];
  }

  /** In the word case the result holds every word of the text but the last, in order. */
  lemma AdjustDropsLastWord(s: string)
    requires forall i :: 0 <= i < |s| - 1 ==> !IsSentenceEnd(s[i])
    requires |Words(s)| > 1
    ensures Words(AdjustChunkBoundary(s)) == Words(s)[..|Words(s)| - 1]
  {
    var ws := Words(s);
    WordsOfJoin(ws[..|ws| - 1]);
  }

  // ---------------------------------------------------------------------------
  // Token-window chunking
  // ---------------------------------------------------------------------------

  /** Where the window starting at `start` ends, in tokens: `start + chunk_size` capped at
      the total, or, when the window is trimmed to a sentence boundary, `start` plus the
      token count of the trimmed text. */
  function WindowEnd(tokens: seq<int>, tk: Tokenizer, cfg: Config, preserve: bool, start: nat): (e: int)
    ensures !(preserve && start + cfg.chunkSize < |tokens|) ==> e == Min(start + cfg.chunkSize, |tokens|)
    ensures preserve && start + cfg.chunkSize < |tokens| ==> start <= e
  {
    var endToken := Min(start + cfg.chunkSize, |tokens|);
    if preserve && endToken < |tokens| then
      start + |tk.encode(AdjustChunkBoundary(tk.decode(PySlice(tokens, start, endToken))))|
    else endToken
  }

  /** The chunk one pass of the `chunk_text` loop creates for the window at `start`. */
  function WindowChunk(text: string, tokens: seq<int>, tk: Tokenizer, cfg: Config, preserve: bool,
                       start: nat, id: nat): (chunk: Chunk)
    requires start < |tokens|
    ensures chunk.chunkId == id
    ensures chunk.startIndex == CharIndex(text, start, |tokens|)
    ensures chunk.endIndex == CharIndex(text, WindowEnd(tokens, tk, cfg, preserve, start), |tokens|)
    ensures !(preserve && start + cfg.chunkSize < |tokens|) ==>
      chunk.tokenCount == |PySlice(tokens, start, Min(start + cfg.chunkSize, |tokens|))|
    ensures chunk.tokenCount == WindowEnd(tokens, tk, cfg, preserve, start) - start
            || !(preserve && start + cfg.chunkSize < |tokens|)
  {
    var total := |tokens|;
    var endToken := Min(start + cfg.chunkSize, total);
    var chunkTokens := PySlice(tokens, start, endToken);
    var decoded := tk.decode(chunkTokens);
    if preserve && endToken < total then
      var adjusted := AdjustChunkBoundary(decoded);
      var reencoded := tk.encode(adjusted);
      Chunk(adjusted, CharIndex(text, start, total), CharIndex(text, start + |reencoded|, total), |reencoded|, id)
    else
      Chunk(decoded, CharIndex(text, start, total), CharIndex(text, endToken, total), |chunkTokens|, id)
  }

  /** The start of the window after the one at `start`: `max(end - overlap, start + 1)`. */
  function NextStart(tokens: seq<int>, tk: Tokenizer, cfg: Config, preserve: bool, start: nat): (next: nat)
    ensures next > start
  {
    Max(WindowEnd(tokens, tk, cfg, preserve, start) - cfg.overlapSize, start + 1)
  }

  /** The `chunk_text` loop from `start_token = start`, `chunk_id = id`, as written:
      it stops when the next start reaches the end of the tokens, or does not come
      before the current chunk's end. */
  function WindowsFrom(text: string, tokens: seq<int>, tk: Tokenizer, cfg: Config, preserve: bool,
                       start: nat, id: nat): (chunks: seq<Chunk>)
    ensures start >= |tokens| ==> chunks == []
    ensures start < |tokens| ==> 0 < |chunks| <= |tokens| - start
    ensures forall k :: 0 <= k < |chunks| ==> chunks[k].chunkId == id + k
    ensures !preserve && cfg.chunkSize >= 0 ==> forall k :: 0 <= k < |chunks| ==> chunks[k].tokenCount <= cfg.chunkSize
    decreases |tokens| - start
  {
    if start >= |tokens| then []
    else
      var chunk := WindowChunk(text, tokens, tk, cfg, preserve, start, id);
      var next := NextStart(tokens, tk, cfg, preserve, start);
      if next >= WindowEnd(tokens, tk, cfg, preserve, start) then [chunk]
      else [chunk] + WindowsFrom(text, tokens, tk, cfg, preserve, next, id + 1)
  }

  /** `chunk_text(text, preserve_sentences)` */
  function ChunkText(text: string, tk: Tokenizer, cfg: Config, preserve: bool): (chunks: seq<Chunk>)
    ensures IsBlank(text) ==> chunks == []
    ensures !IsBlank(text) && |tk.encode(text)| <= cfg.chunkSize ==>
      chunks == [Chunk(text, 0, |text|, |tk.encode(text)|, 0)]
    ensures forall k :: 0 <= k < |chunks| ==> chunks[k].chunkId == k
    ensures |chunks| <= |tk.encode(text)| || |chunks| == 1
    ensures !IsBlank(text) && |tk.encode(text)| > 0 ==> |chunks| > 0
    ensures !preserve && cfg.chunkSize >= 0 ==> forall k :: 0 <= k < |chunks| ==> chunks[k].tokenCount <= cfg.chunkSize
  {
    if Strip(text) == "" then []
    else
      var tokens := tk.encode(text);
      if |tokens| <= cfg.chunkSize then [Chunk(text, 0, |text|, |tokens|, 0)]
      else WindowsFrom(text, tokens, tk, cfg, preserve, 0, 0)
  }

  /** A token position before the end maps to a character position before the end. */
  lemma CharIndexBeforeEnd(text: string, tokenIndex: nat, totalTokens: nat)
    requires tokenIndex < totalTokens && |text| > 0
    ensures CharIndex(text, tokenIndex, totalTokens) < |text|
  {
    var q := (tokenIndex * |text|) / totalTokens;
    assert q * totalTokens <= tokenIndex * |text|;
    assert tokenIndex * |text| < totalTokens * |text|;
    assert q < |text|;
  }

  /** As written, with no overlap the loop stops after the first window: the next start
      equals the window's end, which the loop guard mistakes for a lack of progress, so
      every token after the first window is dropped and the only chunk ends before the
      end of the text. */
  lemma NoOverlapKeepsOneWindow(text: string, tk: Tokenizer, size: nat)
    requires !IsBlank(text) && 0 < size < |tk.encode(text)|
    ensures var chunks := ChunkText(text, tk, Config(size, 0), false);
      |chunks| == 1 && chunks[0].tokenCount == size && chunks[0].endIndex < |text|
  {
    var tokens := tk.encode(text);
    var cfg := Config(size, 0);
    assert WindowEnd(tokens, tk, cfg, false, 0) == size;
    assert NextStart(tokens, tk, cfg, false, 0) == size;
    assert |PySlice(tokens, 0, size)| == size;
    CharIndexBeforeEnd(text, size, |tokens|);
  }

  /** The loop with the guard that was evidently meant: stop only when the next start
      does not advance, which `max(..., start + 1)` already rules out. */
  function WindowsFromFixed(text: string, tokens: seq<int>, tk: Tokenizer, cfg: Config, preserve: bool,
                            start: nat, id: nat): (chunks: seq<Chunk>)
    ensures start >= |tokens| ==> chunks == []
    ensures start < |tokens| ==> 0 < |chunks| <= |tokens| - start
    ensures forall k :: 0 <= k < |chunks| ==> chunks[k].chunkId == id + k
    decreases |tokens| - start
  {
    if start >= |tokens| then []
    else
      [WindowChunk(text, tokens, tk, cfg, preserve, start, id)]
        + WindowsFromFixed(text, tokens, tk, cfg, preserve, NextStart(tokens, tk, cfg, preserve, start), id + 1)
  }

  function ChunkTextFixed(text: string, tk: Tokenizer, cfg: Config, preserve: bool): (chunks: seq<Chunk>)
    ensures IsBlank(text) ==> chunks == []
    ensures !IsBlank(text) && |tk.encode(text)| <= cfg.chunkSize ==>
      chunks == [Chunk(text, 0, |text|, |tk.encode(text)|, 0)]
    ensures forall k :: 0 <= k < |chunks| ==> chunks[k].chunkId == k
  {
    if Strip(text) == "" then []
    else
      var tokens := tk.encode(text);
      if |tokens| <= cfg.chunkSize then [Chunk(text, 0, |text|, |tokens|, 0)]
      else WindowsFromFixed(text, tokens, tk, cfg, preserve, 0, 0)
  }

  /** With the fixed guard, a positive window and no sentence trimming, the windows reach
      the end of the tokens: the last chunk ends at the end of the text, for every
      non-negative overlap. */
  lemma {:induction false} FixedWindowsReachEnd(text: string, tokens: seq<int>, tk: Tokenizer, cfg: Config, start: nat, id: nat)
    requires start < |tokens| && cfg.chunkSize >= 1 && cfg.overlapSize >= 0
    ensures var chunks := WindowsFromFixed(text, tokens, tk, cfg, false, start, id);
      chunks[|chunks| - 1].endIndex == |text|
    decreases |tokens| - start
  {
    var e := WindowEnd(tokens, tk, cfg, false, start);
    var next := NextStart(tokens, tk, cfg, false, start);
    var chunk := WindowChunk(text, tokens, tk, cfg, false, start, id);
    var rest := WindowsFromFixed(text, tokens, tk, cfg, false, next, id + 1);
    assert WindowsFromFixed(text, tokens, tk, cfg, false, start, id) == [chunk] + rest;
    if next < |tokens| {
      FixedWindowsReachEnd(text, tokens, tk, cfg, next, id + 1);
    } else {
      assert e >= |tokens|;
    }
  }

  lemma FixedChunksReachEnd(text: string, tk: Tokenizer, cfg: Config)
    requires !IsBlank(text) && cfg.chunkSize >= 1 && cfg.overlapSize >= 0
    ensures var chunks := ChunkTextFixed(text, tk, cfg, false);
      |chunks| > 0 && chunks[|chunks| - 1].endIndex == |text|
  {
    var tokens := tk.encode(text);
    if |tokens| > cfg.chunkSize {
      FixedWindowsReachEnd(text, tokens, tk, cfg, 0, 0);
    }
  }

  /** The fix changes nothing when the loop stopped only because the tokens ran out. */
  lemma {:induction false} FixedAgreesWhenWindowsOverlap(text: string, tokens: seq<int>, tk: Tokenizer, cfg: Config,
                                                          preserve: bool, start: nat, id: nat)
    requires cfg.overlapSize > 0 && cfg.chunkSize > cfg.overlapSize && !preserve
    ensures WindowsFromFixed(text, tokens, tk, cfg, preserve, start, id) == WindowsFrom(text, tokens, tk, cfg, preserve, start, id)
    decreases |tokens| - start
  {
    if start < |tokens| {
      var next := NextStart(tokens, tk, cfg, preserve, start);
      var e := WindowEnd(tokens, tk, cfg, preserve, start);
      FixedAgreesWhenWindowsOverlap(text, tokens, tk, cfg, preserve, next, id + 1);
      if next >= e {
        assert e == |tokens|;
      }
    }
  }

  // ---------------------------------------------------------------------------
  // Sentence chunking
  // ---------------------------------------------------------------------------

  /** Length of the run of sentence-ending characters that starts `s`. */
  function EndRun(s: string): (k: nat)
    ensures k <= |s|
    ensures forall j :: 0 <= j < k ==> IsSentenceEnd(s[j])
    ensures k < |s| ==> !IsSentenceEnd(s[k])
  {
    if |s| > 0 && IsSentenceEnd(s[0]) then 1 + EndRun(s[1..]) else 0
  }

  /** The first match of `[.!?]+\s+` at or after `i`, as [start, end). */
  function SentenceBreak(s: string, i: nat): (r: Option<(nat, nat)>)
    ensures r.Some? ==> i <= r.value.0 < r.value.1 <= |s|
    decreases |s| - i
  {
    if i >= |s| then None
    else if IsSentenceEnd(s[i]) then
      var run := EndRun(s[i..]);
      var after := i + run;
      if after < |s| && IsSpace(s[after]) then Some((i, after + LeadingSpaces(s[after..])))
      else SentenceBreak(s, after)
    else SentenceBreak(s, i + 1)
  }

  /** `re.split(r'[.!?]+\s+', s)` */
  function SplitSentences(s: string): (parts: seq<string>)
    ensures |parts| > 0
    decreases |s|
  {
    match SentenceBreak(s, 0)
    case None => [s]
    case Some((a, b)) => [s[..a]] + SplitSentences(s[b..])
  }

  /** `_get_overlap_text`, as written: `tokens[-overlap:]` with Python's slice rules. */
  function OverlapText(s: string, tk: Tokenizer, overlap: int): (r: string)
    ensures |tk.encode(s)| <= overlap ==> r == s
    ensures 0 < overlap < |tk.encode(s)| ==> r == tk.decode(tk.encode(s)[|tk.encode(s)| - overlap..])
  {
    var tokens := tk.encode(s);
    if |tokens| <= overlap then s
    else
      assert 0 < overlap ==> PySlice(tokens, -overlap, |tokens|) == tokens[|tokens| - overlap..];
      tk.decode(PySlice(tokens, -overlap, |tokens|))
  }

  /** As written, an overlap of zero carries the whole previous chunk into the next one:
      `tokens[-0:]` is every token. */
  lemma ZeroOverlapCarriesEverything(s: string, tk: Tokenizer)
    requires |tk.encode(s)| > 0
    ensures OverlapText(s, tk, 0) == tk.decode(tk.encode(s))
  {
    var tokens := tk.encode(s);
    assert PySlice(tokens, 0, |tokens|) == tokens;
  }

  /** The overlap as evidently meant: the last `overlap` tokens, and nothing when the
      overlap is not positive. */
  function OverlapTextFixed(s: string, tk: Tokenizer, overlap: int): (r: string)
    ensures overlap <= 0 ==> r == ""
    ensures overlap > 0 && |tk.encode(s)| <= overlap ==> r == s
  {
    var tokens := tk.encode(s);
    if overlap <= 0 then ""
    else if |tokens| <= overlap then s
    else tk.decode(tokens[|tokens| - overlap..])
  }

  /** For a positive overlap the fixed version is the one as written: the fix only
      changes overlaps that are not positive. */
  lemma OverlapFixAgreesOnPositive(s: string, tk: Tokenizer, overlap: int)
    requires overlap > 0
    ensures OverlapTextFixed(s, tk, overlap) == OverlapText(s, tk, overlap)
  {
    var tokens := tk.encode(s);
    if |tokens| > overlap {
      assert PySlice(tokens, -overlap, |tokens|) == tokens[|tokens| - overlap..];
    }
  }

  lemma NonBlankAfterSpace(a: string, b: string)
    requires !IsBlank(b)
    ensures !IsBlank(a + " " + b)
  {
    var k :| 0 <= k < |b| && !IsSpace(b[k]);
    assert (a + " " + b)[|a| + 1 + k] == b[k];
  }

  lemma StripOfNonBlank(s: string)
    requires !IsBlank(s)
    ensures Strip(s) != [] && Stripped(Strip(s))
  {
  }

  /** The overlap that starts a new chunk: `_get_overlap_text` as written, or its fix. */
  function CarriedOverlap(s: string, tk: Tokenizer, overlap: int, fixedOverlap: bool): string
  {
    if fixedOverlap then OverlapTextFixed(s, tk, overlap) else OverlapText(s, tk, overlap)
  }

  /** `chunk_by_sentences`, as written: sentences are added to the current chunk until
      the next one would exceed the token limit; the chunk is then closed and the next
      one starts with `_get_overlap_text` of it, which for `overlap_size` 0 is all of it. */
  method ChunkBySentences(text: string, tk: Tokenizer, cfg: Config) returns (chunks: seq<Chunk>)
    ensures WellFormedChunks(chunks)
    ensures chunks == [] <==> forall p :: p in SplitSentences(text) ==> IsBlank(p)
    ensures SentencesKept(SplitSentences(text), |SplitSentences(text)|, chunks, "")
  {
    chunks := ChunkSentences(text, tk, cfg, false);
  }

  /** `chunk_by_sentences` with the overlap fix: a zero overlap carries nothing over. */
  method ChunkBySentencesFixed(text: string, tk: Tokenizer, cfg: Config) returns (chunks: seq<Chunk>)
    ensures WellFormedChunks(chunks)
    ensures chunks == [] <==> forall p :: p in SplitSentences(text) ==> IsBlank(p)
    ensures SentencesKept(SplitSentences(text), |SplitSentences(text)|, chunks, "")
  {
    chunks := ChunkSentences(text, tk, cfg, true);
  }

  /** The loop of `chunk_by_sentences`, with the overlap as written or fixed. */
  method ChunkSentences(text: string, tk: Tokenizer, cfg: Config, fixedOverlap: bool) returns (chunks: seq<Chunk>)
    ensures WellFormedChunks(chunks)
    ensures chunks == [] <==> forall p :: p in SplitSentences(text) ==> IsBlank(p)
    ensures SentencesKept(SplitSentences(text), |SplitSentences(text)|, chunks, "")
  {
    var sentences := SplitSentences(text);
    chunks := [];
    var current := "";
    var currentTokens: nat := 0;
    var startIndex := 0;
    var i := 0;
    while i < |sentences|
      invariant i <= |sentences| && SentenceLoop(sentences, i, chunks, current)
    {
      chunks, current, currentTokens, startIndex := SentenceStep(sentences, i, chunks, current, currentTokens, startIndex, tk, cfg, fixedOverlap);
      i := i + 1;
    }
    chunks := CloseLast(sentences, chunks, current, currentTokens, startIndex);
    assert forall p :: p in sentences ==> exists j :: 0 <= j < |sentences| && sentences[j] == p;
  }

  /** What the `chunk_by_sentences` loop keeps once the first `i` sentences are read. */
  predicate SentenceLoop(sentences: seq<string>, i: nat, chunks: seq<Chunk>, current: string)
    requires i <= |sentences|
  {
    WellFormedChunks(chunks)
    && (current == "" || !IsBlank(current))
    && ((chunks == [] && current == "") <==> forall j :: 0 <= j < i ==> IsBlank(sentences[j]))
    && SentencesKept(sentences, i, chunks, current)
  }

  /** One iteration of the loop: a blank sentence is skipped, any other is added. */
  method SentenceStep(sentences: seq<string>, i: nat, chunks: seq<Chunk>, current: string, currentTokens: nat, startIndex: int,
                      tk: Tokenizer, cfg: Config, fixedOverlap: bool)
    returns (chunks': seq<Chunk>, current': string, currentTokens': nat, startIndex': int)
    requires i < |sentences| && SentenceLoop(sentences, i, chunks, current)
    ensures SentenceLoop(sentences, i + 1, chunks', current')
  {
    var sentence := Strip(sentences[i]);
    if sentence == "" {
      KeptAfterBlank(sentences, i, chunks, current);
      return chunks, current, currentTokens, startIndex;
    }
    StripOfNonBlank(sentences[i]);
    chunks', current', currentTokens', startIndex' := AddSentence(chunks, current, currentTokens, startIndex, sentence, tk, cfg, fixedOverlap);
    KeptAfterAdd(sentences, i, chunks, current, chunks', current');
  }

  /** After the loop: the last chunk is closed when it is not blank. */
  method CloseLast(sentences: seq<string>, chunks: seq<Chunk>, current: string, currentTokens: nat, startIndex: int)
    returns (chunks': seq<Chunk>)
    requires SentenceLoop(sentences, |sentences|, chunks, current)
    ensures WellFormedChunks(chunks')
    ensures chunks' == [] <==> forall j :: 0 <= j < |sentences| ==> IsBlank(sentences[j])
    ensures SentencesKept(sentences, |sentences|, chunks', "")
  {
    chunks' := chunks;
    if Strip(current) != "" {
      StripOfNonBlank(current);
      var closed := Chunk(Strip(current), startIndex, startIndex + |current|, currentTokens, |chunks|);
      WellFormedSnoc(chunks, closed);
      chunks' := chunks + [closed];
      assert chunks'[..|chunks|] == chunks;
    }
    KeptAfterClose(sentences, chunks, current, chunks');
  }

  /** Chunks numbered by position, each with non-empty stripped content that fits in
      its character span. */
  predicate WellFormedChunks(chunks: seq<Chunk>) {
    forall k :: 0 <= k < |chunks| ==>
      chunks[k].chunkId == k && chunks[k].content != [] && Stripped(chunks[k].content)
      && chunks[k].startIndex + |chunks[k].content| <= chunks[k].endIndex
  }

  /** `t` occurs in some closed chunk or in the chunk being built. */
  predicate Holds(chunks: seq<Chunk>, current: string, t: string) {
    (exists k :: 0 <= k < |chunks| && Contains(chunks[k].content, t)) || Contains(current, t)
  }

  /** Every non-blank sentence before `i`, stripped, occurs in some chunk or in the
      chunk being built. */
  predicate SentencesKept(sentences: seq<string>, i: nat, chunks: seq<Chunk>, current: string)
    requires i <= |sentences|
  {
    forall j :: 0 <= j < i && !IsBlank(sentences[j]) ==> Holds(chunks, current, Strip(sentences[j]))
  }

  /** A character that is not whitespace lies inside the stripped part. */
  lemma KeptByStrip(s: string, k: nat)
    requires k < |s| && !IsSpace(s[k])
    ensures StripStart(s) <= k < StripEnd(s)
  {
    var r := Strip(s);
  }

  /** A text with no whitespace at either end that occurs in `s` still occurs once `s`
      is stripped. */
  lemma ContainsInStrip(s: string, t: string)
    requires t != [] && Stripped(t) && Contains(s, t)
    ensures Contains(Strip(s), t)
  {
    var k :| 0 <= k <= |s| && OccursAt(s, t, k);
    assert s[k] == t[0] && s[k + |t| - 1] == t[|t| - 1];
    KeptByStrip(s, k);
    KeptByStrip(s, k + |t| - 1);
    OccursInSlice(s, StripStart(s), StripEnd(s), t, k);
  }

  /** An occurrence that lies within `[lo, hi)` is an occurrence in `s[lo..hi]`. */
  lemma OccursInSlice(s: string, lo: nat, hi: nat, t: string, k: nat)
    requires lo <= k && k + |t| <= hi <= |s| && OccursAt(s, t, k)
    ensures OccursAt(s[lo..hi], t, k - lo)
  {
    var w := s[lo..hi];
    forall i | 0 <= i < |t| ensures w[k - lo + i] == t[i] {
      assert w[k - lo + i] == s[k + i];
      assert s[k..k + |t|][i] == s[k + i];
    }
    assert w[k - lo..k - lo + |t|] == t;
  }

  lemma KeptAfterBlank(sentences: seq<string>, i: nat, chunks: seq<Chunk>, current: string)
    requires i < |sentences| && IsBlank(sentences[i])
    requires SentencesKept(sentences, i, chunks, current)
    ensures SentencesKept(sentences, i + 1, chunks, current)
  {
    forall j | 0 <= j < i + 1 && !IsBlank(sentences[j])
      ensures Holds(chunks, current, Strip(sentences[j]))
    {
      assert j < i;
    }
  }

  lemma KeptAfterAdd(sentences: seq<string>, i: nat, chunks: seq<Chunk>, current: string,
                     chunks': seq<Chunk>, current': string)
    requires i < |sentences| && !IsBlank(sentences[i])
    requires SentencesKept(sentences, i, chunks, current)
    requires Contains(current', Strip(sentences[i]))
    requires forall t :: t != [] && Stripped(t) && Holds(chunks, current, t) ==> Holds(chunks', current', t)
    ensures SentencesKept(sentences, i + 1, chunks', current')
  {
    forall j | 0 <= j < i + 1 && !IsBlank(sentences[j])
      ensures Holds(chunks', current', Strip(sentences[j]))
    {
      if j < i {
        assert Holds(chunks, current, Strip(sentences[j]));
      }
    }
  }

  /** Closing the current chunk loses nothing: what it held is now in the closed chunk. */
  lemma HoldsAfterClose(chunks: seq<Chunk>, current: string, chunks': seq<Chunk>, current': string)
    requires |chunks'| == |chunks| + 1 && chunks'[..|chunks|] == chunks && chunks'[|chunks|].content == Strip(current)
    ensures forall t :: t != [] && Stripped(t) && Holds(chunks, current, t) ==> Holds(chunks', current', t)
  {
    forall t | t != [] && Stripped(t) && Holds(chunks, current, t)
      ensures Holds(chunks', current', t)
    {
      if exists k :: 0 <= k < |chunks| && Contains(chunks[k].content, t) {
        var k :| 0 <= k < |chunks| && Contains(chunks[k].content, t);
        assert chunks'[k] == chunks[..|chunks|][k];
      } else {
        ContainsInStrip(current, t);
        assert Contains(chunks'[|chunks|].content, t);
      }
    }
  }

  /** Appending to the current chunk loses nothing. */
  lemma HoldsAfterJoin(chunks: seq<Chunk>, current: string, rest: string)
    ensures forall t :: Holds(chunks, current, t) ==> Holds(chunks, current + rest, t)
  {
    forall t | Holds(chunks, current, t)
      ensures Holds(chunks, current + rest, t)
    {
      if Contains(current, t) {
        ContainsBefore(current, rest, t);
      }
    }
  }

  lemma KeptAfterClose(sentences: seq<string>, chunks: seq<Chunk>, current: string, chunks': seq<Chunk>)
    requires SentencesKept(sentences, |sentences|, chunks, current)
    requires current == "" || !IsBlank(current)
    requires Strip(current) != "" ==> |chunks'| == |chunks| + 1 && chunks'[..|chunks|] == chunks && chunks'[|chunks|].content == Strip(current)
    requires Strip(current) == "" ==> chunks' == chunks
    ensures SentencesKept(sentences, |sentences|, chunks', "")
  {
    if Strip(current) != "" {
      HoldsAfterClose(chunks, current, chunks', "");
    }
    forall j | 0 <= j < |sentences| && !IsBlank(sentences[j])
      ensures Holds(chunks', "", Strip(sentences[j]))
    {
      var t := Strip(sentences[j]);
      assert Holds(chunks, current, t);
      StripOfNonBlank(sentences[j]);
    }
  }

  /** A well-formed list stays well-formed when the next-numbered chunk is added. */
  lemma WellFormedSnoc(chunks: seq<Chunk>, c: Chunk)
    requires WellFormedChunks(chunks)
    requires c.chunkId == |chunks| && c.content != [] && Stripped(c.content) && c.startIndex + |c.content| <= c.endIndex
    ensures WellFormedChunks(chunks + [c])
  {
  }

  /** One pass of the `chunk_by_sentences` loop for a sentence that is not blank: when
      it would take the current chunk over the limit, the chunk is closed and the next
      one starts with the overlap text; otherwise the sentence joins the current chunk. */
  method AddSentence(chunks: seq<Chunk>, current: string, currentTokens: nat, startIndex: int,
                     sentence: string, tk: Tokenizer, cfg: Config, fixedOverlap: bool)
    returns (chunks': seq<Chunk>, current': string, currentTokens': nat, startIndex': int)
    requires !IsBlank(sentence) && Stripped(sentence)
    requires current == "" || !IsBlank(current)
    ensures !IsBlank(current') && currentTokens' == |tk.encode(current')|
    ensures chunks' == chunks || (current != "" && currentTokens + |tk.encode(sentence)| > cfg.chunkSize
      && |chunks'| == |chunks| + 1 && chunks'[..|chunks|] == chunks
      && chunks'[|chunks|] == Chunk(Strip(current), startIndex, startIndex + |current|, currentTokens, |chunks|)
      && current' == CarriedOverlap(current, tk, cfg.overlapSize, fixedOverlap) + " " + sentence)
    ensures chunks' == chunks ==> current' == (if current == "" then sentence else current + " " + sentence)
    ensures WellFormedChunks(chunks) ==> WellFormedChunks(chunks')
    ensures Contains(current', sentence)
    ensures forall t :: t != [] && Stripped(t) && Holds(chunks, current, t) ==> Holds(chunks', current', t)
  {
    var sentenceTokens := |tk.encode(sentence)|;
    chunks' := chunks;
    startIndex' := startIndex;
    if currentTokens + sentenceTokens > cfg.chunkSize && current != "" {
      StripOfNonBlank(current);
      var content := Strip(current);
      var closed := Chunk(content, startIndex, startIndex + |current|, currentTokens, |chunks|);
      chunks' := chunks + [closed];
      if WellFormedChunks(chunks) {
        WellFormedSnoc(chunks, closed);
      }
      var overlap := CarriedOverlap(current, tk, cfg.overlapSize, fixedOverlap);
      NonBlankAfterSpace(overlap, sentence);
      current' := overlap + " " + sentence;
      startIndex' := startIndex + |content| - |overlap|;
      ContainsAppended(overlap + " ", sentence);
      assert chunks'[..|chunks|] == chunks;
      HoldsAfterClose(chunks, current, chunks', current');
    } else if current != "" {
      NonBlankAfterSpace(current, sentence);
      current' := current + " " + sentence;
      ContainsAppended(current + " ", sentence);
      HoldsAfterJoin(chunks, current, " " + sentence);
      assert current + (" " + sentence) == current';
    } else {
      current' := sentence;
      ContainsAppended("", sentence);
      assert "" + sentence == sentence;
      HoldsAfterJoin(chunks, current, sentence);
      assert current + sentence == current';
    }
    currentTokens' := |tk.encode(current')|;
  }

  // ---------------------------------------------------------------------------
  // Statistics
  // ---------------------------------------------------------------------------

  /** `get_chunk_stats` without the float average. */
  datatype Stats = Stats(totalChunks: nat, totalTokens: nat, minTokens: nat, maxTokens: nat)

  function TokenSum(chunks: seq<Chunk>): nat {
    if |chunks| == 0 then 0 else TokenSum(chunks[..|chunks| - 1]) + chunks[|chunks| - 1].tokenCount
  }

  function MinTokens(chunks: seq<Chunk>): (m: nat)
    requires |chunks| > 0
    ensures forall k :: 0 <= k < |chunks| ==> m <= chunks[k].tokenCount
    ensures exists k :: 0 <= k < |chunks| && m == chunks[k].tokenCount
  {
    if |chunks| == 1 then chunks[0].tokenCount
    else
      var m := MinTokens(chunks[1..]);
      assert forall k :: 1 <= k < |chunks| ==> chunks[k] == chunks[1..][k - 1];
      if chunks[0].tokenCount <= m then chunks[0].tokenCount else m
  }

  function MaxTokens(chunks: seq<Chunk>): (m: nat)
    requires |chunks| > 0
    ensures forall k :: 0 <= k < |chunks| ==> chunks[k].tokenCount <= m
    ensures exists k :: 0 <= k < |chunks| && m == chunks[k].tokenCount
  {
    if |chunks| == 1 then chunks[0].tokenCount
    else
      var m := MaxTokens(chunks[1..]);
      assert forall k :: 1 <= k < |chunks| ==> chunks[k] == chunks[1..][k - 1];
      if chunks[0].tokenCount >= m then chunks[0].tokenCount else m
  }

  function ChunkStats(chunks: seq<Chunk>): (st: Stats)
    ensures chunks == [] ==> st == Stats(0, 0, 0, 0)
    ensures chunks != [] ==> st.totalChunks == |chunks| && st.totalTokens == TokenSum(chunks)
    ensures chunks != [] ==> st.minTokens <= st.maxTokens
    ensures forall k :: 0 <= k < |chunks| ==> st.minTokens <= chunks[k].tokenCount <= st.maxTokens
  {
    if |chunks| == 0 then Stats(0, 0, 0, 0)
    else Stats(|chunks|, TokenSum(chunks), MinTokens(chunks), MaxTokens(chunks))
  }

  /** The token total lies between the chunk count times the minimum and times the maximum. */
  lemma MulStep(n: int, x: int)
    ensures (n - 1) * x + x == n * x
  {
  }

  lemma {:induction false} TokenSumBounds(chunks: seq<Chunk>, lo: nat, hi: nat)
    requires forall k :: 0 <= k < |chunks| ==> lo <= chunks[k].tokenCount <= hi
    ensures |chunks| * lo <= TokenSum(chunks) <= |chunks| * hi
    decreases |chunks|
  {
    if |chunks| > 0 {
      TokenSumBounds(chunks[..|chunks| - 1], lo, hi);
      MulStep(|chunks|, lo);
      MulStep(|chunks|, hi);
    }
  }

  lemma ChunkStatsBounds(chunks: seq<Chunk>)
    requires chunks != []
    ensures var st := ChunkStats(chunks);
      st.totalChunks * st.minTokens <= st.totalTokens <= st.totalChunks * st.maxTokens
  {
    var st := ChunkStats(chunks);
    TokenSumBounds(chunks, st.minTokens, st.maxTokens);
  }
}
