/** The WebVTT subtitle parser of the transcript summariser
    (`transcript_summarizer/src/core/vtt_parser.py`): caption text cleaning,
    the filtering of empty captions, and the two transcript renderings.
    The subtitle library itself (`webvtt.read`) is an oracle that yields the
    captions of a file or fails with a message. */
module VttParser {
  import opened Wrappers
  import opened Text
  import opened Tags

  /** One cue as the subtitle library yields it: start, end and raw text. */
  datatype Caption = Caption(start: string, end: string, text: string)

  /** `TranscriptSegment` */
  datatype Segment = Segment(startTime: string, endTime: string, text: string)

  /** The parser object: its only state is the `segments` of the last successful parse. */
  datatype Parser = Parser(segments: seq<Segment>)

  /** What a parse returns (the segments, or the `ValueError` message) and the parser afterwards. */
  datatype Parsed = Parsed(result: Result<seq<Segment>, string>, parser: Parser)

  /** `webvtt.read`: the captions of a file, or the message of the exception it raised. */
  type Reader = string -> Result<seq<Caption>, string>

  const InitialParser := Parser([])

  // ---------------------------------------------------------------------------
  // Text cleaning
  // ---------------------------------------------------------------------------

  /** Every whitespace character is a plain space with no whitespace after it. */
  ghost predicate SingleSpaced(s: string) {
    (forall i :: 0 <= i < |s| && IsSpace(s[i]) ==> s[i] == ' ')
    && forall i, j :: 0 <= i < j < |s| && j == i + 1 ==> !(IsSpace(s[i]) && IsSpace(s[j]))
  }

  /** `re.sub(r'\s+', ' ', s)`: every maximal run of whitespace becomes one space. */
  function CollapseSpaces(s: string): (r: string)
    ensures SingleSpaced(r)
    ensures |s| > 0 ==> |r| > 0 && (IsSpace(r[0]) <==> IsSpace(s[0]))
    ensures |s| > 0 && !IsSpace(s[0]) ==> r[0] == s[0]
    ensures forall k :: 0 <= k < |r| && !IsSpace(r[k]) ==> r[k] in s
    decreases |s|
  {
    if s == [] then []
    else if IsSpace(s[0]) then " " + CollapseSpaces(s[LeadingSpaces(s)..])
    else [s[0]] + CollapseSpaces(s[1..])
  }

  /** `_clean_text`: remove tags, collapse whitespace runs, strip both ends. */
  function CleanText(s: string): (r: string)
    ensures NoTag(r) && SingleSpaced(r) && Stripped(r)
  {
    CleanTextNormalForm(s);
    Strip(CollapseSpaces(StripTags(s)))
  }

  lemma SingleSpacedSlice(s: string, a: nat, b: nat)
    requires SingleSpaced(s) && a <= b <= |s|
    ensures SingleSpaced(s[a..b])
  {
    var t := s[a..b];
    forall i | 0 <= i < |t| && IsSpace(t[i]) ensures t[i] == ' ' {
      assert t[i] == s[a + i];
    }
    forall i, j | 0 <= i < j < |t| && j == i + 1 ensures !(IsSpace(t[i]) && IsSpace(t[j])) {
      assert t[i] == s[a + i] && t[j] == s[a + j];
    }
  }

  /** Collapsing whitespace cannot create a tag. */
  lemma {:induction false} CollapseKeepsNoTag(s: string)
    requires NoTag(s)
    ensures NoTag(CollapseSpaces(s))
    decreases |s|
  {
    if s != [] {
      if IsSpace(s[0]) {
        NoTagSlice(s, LeadingSpaces(s), |s|);
        CollapseKeepsNoTag(s[LeadingSpaces(s)..]);
        NoTagCons(' ', CollapseSpaces(s[LeadingSpaces(s)..]));
      } else {
        var t := s[1..];
        NoTagSlice(s, 1, |s|);
        CollapseKeepsNoTag(t);
        var ct := CollapseSpaces(t);
        if s[0] == '<' && !(|t| > 0 && t[0] == '>') {
          forall m | 0 <= m < |t| ensures t[m] != '>' {
            assert s[m + 1] == t[m];
          }
        }
        NoTagCons(s[0], ct);
      }
    }
  }

  /** Each step of `_clean_text` keeps what the previous ones achieved: no tag, single spaces, stripped. */
  lemma CleanTextNormalForm(s: string)
    ensures NoTag(Strip(CollapseSpaces(StripTags(s))))
    ensures SingleSpaced(Strip(CollapseSpaces(StripTags(s))))
    ensures Stripped(Strip(CollapseSpaces(StripTags(s))))
  {
    var c := CollapseSpaces(StripTags(s));
    StripTagsLeavesNoTag(s);
    CollapseKeepsNoTag(StripTags(s));
    NoTagSlice(c, StripStart(c), StripEnd(c));
    SingleSpacedSlice(c, StripStart(c), StripEnd(c));
  }

  lemma {:induction false} CollapseOfSingleSpaced(s: string)
    requires SingleSpaced(s)
    ensures CollapseSpaces(s) == s
    decreases |s|
  {
    if s != [] {
      SingleSpacedSlice(s, 1, |s|);
      CollapseOfSingleSpaced(s[1..]);
      if IsSpace(s[0]) {
        assert LeadingSpaces(s) == 1;
      }
      assert s == [s[0]] + s[1..];
    }
  }

  /** Cleaning cleaned text changes nothing. */
  lemma {:induction false} CleanTextIdempotent(s: string)
    ensures CleanText(CleanText(s)) == CleanText(s)
  {
    var c := CleanText(s);
    StripTagsOfNoTag(c);
    CollapseOfSingleSpaced(c);
    StripOfStripped(c);
  }

  // ---------------------------------------------------------------------------
  // Parsing
  // ---------------------------------------------------------------------------

  function FromCaption(c: Caption): Segment {
    Segment(c.start, c.end, CleanText(c.text))
  }

  /** The test `if clean_text.strip()`: a caption is kept when its cleaned text is not
      blank, which for cleaned text means not empty. */
  predicate Keeps(c: Caption)
    ensures Keeps(c) <==> FromCaption(c).text != ""
  {
    CleanTextBlank(c.text);
    Strip(CleanText(c.text)) != ""
  }

  /** The loop of `parse_file`: clean every caption, keep those whose cleaned text is
      not blank, in their original order. */
  function KeepCaptions(captions: seq<Caption>): (segs: seq<Segment>)
    ensures |segs| <= |captions|
    ensures forall g :: g in segs ==> g.text != ""
  {
    if |captions| == 0 then []
    else
      var rest := KeepCaptions(captions[1..]);
      if Keeps(captions[0]) then [FromCaption(captions[0])] + rest else rest
  }

  /** A caption yields a segment exactly when its cleaned text is not empty, and every
      segment is the cleaned form of some caption. */
  lemma {:induction false} KeepCaptionsMembers(captions: seq<Caption>)
    ensures forall c :: c in captions && CleanText(c.text) != "" ==> FromCaption(c) in KeepCaptions(captions)
    ensures forall g :: g in KeepCaptions(captions) ==> exists c :: c in captions && g == FromCaption(c)
  {
    if |captions| > 0 {
      KeepCaptionsMembers(captions[1..]);
      CleanTextBlank(captions[0].text);
      assert forall c :: c in captions ==> c == captions[0] || c in captions[1..];
      forall g | g in KeepCaptions(captions) ensures exists c :: c in captions && g == FromCaption(c) {
        if g !in KeepCaptions(captions[1..]) {
          assert g == FromCaption(captions[0]);
        } else {
          var c :| c in captions[1..] && g == FromCaption(c);
          assert c in captions;
        }
      }
    }
  }

  lemma CleanTextBlank(s: string)
    ensures Strip(CleanText(s)) == "" <==> CleanText(s) == ""
  {
    StripOfStripped(CleanText(s));
  }

  /** Captions are kept in order: the filter distributes over concatenation. */
  lemma {:induction false} KeepCaptionsAppend(a: seq<Caption>, b: seq<Caption>)
    ensures KeepCaptions(a + b) == KeepCaptions(a) + KeepCaptions(b)
    decreases |a|
  {
    if |a| == 0 {
      assert a + b == b;
    } else {
      assert (a + b)[0] == a[0];
      assert (a + b)[1..] == a[1..] + b;
      KeepCaptionsAppend(a[1..], b);
    }
  }

  /** `parse_file`: on success the parser's segments are replaced; any failure of the
      reader becomes `ValueError("Error parsing VTT file: ...")` and the parser keeps its segments. */
  function ParseFile(p: Parser, path: string, read: Reader): (out: Parsed)
    ensures read(path).Failure? ==> out == Parsed(Failure("Error parsing VTT file: " + read(path).error), p)
    ensures read(path).Success? ==>
      out.result.Success? && out.parser.segments == out.result.value
      && forall g :: g in out.result.value ==> g.text != ""
  {
    match read(path)
    case Failure(e) => Parsed(Failure("Error parsing VTT file: " + e), p)
    case Success(captions) =>
      var segs := KeepCaptions(captions);
      Parsed(Success(segs), Parser(segs))
  }

  /** `parse_content`: blank content returns `[]` without reading anything; otherwise the
      content is read as a file and a failure is wrapped once more. The blank case leaves
      the parser's previous segments in place. */
  function ParseContent(p: Parser, content: string, read: Reader): (out: Parsed)
    ensures IsBlank(content) ==> out == Parsed(Success([]), p)
    ensures !IsBlank(content) && read(content).Failure? ==>
      out.result == Failure("Error parsing VTT content: " + ("Error parsing VTT file: " + read(content).error))
      && out.parser == p
    ensures !IsBlank(content) && read(content).Success? ==>
      out.result.Success? && out.parser.segments == out.result.value
      && out.parser == Parser(KeepCaptions(read(content).value))
  {
    if content == "" || Strip(content) == "" then Parsed(Success([]), p)
    else
      var r := ParseFile(p, content, read);
      match r.result
      case Failure(e) => Parsed(Failure("Error parsing VTT content: " + e), r.parser)
      case Success(_) => r
  }

  /** The same operation with the parser reset on blank content, so that the transcript
      read afterwards belongs to this content and not to an earlier one. */
  function ParseContentFresh(p: Parser, content: string, read: Reader): (out: Parsed)
    ensures out.result.Success? ==> out.parser.segments == out.result.value
    ensures IsBlank(content) ==> out == Parsed(Success([]), InitialParser)
  {
    if content == "" || Strip(content) == "" then Parsed(Success([]), InitialParser)
    else ParseContent(p, content, read)
  }

  /** As written, blank content after an earlier parse leaves that earlier transcript readable. */
  lemma BlankContentKeepsStaleTranscript(read: Reader)
    ensures var p := Parser([Segment("00:00:00.000", "00:00:03.000", "Hello")]);
      var out := ParseContent(p, "", read);
      out.result == Success([]) && FullTranscript(out.parser) == "Hello"
  {
  }

  /** With the reset, blank content always leaves an empty transcript. */
  lemma BlankContentClearsTranscript(p: Parser, content: string, read: Reader)
    requires IsBlank(content)
    ensures FullTranscript(ParseContentFresh(p, content, read).parser) == ""
    ensures TranscriptWithTimestamps(ParseContentFresh(p, content, read).parser) == ""
  {
  }

  // ---------------------------------------------------------------------------
  // Renderings
  // ---------------------------------------------------------------------------

  function Texts(segs: seq<Segment>): (ts: seq<string>)
    ensures |ts| == |segs| && forall k :: 0 <= k < |segs| ==> ts[k] == segs[k].text
  {
    seq(|segs|, k requires 0 <= k < |segs| => segs[k].text)
  }

  /** `get_full_transcript`: the segment texts joined by single spaces. */
  function FullTranscript(p: Parser): (r: string)
    ensures p.segments == [] ==> r == ""
    ensures |p.segments| == 1 ==> r == p.segments[0].text
  {
    Join(" ", Texts(p.segments))
  }

  /** The full transcript splits into exactly the words of the segments, in order. */
  lemma FullTranscriptWords(p: Parser)
    ensures Words(FullTranscript(p)) == WordsOfAll(Texts(p.segments))
  {
    WordsOfSpaceJoin(Texts(p.segments));
  }

  /** One line of `get_transcript_with_timestamps`. */
  function TimestampLine(s: Segment): string
  {
    "[" + s.startTime + " -> " + s.endTime + "] " + s.text
  }

  function TimestampLines(segs: seq<Segment>): (ls: seq<string>)
    ensures |ls| == |segs| && forall k :: 0 <= k < |segs| ==> ls[k] == TimestampLine(segs[k])
  {
    seq(|segs|, k requires 0 <= k < |segs| => TimestampLine(segs[k]))
  }

  /** `get_transcript_with_timestamps`: one line per segment, joined by newlines. */
  function TranscriptWithTimestamps(p: Parser): (r: string)
    ensures p.segments == [] ==> r == ""
    ensures |p.segments| == 1 ==> r == TimestampLine(p.segments[0])
  {
    Join("\n", TimestampLines(p.segments))
  }

  predicate NoNewline(s: string) {
    forall k :: 0 <= k < |s| ==> s[k] != '\n'
  }

  /** Splitting the timestamped transcript at newlines recovers one line per segment,
      provided no timestamp or text contains a newline (cleaned texts never do). */
  lemma TimestampedTranscriptLines(p: Parser)
    requires |p.segments| > 0
    requires forall k :: 0 <= k < |p.segments| ==>
      NoNewline(p.segments[k].startTime) && NoNewline(p.segments[k].endTime) && NoNewline(p.segments[k].text)
    ensures SplitOn(TranscriptWithTimestamps(p), '\n') == TimestampLines(p.segments)
  {
    var ls := TimestampLines(p.segments);
    forall i, k | 0 <= i < |ls| && 0 <= k < |ls[i]| ensures ls[i][k] != '\n' {
      var s := p.segments[i];
      assert ls[i] == "[" + s.startTime + " -> " + s.endTime + "] " + s.text;
    }
    SplitOnJoin(ls, '\n');
  }

  /** Cleaned text never holds a newline. */
  lemma CleanTextHasNoNewline(s: string)
    ensures NoNewline(CleanText(s))
  {
    var r := CleanText(s);
    forall k | 0 <= k < |r| ensures r[k] != '\n' {
      if r[k] == '\n' {
        assert IsSpace(r[k]);
      }
    }
  }
}
