/** The notification tool of the research agent that reports through Pushover
    (`deep_research_with_pushover_report/pushover_notification_agent.py`): the report is
    cleaned of HTML and markdown by five regular-expression substitutions in a fixed
    order, cut to 900 characters when longer, posted, and the HTTP status is mapped
    to `"success"` or `"error"`. The HTTP post is an oracle. */
module Pushover {
  import opened Wrappers
  import opened Text
  import opened Tags

  // ---------------------------------------------------------------------------
  // `re.sub(r'#{1,6}\s*', '', s)`
  // ---------------------------------------------------------------------------

  /** Number of `c` characters that start `s`: the run a greedy `c+` consumes. */
  function LeadingRun(s: string, c: char): (k: nat)
    ensures k <= |s|
    ensures forall i :: 0 <= i < k ==> s[i] == c
    ensures k < |s| ==> s[k] != c
  {
    if |s| > 0 && s[0] == c then 1 + LeadingRun(s[1..], c) else 0
  }

  /** Length of the header marker `#{1,6}\s*` that starts `s` (`s` starts with `#`):
      at most six `#`, then the whole whitespace run after them. */
  function MarkerLength(s: string): (k: nat)
    requires |s| > 0 && s[0] == '#'
    ensures 1 <= k <= |s|
  {
    var h := Min(LeadingRun(s, '#'), 6);
    h + LeadingSpaces(s[h..])
  }

  function Min(a: int, b: int): int {
    if a <= b then a else b
  }

  /** Header markers deleted: scanning left to right, every `#` starts a match, which
      is removed together with the whitespace after it; every other character is kept. */
  function StripHeaders(s: string): (r: string)
    ensures |r| <= |s|
    decreases |s|
  {
    if s == [] then []
    else if s[0] == '#' then StripHeaders(s[MarkerLength(s)..])
    else [s[0]] + StripHeaders(s[1..])
  }

  /** No `#` survives the header step. */
  lemma {:induction false} StripHeadersRemovesHashes(s: string)
    ensures '#' !in StripHeaders(s)
    decreases |s|
  {
    if s != [] {
      if s[0] == '#' {
        StripHeadersRemovesHashes(s[MarkerLength(s)..]);
      } else {
        StripHeadersRemovesHashes(s[1..]);
      }
    }
  }

  /** Text without `#` passes through the header step unchanged. */
  lemma {:induction false} StripHeadersOfHashFree(s: string)
    requires '#' !in s
    ensures StripHeaders(s) == s
    decreases |s|
  {
    if s != [] {
      assert s[0] != '#';
      assert '#' !in s[1..] by {
        forall k | 0 <= k < |s| - 1 ensures s[1..][k] != '#' {
          assert s[1..][k] == s[k + 1];
        }
      }
      StripHeadersOfHashFree(s[1..]);
      assert s == [s[0]] + s[1..];
    }
  }

  /** The header step only deletes characters: nothing absent from the input appears. */
  lemma {:induction false} StripHeadersKeepsAbsent(s: string, c: char)
    requires c !in s
    ensures c !in StripHeaders(s)
    decreases |s|
  {
    if s != [] {
      var n := if s[0] == '#' then MarkerLength(s) else 1;
      AbsentFromSuffix(s, n, c);
      StripHeadersKeepsAbsent(s[n..], c);
    }
  }

  lemma AbsentFromSuffix(s: string, n: nat, c: char)
    requires n <= |s| && c !in s
    ensures c !in s[n..]
  {
    forall k | 0 <= k < |s| - n ensures s[n..][k] != c {
      assert s[n..][k] == s[n + k];
    }
  }

  lemma AbsentFromJoin(a: string, b: string, c: char)
    requires c !in a && c !in b
    ensures c !in a + b
  {
  }

  lemma AbsentFromSlice(s: string, lo: nat, hi: nat, c: char)
    requires lo <= hi <= |s| && c !in s
    ensures c !in s[lo..hi]
  {
    forall k | 0 <= k < hi - lo ensures s[lo..hi][k] != c {
      assert s[lo..hi][k] == s[lo + k];
    }
  }

  // ---------------------------------------------------------------------------
  // `re.sub(r'\*\*(.*?)\*\*', r'\1', s)` and `re.sub(r'\*(.*?)\*', r'\1', s)`
  // ---------------------------------------------------------------------------

  /** Where the lazy `(.*?)` followed by the closing delimiter `d` ends, when the
      group starts at `from`: the first occurrence of `d` at or after `from` that
      is not preceded by a newline (`.` does not match `\n`). */
  function CloseFrom(s: string, d: string, from: nat): (r: Option<nat>)
    requires |d| > 0
    ensures r.Some? ==> from <= r.value && r.value + |d| <= |s|
    decreases |s| - from
  {
    if from + |d| > |s| then None
    else if s[from..from + |d|] == d then Some(from)
    else if s[from] == '\n' then None
    else CloseFrom(s, d, from + 1)
  }

  /** A close that is found is an occurrence of `d`, and the group before it is
      on one line and holds no earlier occurrence. */
  lemma {:induction false} CloseFound(s: string, d: string, from: nat)
    requires |d| > 0 && CloseFrom(s, d, from).Some?
    ensures OccursAt(s, d, CloseFrom(s, d, from).value)
    ensures forall k :: from <= k < CloseFrom(s, d, from).value ==> s[k] != '\n' && !OccursAt(s, d, k)
    decreases |s| - from
  {
    if from + |d| <= |s| && s[from..from + |d|] != d && s[from] != '\n' {
      CloseFound(s, d, from + 1);
    }
  }

  /** When no close is found, every later occurrence of `d` is on a later line. */
  lemma {:induction false} CloseMissing(s: string, d: string, from: nat, j: nat)
    requires |d| > 0 && CloseFrom(s, d, from).None?
    requires from <= j && OccursAt(s, d, j)
    ensures '\n' in s[from..j]
    decreases |s| - from
  {
    if s[from..from + |d|] == d {
    } else if s[from] == '\n' {
      assert s[from..j][0] == '\n';
    } else {
      CloseMissing(s, d, from + 1, j);
      assert s[from + 1..j] == s[from..j][1..];
    }
  }

  /** Every `d`-delimited span that stays within one line is replaced by its inside;
      the regular expression engine scans left to right and resumes after each match. */
  function Unwrap(s: string, d: string): (r: string)
    requires |d| > 0
    ensures |r| <= |s|
    decreases |s|
  {
    if s == [] then []
    else if OccursAt(s, d, 0) then
      match CloseFrom(s, d, |d|)
      case Some(j) => s[|d|..j] + Unwrap(s[j + |d|..], d)
      case None => [s[0]] + Unwrap(s[1..], d)
    else [s[0]] + Unwrap(s[1..], d)
  }

  /** A delimited span on one line is replaced by its inside, and the scan resumes after it. */
  lemma UnwrapPair(s: string, d: string)
    requires |d| > 0 && OccursAt(s, d, 0) && CloseFrom(s, d, |d|).Some?
    ensures var j := CloseFrom(s, d, |d|).value;
      j + |d| <= |s| && Unwrap(s, d) == s[|d|..j] + Unwrap(s[j + |d|..], d)
  {
    assert s != [];
  }

  /** Anywhere else the first character is kept and the scan moves on by one. */
  lemma UnwrapChar(s: string, d: string)
    requires |d| > 0 && s != [] && !(OccursAt(s, d, 0) && CloseFrom(s, d, |d|).Some?)
    ensures Unwrap(s, d) == [s[0]] + Unwrap(s[1..], d)
  {
  }

  /** Text in which the delimiter never occurs passes through unchanged. */
  lemma {:induction false} UnwrapWithoutDelimiter(s: string, d: string)
    requires |d| > 0 && !Contains(s, d)
    ensures Unwrap(s, d) == s
    decreases |s|
  {
    if s != [] {
      assert !OccursAt(s, d, 0);
      assert !Contains(s[1..], d) by {
        if Contains(s[1..], d) {
          var k :| 0 <= k <= |s[1..]| && OccursAt(s[1..], d, k);
          assert s[k + 1..k + 1 + |d|] == s[1..][k..k + |d|];
          assert OccursAt(s, d, k + 1);
        }
      }
      UnwrapWithoutDelimiter(s[1..], d);
      assert s == [s[0]] + s[1..];
    }
  }

  /** Unwrapping only deletes delimiter characters: nothing absent from the input appears. */
  lemma {:induction false} UnwrapKeepsAbsent(s: string, d: string, c: char)
    requires |d| > 0 && c !in s
    ensures c !in Unwrap(s, d)
    decreases |s|
  {
    if s != [] {
      if OccursAt(s, d, 0) && CloseFrom(s, d, |d|).Some? {
        var j := CloseFrom(s, d, |d|).value;
        UnwrapPair(s, d);
        var inside, rest := s[|d|..j], s[j + |d|..];
        AbsentFromSlice(s, |d|, j, c);
        AbsentFromSuffix(s, j + |d|, c);
        UnwrapKeepsAbsent(rest, d, c);
        AbsentFromJoin(inside, Unwrap(rest, d), c);
      } else {
        var rest := s[1..];
        AbsentFromSuffix(s, 1, c);
        UnwrapKeepsAbsent(rest, d, c);
        UnwrapChar(s, d);
        AbsentFromJoin([s[0]], Unwrap(rest, d), c);
      }
    }
  }

  /** No two `*` on one line: between any two stars there is a newline. This is
      exactly when the italic substitution finds nothing to replace. */
  ghost predicate NoStarPair(s: string) {
    forall i, j :: 0 <= i < j < |s| && s[i] == '*' && s[j] == '*' ==> '\n' in s[i + 1..j]
  }

  /** A prefix without stars is copied through the italic step unchanged. */
  lemma {:induction false} UnwrapStarFreePrefix(a: string, b: string)
    requires '*' !in a
    ensures Unwrap(a + b, "*") == a + Unwrap(b, "*")
    decreases |a|
  {
    if a != [] {
      var s := a + b;
      assert s[0] == a[0] && a[0] != '*';
      assert !OccursAt(s, "*", 0);
      assert s[1..] == a[1..] + b;
      UnwrapChar(s, "*");
      assert '*' !in a[1..] by {
        forall k | 0 <= k < |a| - 1 ensures a[1..][k] != '*' {
          assert a[1..][k] == a[k + 1];
        }
      }
      UnwrapStarFreePrefix(a[1..], b);
      calc {
        Unwrap(a + b, "*");
        [s[0]] + Unwrap(s[1..], "*");
        [a[0]] + Unwrap(a[1..] + b, "*");
        [a[0]] + (a[1..] + Unwrap(b, "*"));
        { assert a == [a[0]] + a[1..]; }
        a + Unwrap(b, "*");
      }
    } else {
      assert a + b == b;
    }
  }

  /** A star-free prefix followed by a star-pair-free text is star-pair free. */
  lemma StarFreeThenNoPair(a: string, b: string)
    requires '*' !in a && NoStarPair(b)
    ensures NoStarPair(a + b)
  {
    var s := a + b;
    forall i, j | 0 <= i < j < |s| && s[i] == '*' && s[j] == '*' ensures '\n' in s[i + 1..j] {
      assert s[i] == b[i - |a|] && s[j] == b[j - |a|];
      var w := b[i - |a| + 1..j - |a|];
      assert '\n' in w;
      assert s[i + 1..j] == w;
    }
  }

  /** A lone star, the star-free rest of its line, then text that is star-pair free
      and starts on a new line, hold no star pair. */
  lemma LoneStarThenNoPair(line: string, tail: string)
    requires '*' !in line && NoStarPair(tail)
    requires tail == [] || tail[0] == '\n'
    ensures NoStarPair("*" + line + tail)
  {
    var r := "*" + line + tail;
    StarFreeThenNoPair(line, tail);
    assert r[1..] == line + tail;
    forall i, j | 0 <= i < j < |r| && r[i] == '*' && r[j] == '*' ensures '\n' in r[i + 1..j] {
      if i == 0 {
        var m := 1 + |line|;
        assert j > m && r[m] == tail[0];
        assert r[i + 1..j][m - 1] == r[m];
      } else {
        assert r[i] == (line + tail)[i - 1] && r[j] == (line + tail)[j - 1];
        assert r[i + 1..j] == (line + tail)[i..j - 1];
      }
    }
  }

  /** When no close is found from `from`, no star follows on the same line. */
  lemma {:induction false} NoStarBeforeNewline(s: string, from: nat, k: nat)
    requires from <= k < |s| && CloseFrom(s, "*", from).None?
    requires forall i :: from <= i <= k ==> s[i] != '\n'
    ensures s[k] != '*'
    decreases k - from
  {
    assert s[from..from + 1] == [s[from]];
    if from < k {
      NoStarBeforeNewline(s, from + 1, k);
    }
  }

  /** The characters after a star that has no partner, up to the end of its line,
      hold no star. */
  lemma LineAfterLoneStar(s: string, m: nat)
    requires |s| > 0 && CloseFrom(s, "*", 1).None?
    requires 1 <= m <= |s| && '\n' !in s[1..m]
    ensures '*' !in s[1..m]
  {
    forall i | 1 <= i < m ensures s[i] != '\n' {
      assert s[1..m][i - 1] == s[i];
    }
    forall k | 0 <= k < m - 1 ensures s[1..m][k] != '*' {
      NoStarBeforeNewline(s, 1, k + 1);
      assert s[1..m][k] == s[k + 1];
    }
  }

  /** After the italic substitution no line holds two stars. */
  lemma {:induction false} ItalicLeavesNoStarPair(s: string)
    ensures NoStarPair(Unwrap(s, "*"))
    decreases |s|, 1
  {
    if s == [] {
    } else if OccursAt(s, "*", 0) && CloseFrom(s, "*", 1).Some? {
      ItalicPairLeavesNoStarPair(s);
    } else if OccursAt(s, "*", 0) {
      ItalicLoneStarLeavesNoStarPair(s);
    } else {
      var t := s[1..];
      ItalicLeavesNoStarPair(t);
      StarFreeThenNoPair([s[0]], Unwrap(t, "*"));
    }
  }

  /** A star pair on one line is replaced by its star-free inside. */
  lemma {:induction false} ItalicPairLeavesNoStarPair(s: string)
    requires OccursAt(s, "*", 0) && CloseFrom(s, "*", 1).Some?
    ensures NoStarPair(Unwrap(s, "*"))
    decreases |s|, 0
  {
    var j := CloseFrom(s, "*", 1).value;
    CloseFound(s, "*", 1);
    var inside := s[1..j];
    assert '*' !in inside by {
      forall k | 0 <= k < |inside| ensures inside[k] != '*' {
        assert inside[k] == s[k + 1];
        assert s[k + 1..k + 2] == [s[k + 1]];
      }
    }
    UnwrapPair(s, "*");
    ItalicLeavesNoStarPair(s[j + 1..]);
    StarFreeThenNoPair(inside, Unwrap(s[j + 1..], "*"));
  }

  /** A star without a partner stays, followed by the star-free rest of its line. */
  lemma {:induction false} ItalicLoneStarLeavesNoStarPair(s: string)
    requires OccursAt(s, "*", 0) && CloseFrom(s, "*", 1).None?
    ensures NoStarPair(Unwrap(s, "*"))
    decreases |s|, 0
  {
    var found := CharIndexFrom(s, '\n', 1);
    var m := if found.Some? then found.value else |s|;
    assert '\n' !in s[1..m] by {
      forall k | 0 <= k < m - 1 ensures s[1..m][k] != '\n' {
        assert s[1..m][k] == s[k + 1];
      }
    }
    LineAfterLoneStar(s, m);
    var line := s[1..m];
    var rest := s[m..];
    assert s[1..] == line + rest;
    UnwrapStarFreePrefix(line, rest);
    ItalicLeavesNoStarPair(rest);
    var tail := Unwrap(rest, "*");
    if rest != [] {
      assert rest[0] == '\n' && !OccursAt(rest, "*", 0);
      assert tail == [rest[0]] + Unwrap(rest[1..], "*");
    }
    LoneStarThenNoPair(line, tail);
    assert s[0] == '*';
    assert Unwrap(s, "*") == [s[0]] + Unwrap(s[1..], "*");
    assert Unwrap(s, "*") == "*" + line + tail;
  }

  /** A star whose partner is found on its line forms a star pair. */
  lemma StarCloseIsPair(s: string)
    requires OccursAt(s, "*", 0)
    ensures CloseFrom(s, "*", 1).Some? ==> !NoStarPair(s)
  {
    if CloseFrom(s, "*", 1).Some? {
      CloseFound(s, "*", 1);
      var j := CloseFrom(s, "*", 1).value;
      assert s[0..1] == [s[0]] && s[j..j + 1] == [s[j]];
      assert '\n' !in s[1..j] by {
        forall k | 0 <= k < j - 1 ensures s[1..j][k] != '\n' {
          assert s[1..j][k] == s[k + 1];
        }
      }
    }
  }

  /** Dropping the first character keeps a text star-pair free. */
  lemma NoStarPairOfTail(s: string)
    requires |s| > 0 && NoStarPair(s)
    ensures NoStarPair(s[1..])
  {
    var t := s[1..];
    forall i, j | 0 <= i < j < |t| && t[i] == '*' && t[j] == '*' ensures '\n' in t[i + 1..j] {
      assert s[i + 1] == '*' && s[j + 1] == '*';
      assert t[i + 1..j] == s[i + 2..j + 1];
    }
  }

  /** Text with no two stars on a line passes through the italic step unchanged. */
  lemma {:induction false} ItalicOfNoStarPair(s: string)
    requires NoStarPair(s)
    ensures Unwrap(s, "*") == s
    decreases |s|
  {
    if s != [] {
      if OccursAt(s, "*", 0) {
        StarCloseIsPair(s);
      }
      var t := s[1..];
      NoStarPairOfTail(s);
      ItalicOfNoStarPair(t);
      assert Unwrap(s, "*") == [s[0]] + Unwrap(t, "*");
      assert s == [s[0]] + t;
    }
  }

  /** The italic substitution is idempotent. */
  lemma ItalicIdempotent(s: string)
    ensures Unwrap(Unwrap(s, "*"), "*") == Unwrap(s, "*")
  {
    ItalicLeavesNoStarPair(s);
    ItalicOfNoStarPair(Unwrap(s, "*"));
  }

  // ---------------------------------------------------------------------------
  // `re.sub(r'\n\n+', '\n\n', s)`
  // ---------------------------------------------------------------------------

  /** Every run of two or more newlines becomes exactly two. */
  function CollapseNewlines(s: string): (r: string)
    ensures |r| <= |s|
    ensures |s| > 0 ==> |r| > 0 && r[0] == s[0]
    decreases |s|
  {
    if s == [] then []
    else if LeadingRun(s, '\n') >= 2 then "\n\n" + CollapseNewlines(s[LeadingRun(s, '\n')..])
    else [s[0]] + CollapseNewlines(s[1..])
  }

  /** No three consecutive newlines. */
  predicate NoBlankRun(s: string) {
    forall i :: 0 <= i && i + 2 < |s| ==> !(s[i] == '\n' && s[i + 1] == '\n' && s[i + 2] == '\n')
  }

  /** After collapsing, no three newlines are adjacent. */
  lemma {:induction false} CollapseLeavesNoBlankRun(s: string)
    ensures NoBlankRun(CollapseNewlines(s))
    decreases |s|
  {
    if s != [] {
      var n := LeadingRun(s, '\n');
      var r := CollapseNewlines(s);
      if n >= 2 {
        var tail := CollapseNewlines(s[n..]);
        CollapseLeavesNoBlankRun(s[n..]);
        assert r == "\n\n" + tail;
        assert tail != [] ==> tail[0] == s[n] && s[n] != '\n';
        forall i | 0 <= i && i + 2 < |r| ensures !(r[i] == '\n' && r[i + 1] == '\n' && r[i + 2] == '\n') {
          if i >= 2 {
            assert r[i] == tail[i - 2] && r[i + 1] == tail[i - 1] && r[i + 2] == tail[i];
          } else {
            assert r[2] == tail[0];
          }
        }
      } else {
        var tail := CollapseNewlines(s[1..]);
        CollapseLeavesNoBlankRun(s[1..]);
        assert r == [s[0]] + tail;
        assert s[0] == '\n' && |s| > 1 ==> s[1] != '\n';
        forall i | 0 <= i && i + 2 < |r| ensures !(r[i] == '\n' && r[i + 1] == '\n' && r[i + 2] == '\n') {
          if i >= 1 {
            assert r[i] == tail[i - 1] && r[i + 1] == tail[i] && r[i + 2] == tail[i + 1];
          } else {
            assert r[1] == tail[0] == s[1];
          }
        }
      }
    }
  }

  /** Text without three adjacent newlines passes through unchanged. */
  lemma {:induction false} CollapseOfNoBlankRun(s: string)
    requires NoBlankRun(s)
    ensures CollapseNewlines(s) == s
    decreases |s|
  {
    if s != [] {
      var n := LeadingRun(s, '\n');
      var k := if n >= 2 then 2 else 1;
      if n >= 2 {
        assert |s| > 2 ==> !(s[0] == '\n' && s[1] == '\n' && s[2] == '\n');
        assert s[..2] == "\n\n";
      }
      assert CollapseNewlines(s) == s[..k] + CollapseNewlines(s[k..]);
      NoBlankRunSuffix(s, k);
      CollapseOfNoBlankRun(s[k..]);
      assert s == s[..k] + s[k..];
    }
  }

  lemma NoBlankRunSuffix(s: string, k: nat)
    requires NoBlankRun(s) && k <= |s|
    ensures NoBlankRun(s[k..])
  {
    var t := s[k..];
    forall i | 0 <= i && i + 2 < |t| ensures !(t[i] == '\n' && t[i + 1] == '\n' && t[i + 2] == '\n') {
      assert t[i] == s[i + k] && t[i + 1] == s[i + k + 1] && t[i + 2] == s[i + k + 2];
    }
  }

  /** The newline step only deletes newlines: no other character appears. */
  lemma {:induction false} CollapseKeepsAbsent(s: string, c: char)
    requires c !in s && c != '\n'
    ensures c !in CollapseNewlines(s)
    decreases |s|
  {
    if s != [] {
      var n := if LeadingRun(s, '\n') >= 2 then LeadingRun(s, '\n') else 1;
      AbsentFromSuffix(s, n, c);
      CollapseKeepsAbsent(s[n..], c);
    }
  }

  // ---------------------------------------------------------------------------
  // The notification
  // ---------------------------------------------------------------------------

  /** The cleaning steps, in the order the tool applies them. */
  function Clean(report: string): string {
    CollapseNewlines(Unwrap(Unwrap(StripHeaders(StripTags(report)), "**"), "*"))
  }

  const MaxLength: nat := 900
  const TruncationNote: string := "...\n\n" + "[Report truncated" + " - see full" + " version in trace]"
  /** Pushover's own limit on a message. */
  const PushoverLimit: nat := 1024

  /** A clean text longer than 900 characters keeps its first 900 and gains the note. */
  function Truncate(clean: string): (m: string)
  {
    if |clean| > MaxLength then clean[..MaxLength] + TruncationNote else clean
  }

  /** The message is the clean text when that is short enough, and otherwise its
      first 900 characters followed by the note; either way it fits Pushover's limit. */
  lemma TruncateShape(clean: string)
    ensures |clean| <= MaxLength ==> Truncate(clean) == clean
    ensures |clean| > MaxLength ==>
              |Truncate(clean)| == MaxLength + |TruncationNote|
              && Truncate(clean)[..MaxLength] == clean[..MaxLength]
              && Truncate(clean)[MaxLength..] == TruncationNote
    ensures |Truncate(clean)| <= PushoverLimit
  {
  }

  /** The cleaned report holds no `#` and no three adjacent newlines. */
  lemma CleanShape(report: string)
    ensures '#' !in Clean(report)
    ensures NoBlankRun(Clean(report))
  {
    var h := StripHeaders(StripTags(report));
    StripHeadersRemovesHashes(StripTags(report));
    UnwrapKeepsAbsent(h, "**", '#');
    UnwrapKeepsAbsent(Unwrap(h, "**"), "*", '#');
    CollapseKeepsAbsent(Unwrap(Unwrap(h, "**"), "*"), '#');
    CollapseLeavesNoBlankRun(Unwrap(Unwrap(h, "**"), "*"));
  }

  /** What is posted: the credentials come from the environment and may be unset. */
  datatype Request = Request(token: Option<string>, user: Option<string>, message: string, title: string)
  datatype HttpResponse = HttpResponse(statusCode: int, text: string)
  /** The tool's answer: the `status` and `message` entries of the returned dict. */
  datatype Notice = Notice(status: string, message: string)

  type Post = Request -> HttpResponse

  function RequestFor(report: string, token: Option<string>, user: Option<string>): Request {
    Request(token, user, Truncate(Clean(report)), "Research Report Complete")
  }

  /** `send_research_notification`: post the cleaned, truncated report once and map
      the HTTP status to the tool's answer. */
  function SendResearchNotification(report: string, token: Option<string>, user: Option<string>, post: Post): (n: Notice)
    ensures n.status == "success" <==> post(RequestFor(report, token, user)).statusCode == 200
    ensures n.status == "success" || n.status == "error"
    ensures n.status == "error" ==>
              n.message == "Error " + IntToString(post(RequestFor(report, token, user)).statusCode) + ": "
                           + post(RequestFor(report, token, user)).text
  {
    var response := post(RequestFor(report, token, user));
    if response.statusCode == 200 then Notice("success", "Research report notification sent successfully")
    else Notice("error", "Error " + IntToString(response.statusCode) + ": " + response.text)
  }

  lemma NoteHasNoHash()
    ensures '#' !in TruncationNote
  {
    assert '#' !in "...\n\n";
    assert '#' !in "[Report truncated";
    assert '#' !in " - see full";
    assert '#' !in " version in trace]";
  }

  lemma PrefixKeepsAbsent(s: string, n: nat, c: char)
    requires n <= |s| && c !in s
    ensures c !in s[..n]
  {
    forall k | 0 <= k < n ensures s[..n][k] != c {
      assert s[..n][k] == s[k];
    }
  }

  /** Truncation adds no `#`. */
  lemma TruncateKeepsHashFree(clean: string)
    requires '#' !in clean
    ensures '#' !in Truncate(clean)
  {
    if |clean| > MaxLength {
      PrefixKeepsAbsent(clean, MaxLength, '#');
      NoteHasNoHash();
    }
  }

  /** The posted message never carries a `#`, never exceeds Pushover's limit, and is
      the whole cleaned report whenever that fits in 900 characters. */
  lemma PostedMessageShape(report: string, token: Option<string>, user: Option<string>)
    ensures '#' !in RequestFor(report, token, user).message
    ensures |RequestFor(report, token, user).message| <= PushoverLimit
    ensures |Clean(report)| <= MaxLength ==> RequestFor(report, token, user).message == Clean(report)
  {
    CleanShape(report);
    TruncateShape(Clean(report));
    TruncateKeepsHashFree(Clean(report));
  }
}
