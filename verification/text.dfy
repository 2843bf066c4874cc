/** The handful of Python `str` and `list` built-ins the modelled scripts rely on:
    `isspace`, `strip`, `split()`, `join`, `find`, `lower`, `int(...)`, `str(int)`
    and slicing with Python's negative-index rules. */
module Text {
  import opened Wrappers

  // ---------------------------------------------------------------------------
  // Whitespace, strip and split
  // ---------------------------------------------------------------------------

  /** `str.isspace()` (equivalently the regex class `\s`) on the ASCII range:
      space, tab, newline, vertical tab, form feed, carriage return and the
      four separator controls 0x1C-0x1F. */
  predicate IsSpace(c: char) {
    c == ' ' || ('\t' <= c <= '\r') || ('\U{1C}' <= c <= '\U{1F}')
  }

  predicate IsBlank(s: string) {
    forall i :: 0 <= i < |s| ==> IsSpace(s[i])
  }

  predicate NoSpace(s: string) {
    forall i :: 0 <= i < |s| ==> !IsSpace(s[i])
  }

  /** Neither end of `s` is whitespace: what `strip()` guarantees. */
  predicate Stripped(s: string) {
    s == [] || (!IsSpace(s[0]) && !IsSpace(s[|s| - 1]))
  }

  /** Number of whitespace characters that start `s`. */
  function LeadingSpaces(s: string): (k: nat)
    ensures k <= |s|
    ensures forall i :: 0 <= i < k ==> IsSpace(s[i])
    ensures k < |s| ==> !IsSpace(s[k])
  {
    if |s| > 0 && IsSpace(s[0]) then 1 + LeadingSpaces(s[1..]) else 0
  }

  /** Number of whitespace characters that end `s`. */
  function TrailingSpaces(s: string): (k: nat)
    ensures k <= |s|
    ensures forall i :: |s| - k <= i < |s| ==> IsSpace(s[i])
    ensures k < |s| ==> !IsSpace(s[|s| - 1 - k])
  {
    if |s| > 0 && IsSpace(s[|s| - 1]) then 1 + TrailingSpaces(s[..|s| - 1]) else 0
  }

  /** Index in `s` where `Strip(s)` begins. */
  function StripStart(s: string): nat
  {
    LeadingSpaces(s)
  }

  /** Index in `s` just past the end of `Strip(s)`. */
  function StripEnd(s: string): (e: nat)
    ensures StripStart(s) <= e <= |s|
  {
    if LeadingSpaces(s) == |s| then |s| else |s| - TrailingSpaces(s)
  }

  /** `str.strip()`: the slice of `s` left once whitespace is removed from both ends. */
  function Strip(s: string): (r: string)
    ensures r == s[StripStart(s)..StripEnd(s)]
    ensures forall i :: 0 <= i < StripStart(s) ==> IsSpace(s[i])
    ensures forall i :: StripEnd(s) <= i < |s| ==> IsSpace(s[i])
    ensures Stripped(r)
    ensures r == [] <==> IsBlank(s)
  {
    s[StripStart(s)..StripEnd(s)]
  }

  lemma {:induction false} StripOfStripped(s: string)
    requires Stripped(s)
    ensures Strip(s) == s
  {
  }

  lemma StripIdempotent(s: string)
    ensures Strip(Strip(s)) == Strip(s)
  {
    StripOfStripped(Strip(s));
  }

  /** Length of the run of non-whitespace characters that starts `s`. */
  function WordLength(s: string): (k: nat)
    ensures k <= |s|
    ensures NoSpace(s[..k])
    ensures k == |s| || IsSpace(s[k])
  {
    if |s| == 0 || IsSpace(s[0]) then 0 else 1 + WordLength(s[1..])
  }

  /** `str.split()` with no separator: the maximal runs of non-whitespace characters. */
  function Words(s: string): (ws: seq<string>)
    ensures forall i :: 0 <= i < |ws| ==> ws[i] != [] && NoSpace(ws[i])
    decreases |s|
  {
    if s == [] then []
    else if IsSpace(s[0]) then Words(s[1..])
    else
      var k := WordLength(s);
      [s[..k]] + Words(s[k..])
  }

  /** A word that stops at whitespace is not extended by what follows. */
  lemma {:induction false} WordLengthPrefix(a: string, t: string)
    requires WordLength(a) < |a| || t == [] || IsSpace(t[0])
    ensures WordLength(a + t) == WordLength(a)
    decreases |a|
  {
    if a != [] {
      assert (a + t)[0] == a[0];
      if !IsSpace(a[0]) {
        assert (a + t)[1..] == a[1..] + t;
        WordLengthPrefix(a[1..], t);
      }
    } else {
      assert a + t == t;
    }
  }

  /** Splitting on whitespace treats a space as a word boundary. */
  lemma {:induction false} WordsAroundSpace(a: string, b: string)
    ensures Words(a + " " + b) == Words(a) + Words(b)
    decreases |a|
  {
    var s := a + " " + b;
    if a == [] {
      assert s == " " + b;
      assert s[1..] == b;
    } else if IsSpace(a[0]) {
      assert s[0] == a[0];
      assert s[1..] == a[1..] + " " + b;
      WordsAroundSpace(a[1..], b);
    } else {
      assert s == a + (" " + b);
      WordLengthPrefix(a, " " + b);
      var k := WordLength(a);
      assert s[..k] == a[..k];
      assert s[k..] == a[k..] + " " + b;
      WordsAroundSpace(a[k..], b);
      assert Words(s) == [a[..k]] + Words(s[k..]);
      assert Words(a) == [a[..k]] + Words(a[k..]);
    }
  }

  /** `[w for x in xs for w in x.split()]` */
  function WordsOfAll(xs: seq<string>): seq<string>
  {
    if |xs| == 0 then [] else Words(xs[0]) + WordsOfAll(xs[1..])
  }

  /** Splitting a space-joined text gives the words of every part, in order. */
  lemma {:induction false} WordsOfSpaceJoin(xs: seq<string>)
    ensures Words(Join(" ", xs)) == WordsOfAll(xs)
    decreases |xs|
  {
    if |xs| == 1 {
      assert WordsOfAll(xs[1..]) == [];
    } else if |xs| > 1 {
      WordsAroundSpace(xs[0], Join(" ", xs[1..]));
      WordsOfSpaceJoin(xs[1..]);
    }
  }

  lemma {:induction false} WordsOfBlank(s: string)
    ensures Words(s) == [] <==> IsBlank(s)
    decreases |s|
  {
    if s != [] {
      if IsSpace(s[0]) {
        WordsOfBlank(s[1..]);
        if IsBlank(s[1..]) {
          forall i | 0 <= i < |s| ensures IsSpace(s[i]) {
            if i > 0 { assert s[i] == s[1..][i - 1]; }
          }
        }
      }
    }
  }

  lemma {:induction false} WordLengthOfWord(w: string, t: string)
    requires NoSpace(w)
    requires t == [] || IsSpace(t[0])
    ensures WordLength(w + t) == |w|
    decreases |w|
  {
    if w != [] {
      assert (w + t)[1..] == w[1..] + t;
      WordLengthOfWord(w[1..], t);
    } else {
      assert w + t == t;
    }
  }

  // ---------------------------------------------------------------------------
  // Joining
  // ---------------------------------------------------------------------------

  /** `sep.join(xs)` */
  function Join(sep: string, xs: seq<string>): string
  {
    if |xs| == 0 then ""
    else if |xs| == 1 then xs[0]
    else xs[0] + sep + Join(sep, xs[1..])
  }

  /** Appending one more element extends the joined text by the separator and that element. */
  lemma {:induction false} JoinSnoc(sep: string, xs: seq<string>, x: string)
    ensures Join(sep, xs + [x]) == if |xs| == 0 then x else Join(sep, xs) + sep + x
    decreases |xs|
  {
    if |xs| == 0 {
      assert xs + [x] == [x];
    } else if |xs| == 1 {
      assert xs + [x] == [xs[0], x];
      assert (xs + [x])[1..] == [x];
    } else {
      assert (xs + [x])[1..] == xs[1..] + [x];
      JoinSnoc(sep, xs[1..], x);
    }
  }

  /** Splitting a single-space join of words gives the words back. */
  lemma {:induction false} WordsOfJoin(ws: seq<string>)
    requires forall i :: 0 <= i < |ws| ==> ws[i] != [] && NoSpace(ws[i])
    ensures Words(Join(" ", ws)) == ws
    decreases |ws|
  {
    if |ws| == 0 {
    } else if |ws| == 1 {
      var w := ws[0];
      WordLengthOfWord(w, []);
      assert w + [] == w;
      assert w[|w|..] == [];
    } else {
      var w := ws[0];
      var rest := Join(" ", ws[1..]);
      var s := w + " " + rest;
      assert s == w + (" " + rest);
      WordLengthOfWord(w, " " + rest);
      assert s[..|w|] == w;
      assert s[|w|..] == " " + rest;
      assert (" " + rest)[1..] == rest;
      WordsOfJoin(ws[1..]);
      assert [w] + ws[1..] == ws;
    }
  }

  /** `"".join(xs)` */
  function Concat(xs: seq<string>): string
  {
    if |xs| == 0 then "" else xs[0] + Concat(xs[1..])
  }

  lemma {:induction false} ConcatSnoc(xs: seq<string>, x: string)
    ensures Concat(xs + [x]) == Concat(xs) + x
    decreases |xs|
  {
    if |xs| == 0 {
      assert xs + [x] == [x];
    } else {
      assert (xs + [x])[1..] == xs[1..] + [x];
      ConcatSnoc(xs[1..], x);
    }
  }

  function Repeat(c: char, n: nat): (r: string)
    ensures |r| == n && forall i :: 0 <= i < n ==> r[i] == c
  {
    if n == 0 then "" else [c] + Repeat(c, n - 1)
  }

  // ---------------------------------------------------------------------------
  // Searching
  // ---------------------------------------------------------------------------

  /** `s.index(c, start)` as an option: the first position at or after `start` holding `c`. */
  function CharIndexFrom(s: string, c: char, start: nat): (r: Option<nat>)
    ensures r.Some? ==> start <= r.value < |s| && s[r.value] == c
    ensures forall k :: start <= k < |s| && (r.None? || k < r.value) ==> s[k] != c
    decreases |s| - start
  {
    if start >= |s| then None
    else if s[start] == c then Some(start)
    else CharIndexFrom(s, c, start + 1)
  }

  /** `s.split(c)` for a one-character separator. */
  function SplitOn(s: string, c: char): (parts: seq<string>)
    ensures |parts| > 0
    decreases |s|
  {
    match CharIndexFrom(s, c, 0)
    case None => [s]
    case Some(i) => [s[..i]] + SplitOn(s[i + 1..], c)
  }

  /** Splitting a join on a separator that no part contains gives the parts back. */
  lemma {:induction false} SplitOnJoin(xs: seq<string>, c: char)
    requires |xs| > 0
    requires forall i, k :: 0 <= i < |xs| && 0 <= k < |xs[i]| ==> xs[i][k] != c
    ensures SplitOn(Join([c], xs), c) == xs
    decreases |xs|
  {
    var x := xs[0];
    if |xs| == 1 {
      assert CharIndexFrom(x, c, 0).None?;
    } else {
      var rest := Join([c], xs[1..]);
      var s := x + [c] + rest;
      assert s[|x|] == c;
      assert forall k :: 0 <= k < |x| ==> s[k] == x[k];
      assert CharIndexFrom(s, c, 0) == Some(|x|);
      assert s[..|x|] == x;
      assert s[|x| + 1..] == rest;
      SplitOnJoin(xs[1..], c);
    }
  }

  predicate OccursAt(s: string, pat: string, k: int) {
    0 <= k && k + |pat| <= |s| && s[k..k + |pat|] == pat
  }

  predicate Contains(s: string, pat: string) {
    exists k :: 0 <= k <= |s| && OccursAt(s, pat, k)
  }

  /** `s.find(pat, start)`: the first occurrence at or after `start`, or `None` for -1. */
  function FindFrom(s: string, pat: string, start: nat): (r: Option<nat>)
    ensures r.Some? ==> start <= r.value && OccursAt(s, pat, r.value)
    ensures forall k :: start <= k && (r.None? || k < r.value) ==> !OccursAt(s, pat, k)
    decreases |s| + 1 - start
  {
    if start + |pat| > |s| then None
    else if s[start..start + |pat|] == pat then Some(start)
    else FindFrom(s, pat, start + 1)
  }

  function Find(s: string, pat: string): (r: Option<nat>)
    ensures r.Some? ==> OccursAt(s, pat, r.value)
    ensures r.Some? <==> Contains(s, pat)
  {
    FindFrom(s, pat, 0)
  }

  /** A literal that is spliced in as a whole occurs where it was spliced. */
  lemma OccursInMiddle(a: string, pat: string, b: string)
    ensures OccursAt(a + pat + b, pat, |a|)
    ensures Contains(a + pat + b, pat)
  {
    var s := a + pat + b;
    assert s[|a|..|a| + |pat|] == pat;
    assert OccursAt(s, pat, |a|);
  }

  /** An occurrence survives adding text on either side. */
  lemma ContainsWithin(a: string, s: string, b: string, pat: string)
    requires Contains(s, pat)
    ensures Contains(a + s + b, pat)
  {
    var k :| 0 <= k <= |s| && OccursAt(s, pat, k);
    var t := a + s + b;
    assert t[|a| + k..|a| + k + |pat|] == s[k..k + |pat|];
    assert OccursAt(t, pat, |a| + k);
  }

  /** An occurrence survives adding text after it. */
  lemma ContainsBefore(s: string, b: string, pat: string)
    requires Contains(s, pat)
    ensures Contains(s + b, pat)
  {
    var k :| 0 <= k <= |s| && OccursAt(s, pat, k);
    assert (s + b)[k..k + |pat|] == s[k..k + |pat|];
    assert OccursAt(s + b, pat, k);
  }

  /** A text occurs at the end of anything it is appended to. */
  lemma ContainsAppended(a: string, pat: string)
    ensures Contains(a + pat, pat)
  {
    assert (a + pat)[|a|..|a| + |pat|] == pat;
    assert OccursAt(a + pat, pat, |a|);
  }

  /** Every piece occurs in the concatenation of the pieces. */
  lemma {:induction false} ConcatContains(xs: seq<string>, i: nat)
    requires i < |xs|
    ensures Contains(Concat(xs), xs[i])
    decreases |xs|
  {
    if i == 0 {
      OccursInMiddle("", xs[0], Concat(xs[1..]));
      assert "" + xs[0] + Concat(xs[1..]) == Concat(xs);
    } else {
      ConcatContains(xs[1..], i - 1);
      ContainsWithin(xs[0], Concat(xs[1..]), "", xs[i]);
      assert xs[0] + Concat(xs[1..]) + "" == Concat(xs);
    }
  }

  /** Every part occurs in the joined text. */
  lemma {:induction false} JoinContains(sep: string, xs: seq<string>, i: nat)
    requires i < |xs|
    ensures Contains(Join(sep, xs), xs[i])
    decreases |xs|
  {
    if |xs| == 1 {
      OccursInMiddle("", xs[0], "");
      assert "" + xs[0] + "" == Join(sep, xs);
    } else if i == 0 {
      OccursInMiddle("", xs[0], sep + Join(sep, xs[1..]));
      assert "" + xs[0] + (sep + Join(sep, xs[1..])) == Join(sep, xs);
    } else {
      JoinContains(sep, xs[1..], i - 1);
      ContainsWithin(xs[0] + sep, Join(sep, xs[1..]), "", xs[i]);
      assert xs[0] + sep + Join(sep, xs[1..]) + "" == Join(sep, xs);
    }
  }

  // ---------------------------------------------------------------------------
  // Integers and their decimal text
  // ---------------------------------------------------------------------------

  predicate IsDigit(c: char) {
    '0' <= c <= '9'
  }

  predicate AllDigits(s: string) {
    forall i :: 0 <= i < |s| ==> IsDigit(s[i])
  }

  function DigitChar(d: nat): (c: char)
    requires d < 10
    ensures IsDigit(c)
  {
    ('0' as int + d) as char
  }

  function DigitValue(c: char): nat
    requires IsDigit(c)
  {
    c as int - '0' as int
  }

  /** The number that a string of decimal digits denotes. */
  function DigitsValue(s: string): nat
    requires AllDigits(s)
  {
    if s == [] then 0 else DigitsValue(s[..|s| - 1]) * 10 + DigitValue(s[|s| - 1])
  }

  /** `str(n)` for `n >= 0`: shortest decimal text, no leading zero. */
  function NatToString(n: nat): (r: string)
    ensures |r| > 0 && AllDigits(r)
    ensures |r| > 1 ==> r[0] != '0'
    decreases n
  {
    if n < 10 then [DigitChar(n)] else NatToString(n / 10) + [DigitChar(n % 10)]
  }

  lemma {:induction false} NatToStringRoundTrip(n: nat)
    ensures DigitsValue(NatToString(n)) == n
    decreases n
  {
    if n >= 10 {
      var s := NatToString(n);
      assert s[..|s| - 1] == NatToString(n / 10);
      NatToStringRoundTrip(n / 10);
    }
  }

  /** `str(i)` for any integer. */
  function IntToString(i: int): (r: string)
    ensures |r| > 0
  {
    if i < 0 then "-" + NatToString(-i) else NatToString(i)
  }

  /** `int(s)` on text: surrounding whitespace, an optional sign and at least one
      ASCII digit; anything else raises `ValueError` (here `None`). */
  function ParseInt(s: string): (r: Option<int>)
  {
    var t := Strip(s);
    if |t| > 1 && (t[0] == '-' || t[0] == '+') && AllDigits(t[1..]) then
      var v: int := DigitsValue(t[1..]);
      Some(if t[0] == '-' then -v else v)
    else if |t| > 0 && AllDigits(t) then
      Some(DigitsValue(t))
    else
      None
  }

  /** A non-empty run of digits parses as its value. */
  lemma ParseIntOfDigits(s: string)
    requires |s| > 0 && AllDigits(s)
    ensures ParseInt(s) == Some(DigitsValue(s))
  {
    assert Stripped(s) by {
      assert IsDigit(s[0]) && IsDigit(s[|s| - 1]);
    }
    StripOfStripped(s);
  }

  lemma ParseIntOfNatToString(n: nat)
    ensures ParseInt(NatToString(n)) == Some(n)
  {
    ParseIntOfDigits(NatToString(n));
    NatToStringRoundTrip(n);
  }

  // ---------------------------------------------------------------------------
  // Case and character stripping
  // ---------------------------------------------------------------------------

  /** `str.lower()` on ASCII letters. */
  function Lower(s: string): (r: string)
    ensures |r| == |s|
    ensures forall i :: 0 <= i < |s| ==> r[i] == if 'A' <= s[i] <= 'Z' then (s[i] as int + 32) as char else s[i]
  {
    seq(|s|, i requires 0 <= i < |s| => LowerChar(s[i]))
  }

  /** `str.lower` on one character, for the ASCII letters. */
  function LowerChar(c: char): char {
    if 'A' <= c <= 'Z' then (c as int + 32) as char else c
  }

  /** Digits have no case to lower. */
  lemma LowerOfDigits(s: string)
    requires AllDigits(s)
    ensures Lower(s) == s
  {
    var r := Lower(s);
    forall i | 0 <= i < |s| ensures r[i] == s[i] {
      assert IsDigit(s[i]);
    }
  }

  /** `s.strip(c)` for a single character `c`. */
  function StripChar(s: string, c: char): (r: string)
    ensures |r| <= |s|
    decreases |s|
  {
    if |s| > 0 && s[0] == c then StripChar(s[1..], c)
    else if |s| > 0 && s[|s| - 1] == c then StripChar(s[..|s| - 1], c)
    else s
  }

  lemma {:induction false} StripCharOfOthers(s: string, c: char)
    requires |s| > 0 && s[0] != c && s[|s| - 1] != c
    ensures StripChar(s, c) == s
  {
  }

  // ---------------------------------------------------------------------------
  // Python sequence indexing and slicing
  // ---------------------------------------------------------------------------

  /** Where a slice bound `i` lands in a sequence of length `n` (negative counts from the end, clamped). */
  function SliceBound(i: int, n: nat): (b: nat)
    ensures b <= n
  {
    if i < 0 then (if i + n < 0 then 0 else i + n) else if i > n then n else i
  }

  /** `s[i:j]` */
  function PySlice<T>(s: seq<T>, i: int, j: int): (r: seq<T>)
    ensures |r| <= |s|
  {
    var a := SliceBound(i, |s|);
    var b := SliceBound(j, |s|);
    if a < b then s[a..b] else []
  }

  /** `s[k]`: defined for `-|s| <= k < |s|`, otherwise `IndexError` (`None`). */
  function PyIndex<T>(s: seq<T>, k: int): (r: Option<T>)
    ensures 0 <= k < |s| ==> r == Some(s[k])
    ensures -|s| <= k < 0 ==> r == Some(s[|s| + k])
    ensures r.None? <==> (k < -|s| || k >= |s|)
  {
    if 0 <= k < |s| then Some(s[k])
    else if -|s| <= k < 0 then Some(s[|s| + k])
    else None
  }
}
