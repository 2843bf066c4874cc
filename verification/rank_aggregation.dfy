/** Mean-rank aggregation and the final ranking of the judged-ranking script
    (`elchanio_wk1_lab2_llm_parallel_evaluation.py`, lines 402-447): every judge's ranking
    contributes 1-based positions, each competitor scores the mean of its positions, the
    scores are sorted stably in ascending order and each id is mapped back to a name. */
module RankAggregation {
  import opened Wrappers
  import opened Text
  import opened Dicts
  import opened Competition
  import opened JudgeParse

  /** One vote: a competitor id and a 1-based position it was given. */
  type Vote = (string, nat)

  /** `enumerate(ranking, 1)` */
  function Numbered(ranking: seq<string>): (vs: seq<Vote>)
    ensures |vs| == |ranking| && forall k :: 0 <= k < |ranking| ==> vs[k] == (ranking[k], k + 1)
  {
    seq(|ranking|, k requires 0 <= k < |ranking| => (ranking[k], k + 1))
  }

  /** All votes, judge by judge, in the order the nested loops visit them. */
  function Votes(rankings: seq<seq<string>>): seq<Vote>
  {
    if |rankings| == 0 then [] else Votes(rankings[..|rankings| - 1]) + Numbered(rankings[|rankings| - 1])
  }

  /** The positions voted for `c`, in vote order. */
  function PositionsOf(votes: seq<Vote>, c: string): (ps: seq<nat>)
    ensures |ps| <= |votes|
  {
    if |votes| == 0 then []
    else
      var last := votes[|votes| - 1];
      PositionsOf(votes[..|votes| - 1], c) + (if last.0 == c then [last.1] else [])
  }

  /** `contestant_rankings[c].append(p)` on a `defaultdict(list)`. */
  function AppendPosition(d: Dict<string, seq<nat>>, c: string, p: nat): Dict<string, seq<nat>>
  {
    match Get(d, c)
    case None => Put(d, c, [p])
    case Some(ps) => Put(d, c, ps + [p])
  }

  /** The `contestant_rankings` dict after the loops. */
  function Collect(votes: seq<Vote>): (d: Dict<string, seq<nat>>)
    ensures DistinctKeys(d)
    ensures |votes| > 0 ==> |d| > 0
  {
    if |votes| == 0 then []
    else
      var last := votes[|votes| - 1];
      var d := AppendPosition(Collect(votes[..|votes| - 1]), last.0, last.1);
      assert last.0 in KeySet(d);
      d
  }

  lemma AppendPositionGet(d: Dict<string, seq<nat>>, c': string, p: nat, c: string)
    requires DistinctKeys(d)
    ensures Get(AppendPosition(d, c', p), c) == if c == c' then Some(Get(d, c').GetOr([]) + [p]) else Get(d, c)
  {
    match Get(d, c')
    case None =>
      assert Get(d, c').GetOr([]) + [p] == [p];
      GetPut(d, c', [p], c);
    case Some(ps) => GetPut(d, c', ps + [p], c);
  }

  /** Each competitor's list holds exactly its positions, in vote order; a competitor
      nobody voted for has no entry. */
  lemma {:induction false} CollectGet(votes: seq<Vote>, c: string)
    ensures Get(Collect(votes), c) == if PositionsOf(votes, c) == [] then None else Some(PositionsOf(votes, c))
    decreases |votes|
  {
    if |votes| > 0 {
      var last := votes[|votes| - 1];
      var init := votes[..|votes| - 1];
      var d := Collect(init);
      assert Collect(votes) == AppendPosition(d, last.0, last.1);
      CollectGet(init, c);
      AppendPositionGet(d, last.0, last.1, c);
      var before := PositionsOf(init, c);
      assert PositionsOf(votes, c) == before + (if last.0 == c then [last.1] else []);
      if last.0 == c {
        assert Get(d, c).GetOr([]) == before;
        assert Get(Collect(votes), c) == Some(before + [last.1]);
      } else {
        assert Get(Collect(votes), c) == Get(d, c);
        assert before + [] == before;
      }
    }
  }

  /** Every list in the dict is non-empty. */
  lemma CollectValuesNonEmpty(votes: seq<Vote>, i: nat)
    requires i < |Collect(votes)|
    ensures Collect(votes)[i].1 != []
  {
    var d := Collect(votes);
    DistinctIndex(d, i);
    CollectGet(votes, d[i].0);
  }

  function Sum(ps: seq<nat>): nat {
    if |ps| == 0 then 0 else Sum(ps[..|ps| - 1]) + ps[|ps| - 1]
  }

  /** `sum(ranks) / len(ranks)`, exactly. */
  function Mean(ps: seq<nat>): real
    requires |ps| > 0
  {
    Sum(ps) as real / |ps| as real
  }

  /** `{c: sum(r)/len(r) for c, r in contestant_rankings.items() if r}` */
  function Averages(d: Dict<string, seq<nat>>): (a: Dict<string, real>)
    ensures |a| <= |d|
    ensures KeySet(a) <= KeySet(d)
    ensures DistinctKeys(d) ==> DistinctKeys(a)
  {
    if |d| == 0 then []
    else
      var rest := Averages(d[1..]);
      KeySetCons(d);
      if d[0].1 != [] then
        var a := [(d[0].0, Mean(d[0].1))] + rest;
        assert a[1..] == rest;
        KeySetCons(a);
        a
      else rest
  }

  lemma {:induction false} AveragesGet(d: Dict<string, seq<nat>>, c: string)
    requires DistinctKeys(d)
    ensures Get(Averages(d), c) ==
      match Get(d, c)
      case None => None
      case Some(ps) => if ps == [] then None else Some(Mean(ps))
    decreases |d|
  {
    if |d| > 0 {
      AveragesGet(d[1..], c);
      KeySetCons(d);
      if d[0].0 != c && Get(d, c).Some? {
        var i := IndexOf(d, c).value;
        assert d[1..][i - 1] == d[i];
        DistinctIndex(d[1..], i - 1);
      }
    }
  }

  /** `average_rankings` for the judges' rankings. */
  function AverageRankings(rankings: seq<seq<string>>): (a: Dict<string, real>)
    ensures DistinctKeys(a)
  {
    Averages(Collect(Votes(rankings)))
  }

  /** A competitor's score is the mean of every position any judge gave it (repeats
      counted each time); a competitor no judge listed has no score. */
  lemma AverageRankingsGet(rankings: seq<seq<string>>, c: string)
    ensures Get(AverageRankings(rankings), c) ==
      if PositionsOf(Votes(rankings), c) == [] then None else Some(Mean(PositionsOf(Votes(rankings), c)))
  {
    CollectGet(Votes(rankings), c);
    AveragesGet(Collect(Votes(rankings)), c);
  }

  /** `c` receives a position exactly when some judge listed it. */
  lemma {:induction false} PositionsOfVotes(rankings: seq<seq<string>>, c: string)
    ensures PositionsOf(Votes(rankings), c) != [] <==> exists j :: 0 <= j < |rankings| && c in rankings[j]
    decreases |rankings|
  {
    if |rankings| > 0 {
      var n := |rankings| - 1;
      PositionsOfVotes(rankings[..n], c);
      PositionsOfAppend(Votes(rankings[..n]), Numbered(rankings[n]), c);
      PositionsOfNumbered(rankings[n], c);
      if exists j :: 0 <= j < n && c in rankings[..n][j] {
        var j :| 0 <= j < n && c in rankings[..n][j];
        assert rankings[j] == rankings[..n][j];
      }
      if exists j :: 0 <= j < |rankings| && c in rankings[j] {
        var j :| 0 <= j < |rankings| && c in rankings[j];
        if j < n { assert rankings[..n][j] == rankings[j]; }
      }
    }
  }

  lemma {:induction false} PositionsOfAppend(a: seq<Vote>, b: seq<Vote>, c: string)
    ensures PositionsOf(a + b, c) == PositionsOf(a, c) + PositionsOf(b, c)
    decreases |b|
  {
    if |b| > 0 {
      var n := |b| - 1;
      assert (a + b)[..|a + b| - 1] == a + b[..n];
      PositionsOfAppend(a, b[..n], c);
    } else {
      assert a + b == a;
    }
  }

  lemma {:induction false} PositionsOfNumbered(ranking: seq<string>, c: string)
    ensures PositionsOf(Numbered(ranking), c) != [] <==> c in ranking
    decreases |ranking|
  {
    if |ranking| > 0 {
      var n := |ranking| - 1;
      assert Numbered(ranking)[..n] == Numbered(ranking[..n]);
      PositionsOfNumbered(ranking[..n], c);
      assert c in ranking <==> c in ranking[..n] || ranking[n] == c;
    }
  }

  /** The scores are empty (and the script stops) exactly when every judge's ranking is empty. */
  lemma AverageRankingsEmpty(rankings: seq<seq<string>>)
    ensures AverageRankings(rankings) == [] <==> forall j :: 0 <= j < |rankings| ==> rankings[j] == []
  {
    var votes := Votes(rankings);
    if exists j :: 0 <= j < |rankings| && rankings[j] != [] {
      var j :| 0 <= j < |rankings| && rankings[j] != [];
      var c := rankings[j][0];
      PositionsOfVotes(rankings, c);
      AverageRankingsGet(rankings, c);
    } else {
      VotesOfEmpty(rankings);
    }
  }

  lemma {:induction false} VotesOfEmpty(rankings: seq<seq<string>>)
    requires forall j :: 0 <= j < |rankings| ==> rankings[j] == []
    ensures Votes(rankings) == []
    decreases |rankings|
  {
    if |rankings| > 0 {
      VotesOfEmpty(rankings[..|rankings| - 1]);
    }
  }

  // ---------------------------------------------------------------------------
  // Stable sort by score
  // ---------------------------------------------------------------------------

  type Scored = (string, real)

  predicate SortedByScore(s: seq<Scored>) {
    forall i, j :: 0 <= i < j < |s| ==> s[i].1 <= s[j].1
  }

  /** The entries of `s` whose score is `v`, in order. */
  function WithScore(s: seq<Scored>, v: real): seq<Scored> {
    if |s| == 0 then [] else (if s[0].1 == v then [s[0]] else []) + WithScore(s[1..], v)
  }

  /** Place `x` before the first entry scoring at least as much. */
  function Insert(x: Scored, s: seq<Scored>): (r: seq<Scored>)
    ensures |r| == |s| + 1
    ensures multiset(r) == multiset(s) + multiset{x}
    ensures r[0] == x || (|s| > 0 && r[0] == s[0])
  {
    if |s| == 0 || s[0].1 >= x.1 then [x] + s
    else
      assert s == [s[0]] + s[1..];
      [s[0]] + Insert(x, s[1..])
  }

  /** `x` goes in front when the list is empty or its head scores at least as much. */
  lemma InsertFront(x: Scored, s: seq<Scored>)
    requires |s| == 0 || s[0].1 >= x.1
    ensures Insert(x, s) == [x] + s
  {
  }

  /** Otherwise the head stays in front and `x` goes into the rest. */
  lemma InsertLater(x: Scored, s: seq<Scored>)
    requires |s| > 0 && s[0].1 < x.1
    ensures Insert(x, s) == [s[0]] + Insert(x, s[1..])
  {
  }

  lemma WithScoreCons(a: Scored, t: seq<Scored>, v: real)
    ensures WithScore([a] + t, v) == (if a.1 == v then [a] else []) + WithScore(t, v)
  {
    assert ([a] + t)[1..] == t;
  }

  lemma {:induction false} InsertSorted(x: Scored, s: seq<Scored>)
    requires SortedByScore(s)
    ensures SortedByScore(Insert(x, s))
    decreases |s|
  {
    if |s| > 0 && s[0].1 < x.1 {
      InsertLater(x, s);
      var tail := Insert(x, s[1..]);
      InsertSorted(x, s[1..]);
      var r := Insert(x, s);
      forall j | 0 < j < |r| ensures s[0].1 <= r[j].1 {
        assert r[j] == tail[j - 1];
        assert r[j] in multiset(tail);
        assert r[j] in multiset(s[1..]) + multiset{x};
        if r[j] != x {
          var k :| 0 <= k < |s[1..]| && s[1..][k] == r[j];
          assert s[k + 1] == r[j];
        }
      }
    } else {
      InsertFront(x, s);
    }
  }

  lemma {:induction false} InsertKeys(x: Scored, s: seq<Scored>)
    ensures KeySet(Insert(x, s)) == KeySet(s) + {x.0}
    ensures DistinctKeys(s) && x.0 !in KeySet(s) ==> DistinctKeys(Insert(x, s))
    decreases |s|
  {
    var r := Insert(x, s);
    KeySetCons(r);
    DistinctKeysCons(r);
    if |s| == 0 || s[0].1 >= x.1 {
      InsertFront(x, s);
      assert r[0] == x && r[1..] == s;
    } else {
      InsertLater(x, s);
      KeySetCons(s);
      DistinctKeysCons(s);
      assert r[0] == s[0] && r[1..] == Insert(x, s[1..]);
      InsertKeys(x, s[1..]);
    }
  }

  /** Inserting `x` puts it ahead of every entry with its score. */
  lemma {:induction false} InsertWithScore(x: Scored, s: seq<Scored>, v: real)
    ensures WithScore(Insert(x, s), v) == (if x.1 == v then [x] else []) + WithScore(s, v)
    decreases |s|
  {
    if |s| == 0 || s[0].1 >= x.1 {
      InsertFront(x, s);
      WithScoreCons(x, s, v);
    } else {
      InsertLater(x, s);
      var r := Insert(x, s);
      assert r[0] == s[0] && r[1..] == Insert(x, s[1..]);
      InsertWithScore(x, s[1..], v);
      var mine := if x.1 == v then [x] else [];
      var head := if s[0].1 == v then [s[0]] else [];
      var rest := WithScore(s[1..], v);
      assert WithScore(r, v) == head + (mine + rest);
      assert WithScore(s, v) == head + rest;
      SwapDisjoint(head, mine, rest);
    }
  }

  /** Two pieces of which one is empty can be swapped. */
  lemma SwapDisjoint<T>(a: seq<T>, b: seq<T>, c: seq<T>)
    requires a == [] || b == []
    ensures a + (b + c) == b + (a + c)
  {
  }

  /** `sorted(average_rankings.items(), key=lambda x: x[1])` */
  function SortByScore(xs: seq<Scored>): (r: seq<Scored>)
    ensures |r| == |xs|
    ensures SortedByScore(r)
    ensures multiset(r) == multiset(xs)
  {
    if |xs| == 0 then []
    else
      assert xs == [xs[0]] + xs[1..];
      InsertSorted(xs[0], SortByScore(xs[1..]));
      Insert(xs[0], SortByScore(xs[1..]))
  }

  lemma SortByScoreCons(xs: seq<Scored>)
    requires |xs| > 0
    ensures SortByScore(xs) == Insert(xs[0], SortByScore(xs[1..]))
  {
  }

  /** Sorting keeps the ids, and keeps them distinct. */
  lemma {:induction false} SortKeys(xs: seq<Scored>)
    ensures KeySet(SortByScore(xs)) == KeySet(xs)
    ensures DistinctKeys(xs) ==> DistinctKeys(SortByScore(xs))
    decreases |xs|
  {
    if |xs| > 0 {
      KeySetCons(xs);
      DistinctKeysCons(xs);
      SortByScoreCons(xs);
      SortKeys(xs[1..]);
      InsertKeys(xs[0], SortByScore(xs[1..]));
    } else {
      assert SortByScore(xs) == [];
    }
  }

  /** The sort is stable: entries with equal scores keep their relative order. */
  lemma {:induction false} SortIsStable(xs: seq<Scored>, v: real)
    ensures WithScore(SortByScore(xs), v) == WithScore(xs, v)
    decreases |xs|
  {
    if |xs| > 0 {
      SortByScoreCons(xs);
      SortIsStable(xs[1..], v);
      InsertWithScore(xs[0], SortByScore(xs[1..]), v);
    }
  }

  // ---------------------------------------------------------------------------
  // Display
  // ---------------------------------------------------------------------------

  /** One printed line: a ranked competitor, or an id the display loop gave up on
      (its `ValueError` / `IndexError` is caught and reported). */
  datatype Line = Shown(rank: nat, name: string, average: real) | Skipped(id: string)

  /** `sorted_results.index(x)` */
  function FirstIndex(s: seq<Scored>, x: Scored): (i: nat)
    requires x in s
    ensures i < |s| && s[i] == x && forall k :: 0 <= k < i ==> s[k] != x
  {
    if s[0] == x then 0 else 1 + FirstIndex(s[1..], x)
  }

  /** The body of the display loop for the `i`-th sorted entry, as written: the id's
      number minus one indexes `competitors` the way Python indexes a list. */
  function ShowLine(sorted: seq<Scored>, i: nat, competitors: seq<string>): (line: Line)
    requires i < |sorted|
    ensures line.Shown? ==> line.name in competitors && line.average == sorted[i].1
    ensures line.Skipped? ==> line.id == sorted[i].0
    ensures line.Skipped? <==> match CompetitorIndex(sorted[i].0)
                                case None => true
                                case Some(k) => k < -|competitors| || k >= |competitors|
  {
    var (c, average) := sorted[i];
    match CompetitorIndex(c)
    case None => Skipped(c)
    case Some(k) =>
      match PyIndex(competitors, k)
      case None => Skipped(c)
      case Some(name) => Shown(FirstIndex(sorted, sorted[i]) + 1, name, average)
  }

  /** The display loop with the index range checked: only ids `C1..Cn` name a competitor. */
  function ShowLineChecked(sorted: seq<Scored>, i: nat, competitors: seq<string>): (line: Line)
    requires i < |sorted|
    ensures line.Shown? ==> exists k :: 0 <= k < |competitors| && CompetitorIndex(sorted[i].0) == Some(k) && line.name == competitors[k]
    ensures line.Skipped? ==> line.id == sorted[i].0
  {
    var (c, average) := sorted[i];
    match CompetitorIndex(c)
    case None => Skipped(c)
    case Some(k) =>
      if 0 <= k < |competitors| then Shown(FirstIndex(sorted, sorted[i]) + 1, competitors[k], average)
      else Skipped(c)
  }

  /** The two display lines differ exactly on the ids whose number minus one is a
      negative index Python accepts: `C0` down to `C(1-n)`. */
  lemma ShowLinesDifferOnNegativeIndex(sorted: seq<Scored>, i: nat, competitors: seq<string>)
    requires i < |sorted|
    ensures ShowLine(sorted, i, competitors) != ShowLineChecked(sorted, i, competitors) <==>
      exists k :: CompetitorIndex(sorted[i].0) == Some(k) && -|competitors| <= k < 0
  {
    match CompetitorIndex(sorted[i].0)
    case None =>
    case Some(k) =>
      if -|competitors| <= k < 0 {
        assert ShowLineChecked(sorted, i, competitors).Skipped?;
        assert ShowLine(sorted, i, competitors).Shown?;
      }
  }

  /** The whole display loop, as written. */
  function Display(sorted: seq<Scored>, competitors: seq<string>): (lines: seq<Line>)
    ensures |lines| == |sorted|
    ensures forall i :: 0 <= i < |sorted| && lines[i].Shown? ==> lines[i].name in competitors
  {
    seq(|sorted|, i requires 0 <= i < |sorted| => ShowLine(sorted, i, competitors))
  }

  /** The display loop with the range check the script lacks. */
  function DisplayChecked(sorted: seq<Scored>, competitors: seq<string>): (lines: seq<Line>)
    ensures |lines| == |sorted|
    ensures forall i :: 0 <= i < |sorted| && lines[i].Shown? ==>
      exists k :: 0 <= k < |competitors| && CompetitorIndex(sorted[i].0) == Some(k) && lines[i].name == competitors[k]
  {
    seq(|sorted|, i requires 0 <= i < |sorted| => ShowLineChecked(sorted, i, competitors))
  }

  /** When every id is some competitor's label, the checked display changes nothing. */
  lemma DisplaysAgreeOnLabels(sorted: seq<Scored>, competitors: seq<string>)
    requires forall i :: 0 <= i < |sorted| ==> exists k :: 0 <= k < |competitors| && sorted[i].0 == Label(k)
    ensures Display(sorted, competitors) == DisplayChecked(sorted, competitors)
  {
    forall i | 0 <= i < |sorted|
      ensures Display(sorted, competitors)[i] == DisplayChecked(sorted, competitors)[i]
    {
      var k :| 0 <= k < |competitors| && sorted[i].0 == Label(k);
      LabelRoundTrip(k);
    }
  }

  /** With distinct ids, the rank shown for the `i`-th entry is `i + 1`; a label `C(k+1)`
      shows competitor `k`, and a label beyond the last competitor is skipped. */
  lemma DisplayLine(sorted: seq<Scored>, competitors: seq<string>, i: nat, k: nat)
    requires DistinctKeys(sorted) && i < |sorted| && sorted[i].0 == Label(k)
    ensures k < |competitors| ==> Display(sorted, competitors)[i] == Shown(i + 1, competitors[k], sorted[i].1)
    ensures k >= |competitors| ==> Display(sorted, competitors)[i] == Skipped(sorted[i].0)
    ensures k < |competitors| ==> DisplayChecked(sorted, competitors)[i] == Shown(i + 1, competitors[k], sorted[i].1)
    ensures k >= |competitors| ==> DisplayChecked(sorted, competitors)[i] == Skipped(sorted[i].0)
  {
    LabelRoundTrip(k);
    assert FirstIndex(sorted, sorted[i]) == i;
  }

  /** As written, a judge's id `C0` passes the range check Python does not make and
      shows the last competitor, although no answer was labelled `C0`. */
  lemma ZeroIdShowsLastCompetitor()
    ensures ShowLine([("C0", 1.0)], 0, ["alpha", "beta"]) == Shown(1, "beta", 1.0)
    ensures ShowLineChecked([("C0", 1.0)], 0, ["alpha", "beta"]) == Skipped("C0")
  {
    var id := "C0";
    assert Lower(id) == "c0";
    assert StripChar("c0", 'c') == "0" by {
      assert "c0"[1..] == "0";
      StripCharOfOthers("0", 'c');
    }
    assert ParseInt("0") == Some(0) by {
      ParseIntOfNatToString(0);
      assert NatToString(0) == "0";
    }
  }

  /** What the script ends with: no scores at all, or the displayed ranking. */
  datatype Outcome = NoValidRankings | Ranked(lines: seq<Line>)

  /** Steps 5 and 6 of `main`: judge replies to displayed ranking. The answers'
      model ids, in dict order, are the competitors. */
  function FinalRanking(evaluations: Dict<string, string>, decode: JsonDecoder, competitors: seq<string>): (out: Outcome)
    ensures out.Ranked? ==> |out.lines| == |AverageRankings(Rankings(evaluations, decode))|
    ensures out.Ranked? ==> forall i :: 0 <= i < |out.lines| && out.lines[i].Shown? ==> out.lines[i].name in competitors
  {
    var averages := AverageRankings(Rankings(evaluations, decode));
    if |averages| == 0 then NoValidRankings
    else Ranked(Display(SortByScore(averages), competitors))
  }

  /** The same steps with the range-checked display. */
  function FinalRankingChecked(evaluations: Dict<string, string>, decode: JsonDecoder, competitors: seq<string>): (out: Outcome)
    ensures out.Ranked? ==> |out.lines| == |AverageRankings(Rankings(evaluations, decode))|
    ensures out.NoValidRankings? <==> FinalRanking(evaluations, decode, competitors).NoValidRankings?
  {
    var averages := AverageRankings(Rankings(evaluations, decode));
    if |averages| == 0 then NoValidRankings
    else Ranked(DisplayChecked(SortByScore(averages), competitors))
  }

  /** A judge whose reply is exactly `{"results": ["C0"]}` ranks `C0` alone. */
  lemma ZeroIdReplyRanking(decode: JsonDecoder)
    requires decode("{\"results\": [\"C0\"]}") == Some(Ranking(["C0"]))
    ensures Rankings([("judge", "{\"results\": [\"C0\"]}")], decode) == [["C0"]]
  {
    var text := "{\"results\": [\"C0\"]}";
    assert ResultsOpen + ": [\"C0\"]" + "}" == text;
    WholeReplyDecodes(": [\"C0\"]", decode);
  }

  /** One judge ranking `C0` alone gives it the score 1. */
  lemma ZeroIdAverages()
    ensures AverageRankings([["C0"]]) == [("C0", 1.0)]
  {
    ZeroIdVotes();
    ZeroIdCollected();
    assert Mean([1]) == 1.0 by {
      assert [1][..0] == [];
    }
    var d: Dict<string, seq<nat>> := [("C0", [1])];
    assert d[1..] == [];
    assert Averages(d) == [("C0", Mean([1]))] + Averages([]);
  }

  lemma ZeroIdVotes()
    ensures Votes([["C0"]]) == [("C0", 1)]
  {
    assert [["C0"]][..0] == [];
  }

  lemma ZeroIdCollected()
    ensures Collect([("C0", 1)]) == [("C0", [1])]
  {
    assert [("C0", 1)][..0] == [];
  }

  /** As written, when the judges' only ranking is `["C0"]` over two answers, the
      second answer is shown at rank 1; the checked ranking reports the id instead. */
  lemma ZeroIdRankingShowsLastCompetitor(evaluations: Dict<string, string>, decode: JsonDecoder)
    requires Rankings(evaluations, decode) == [["C0"]]
    ensures FinalRanking(evaluations, decode, ["alpha", "beta"]) == Ranked([Shown(1, "beta", 1.0)])
    ensures FinalRankingChecked(evaluations, decode, ["alpha", "beta"]) == Ranked([Skipped("C0")])
  {
    ZeroIdAverages();
    var averages: Dict<string, real> := [("C0", 1.0)];
    assert SortByScore(averages) == averages by {
      assert averages[1..] == [];
    }
    ZeroIdDisplays();
  }

  lemma ZeroIdDisplays()
    ensures Display([("C0", 1.0)], ["alpha", "beta"]) == [Shown(1, "beta", 1.0)]
    ensures DisplayChecked([("C0", 1.0)], ["alpha", "beta"]) == [Skipped("C0")]
  {
    ZeroIdShowsLastCompetitor();
  }

  /** The script reports no valid rankings exactly when no judge produced a non-empty
      ranking: a judge whose reply does not parse contributes nothing and raises nothing. */
  lemma FinalRankingAborts(evaluations: Dict<string, string>, decode: JsonDecoder, competitors: seq<string>)
    ensures FinalRanking(evaluations, decode, competitors) == NoValidRankings <==>
      forall k :: 0 <= k < |evaluations| ==> JudgeRanking(evaluations[k].1, decode) == []
  {
    AverageRankingsEmpty(Rankings(evaluations, decode));
  }
}
