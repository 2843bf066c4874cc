/** The anonymised competition of the judged-ranking script: answers are labelled
    `C1..Cn` in the order of the answers dict, the judges see them as one text, and
    a judge's id is mapped back to a competitor name when results are shown
    (`elchanio_wk1_lab2_llm_parallel_evaluation.py`, lines 338-347 and 443). */
module Competition {
  import opened Wrappers
  import opened Text

  /** The id of the `i`-th answer (0-based): `f"C{i+1}"`. */
  function Label(i: nat): string {
    "C" + NatToString(i + 1)
  }

  const Rule: string := Repeat('-', 50)

  /** What one answer adds to the judge text. */
  function Block(i: nat, answer: string): string {
    "# Response from competitor '" + Label(i) + "'\n\n" + answer + "\n\n" + Rule + "\n\n"
  }

  /** `together`, built by appending one block per answer in order. */
  function Together(answers: seq<string>): (t: string)
    decreases |answers|
  {
    if |answers| == 0 then ""
    else Together(answers[..|answers| - 1]) + Block(|answers| - 1, answers[|answers| - 1])
  }

  function Blocks(answers: seq<string>): (bs: seq<string>)
    ensures |bs| == |answers| && forall i :: 0 <= i < |answers| ==> bs[i] == Block(i, answers[i])
  {
    seq(|answers|, i requires 0 <= i < |answers| => Block(i, answers[i]))
  }

  /** The judge text is the blocks of all answers, in order, with nothing in between. */
  lemma {:induction false} TogetherIsBlocks(answers: seq<string>)
    ensures Together(answers) == Concat(Blocks(answers))
    decreases |answers|
  {
    if |answers| > 0 {
      var n := |answers| - 1;
      TogetherIsBlocks(answers[..n]);
      var all, front := Blocks(answers), Blocks(answers[..n]);
      assert forall j :: 0 <= j < n ==> all[j] == front[j];
      assert all == front + [all[n]];
      ConcatSnoc(front, all[n]);
    }
  }

  /** Every answer appears in the judge text under its own label. */
  lemma TogetherHasEveryAnswer(answers: seq<string>, i: nat)
    requires i < |answers|
    ensures Contains(Together(answers), Block(i, answers[i]))
  {
    TogetherIsBlocks(answers);
    ConcatContains(Blocks(answers), i);
  }

  /** `int(competitor.lower().strip('c')) - 1`: the position a judge's id points at,
      `None` where `int` raises `ValueError`. */
  function CompetitorIndex(id: string): (r: Option<int>)
  {
    match ParseInt(StripChar(Lower(id), 'c'))
    case None => None
    case Some(k) => Some(k - 1)
  }

  /** A bare number, without the `C`, points at the position one below it. */
  lemma NumberIndex(n: nat)
    ensures CompetitorIndex(NatToString(n)) == Some(n - 1)
  {
    var digits := NatToString(n);
    LowerOfDigits(digits);
    assert IsDigit(digits[0]) && IsDigit(digits[|digits| - 1]);
    StripCharOfOthers(digits, 'c');
    ParseIntOfNatToString(n);
  }

  /** Reading a label back gives the position it was made from. */
  lemma LabelRoundTrip(i: nat)
    ensures CompetitorIndex(Label(i)) == Some(i)
  {
    var digits := NatToString(i + 1);
    var lowered := Lower(Label(i));
    assert lowered == "c" + digits by {
      forall k | 0 <= k < |lowered| ensures lowered[k] == ("c" + digits)[k] {
        if k > 0 {
          assert Label(i)[k] == digits[k - 1];
        }
      }
    }
    assert lowered[1..] == digits;
    assert IsDigit(digits[0]) && IsDigit(digits[|digits| - 1]);
    StripCharOfOthers(digits, 'c');
    ParseIntOfNatToString(i + 1);
  }
}
