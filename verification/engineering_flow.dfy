/** The develop/review/rewrite loop of the engineering crew flow
    (`engineering_team_using_flow/main.py`): the backend is developed and reviewed until
    a review passes or three reviews have been recorded, then the frontend goes through
    the same loop, and test cases are written only after both have passed review.
    The crews (design, coding, review, test writing) are oracles. */
module EngineeringFlow {
  import opened Wrappers

  /** `MAX_REVIEW_ITERATIONS` */
  const MaxReviews: nat := 3

  datatype Side = Backend | Frontend

  /** `CodeReviewFeedback`, reduced to what the flow reads. */
  datatype Feedback = Feedback(passed: bool, comments: string)

  /** `EngineeringState` (the module name and requirement are fixed inputs). */
  datatype EngState = EngState(
    design: string,
    backendCode: string,
    frontendCode: string,
    testCode: string,
    backendFeedbacks: seq<Feedback>,
    frontendFeedbacks: seq<Feedback>)

  const InitialState: EngState := EngState("", "", "", "", [], [])

  /** The router outcomes. */
  datatype Route = Reviewed(side: Side) | Rewrite(side: Side) | ReviewsExceeded

  /** What the flow asks the crews, in order. */
  datatype Event = Develop(side: Side, comments: string) | Review(side: Side, iteration: nat) | WriteTests

  /** The coding crew: code for a side, given the review comments to address. */
  type Developer = (Side, string) -> string

  /** The review crew: feedback on a side's code at a review iteration. */
  type Reviewer = (Side, string, nat) -> Feedback

  function Feedbacks(st: EngState, side: Side): seq<Feedback> {
    match side
    case Backend => st.backendFeedbacks
    case Frontend => st.frontendFeedbacks
  }

  function Code(st: EngState, side: Side): string {
    match side
    case Backend => st.backendCode
    case Frontend => st.frontendCode
  }

  /** The review comments `develop_*` passes on: those of the latest feedback, or
      nothing before the first review. */
  function LatestComments(fbs: seq<Feedback>): (c: string)
    ensures fbs == [] ==> c == ""
    ensures fbs != [] ==> c == fbs[|fbs| - 1].comments
  {
    if |fbs| == 0 then "" else fbs[|fbs| - 1].comments
  }

  /** `develop_backend` / `develop_frontend`: the coding crew gets the latest comments
      and its code replaces that side's code. */
  function DevelopNode(st: EngState, side: Side, develop: Developer): (EngState, Event) {
    var comments := LatestComments(Feedbacks(st, side));
    var code := develop(side, comments);
    var st' := match side
      case Backend => st.(backendCode := code)
      case Frontend => st.(frontendCode := code);
    (st', Develop(side, comments))
  }

  /** Development passes on the latest comments and changes only its own side's code. */
  lemma DevelopNodeEffect(st: EngState, side: Side, develop: Developer)
    ensures var r := DevelopNode(st, side, develop);
      r.1 == Develop(side, LatestComments(Feedbacks(st, side)))
      && Code(r.0, side) == develop(side, LatestComments(Feedbacks(st, side)))
      && Feedbacks(r.0, Backend) == Feedbacks(st, Backend) && Feedbacks(r.0, Frontend) == Feedbacks(st, Frontend)
      && (side == Backend ==> r.0.frontendCode == st.frontendCode)
      && (side == Frontend ==> r.0.backendCode == st.backendCode)
      && r.0.testCode == st.testCode
  {
  }

  /** `review_backend_code` / `review_frontend_code`: with three feedbacks recorded the
      review is not run; otherwise the review crew's feedback is appended and decides
      the route. */
  function ReviewNode(st: EngState, side: Side, review: Reviewer): (EngState, Route) {
    var fbs := Feedbacks(st, side);
    if |fbs| >= MaxReviews then (st, ReviewsExceeded)
    else
      var fb := review(side, Code(st, side), |fbs|);
      var st' := match side
        case Backend => st.(backendFeedbacks := fbs + [fb])
        case Frontend => st.(frontendFeedbacks := fbs + [fb]);
      (st', if fb.passed then Reviewed(side) else Rewrite(side))
  }

  /** At the cap a review changes nothing and routes to "exceeded"; below it exactly one
      feedback is appended and its verdict picks the route; no code and no other
      feedback list changes. */
  lemma ReviewNodeEffect(st: EngState, side: Side, review: Reviewer)
    ensures var r := ReviewNode(st, side, review);
      (|Feedbacks(st, side)| >= MaxReviews ==> r == (st, ReviewsExceeded))
      && (|Feedbacks(st, side)| < MaxReviews ==>
            var fb := review(side, Code(st, side), |Feedbacks(st, side)|);
            Feedbacks(r.0, side) == Feedbacks(st, side) + [fb]
            && r.1 == (if fb.passed then Reviewed(side) else Rewrite(side)))
      && Code(r.0, Backend) == Code(st, Backend) && Code(r.0, Frontend) == Code(st, Frontend)
      && (side == Backend ==> r.0.frontendFeedbacks == st.frontendFeedbacks)
      && (side == Frontend ==> r.0.backendFeedbacks == st.backendFeedbacks)
  {
  }

  function CountDevelops(evs: seq<Event>, side: Side): nat {
    if |evs| == 0 then 0
    else (if evs[0].Develop? && evs[0].side == side then 1 else 0) + CountDevelops(evs[1..], side)
  }

  /** The review iterations in a log, in order. */
  function ReviewIterations(evs: seq<Event>): seq<nat> {
    if |evs| == 0 then []
    else (if evs[0].Review? then [evs[0].iteration] else []) + ReviewIterations(evs[1..])
  }

  /** `k, k+1, ..., k+n-1` */
  function Upward(k: nat, n: nat): (r: seq<nat>)
    ensures |r| == n && forall i :: 0 <= i < n ==> r[i] == k + i
  {
    seq(n, i requires 0 <= i < n => k + i)
  }

  lemma UpwardCons(k: nat, n: nat)
    ensures [k] + Upward(k + 1, n) == Upward(k, n + 1)
  {
  }

  /** One round of a side's loop: develop, then review. */
  function Round(st: EngState, side: Side, develop: Developer, review: Reviewer): (EngState, Route) {
    ReviewNode(DevelopNode(st, side, develop).0, side, review)
  }

  function Measure(st: EngState, side: Side): nat {
    if |Feedbacks(st, side)| < MaxReviews then MaxReviews - |Feedbacks(st, side)| else 0
  }

  /** One side's loop: develop, review, and develop again while the review asks for a
      rewrite. The log holds one `Develop` per round and one `Review` per review run. */
  function Phase(st: EngState, side: Side, develop: Developer, review: Reviewer): (out: (EngState, seq<Event>, Route))
    ensures out.2 == Reviewed(side) || out.2 == ReviewsExceeded
    decreases Measure(st, side)
  {
    var r := Round(st, side, develop, review);
    var dev := Develop(side, LatestComments(Feedbacks(st, side)));
    var rev := Review(side, |Feedbacks(st, side)|);
    if r.1 == ReviewsExceeded then (r.0, [dev], r.1)
    else if r.1 == Rewrite(side) then
      var p := Phase(r.0, side, develop, review);
      (p.0, [dev, rev] + p.1, p.2)
    else (r.0, [dev, rev], r.1)
  }

  /** One round either stops at the cap, leaving the feedbacks alone, or appends one
      feedback whose verdict picks the route; the other side is never touched. */
  lemma RoundEffect(st: EngState, side: Side, develop: Developer, review: Reviewer)
    ensures var r := Round(st, side, develop, review);
      (r.1 == ReviewsExceeded <==> |Feedbacks(st, side)| >= MaxReviews)
      && (r.1 == ReviewsExceeded ==> Feedbacks(r.0, side) == Feedbacks(st, side))
      && (r.1 != ReviewsExceeded ==>
            Feedbacks(r.0, side) == Feedbacks(st, side) + [Feedbacks(r.0, side)[|Feedbacks(st, side)|]]
            && (r.1 == Reviewed(side) <==> Feedbacks(r.0, side)[|Feedbacks(st, side)|].passed)
            && (r.1 == Reviewed(side) || r.1 == Rewrite(side)))
      && (side == Backend ==> r.0.frontendFeedbacks == st.frontendFeedbacks && r.0.frontendCode == st.frontendCode)
      && (side == Frontend ==> r.0.backendFeedbacks == st.backendFeedbacks && r.0.backendCode == st.backendCode)
  {
    var st1 := DevelopNode(st, side, develop).0;
    DevelopNodeEffect(st, side, develop);
    ReviewNodeEffect(st1, side, review);
  }

  /** A round's log entries in front of a log: one development of the side and one
      review numbered `n`. */
  lemma RoundLog(side: Side, comments: string, n: nat, evs: seq<Event>)
    ensures var log := [Develop(side, comments), Review(side, n)] + evs;
      (forall s :: CountDevelops(log, s) == (if s == side then 1 else 0) + CountDevelops(evs, s))
      && ReviewIterations(log) == [n] + ReviewIterations(evs)
  {
    var log := [Develop(side, comments), Review(side, n)] + evs;
    assert log[1..] == [Review(side, n)] + evs;
    assert log[1..][1..] == evs;
  }

  /** A loop only appends to its side's feedbacks, never beyond the cap, and reaches
      the cap when it reports that the reviews were exceeded. */
  lemma {:induction false} PhaseFeedbacks(st: EngState, side: Side, develop: Developer, review: Reviewer)
    ensures var out := Phase(st, side, develop, review);
      Feedbacks(st, side) <= Feedbacks(out.0, side)
      && (|Feedbacks(st, side)| <= MaxReviews ==> |Feedbacks(out.0, side)| <= MaxReviews)
      && (out.2 == ReviewsExceeded ==> |Feedbacks(out.0, side)| >= MaxReviews)
    decreases Measure(st, side)
  {
    var r := Round(st, side, develop, review);
    RoundEffect(st, side, develop, review);
    if r.1 == Rewrite(side) {
      PhaseFeedbacks(r.0, side, develop, review);
    }
  }

  /** A loop that ends reviewed ends on a passing feedback it appended. */
  lemma {:induction false} PhaseEndsOnPass(st: EngState, side: Side, develop: Developer, review: Reviewer)
    ensures var out := Phase(st, side, develop, review);
      out.2 == Reviewed(side) ==>
        |Feedbacks(out.0, side)| > |Feedbacks(st, side)| && Feedbacks(out.0, side)[|Feedbacks(out.0, side)| - 1].passed
    decreases Measure(st, side)
  {
    var r := Round(st, side, develop, review);
    RoundEffect(st, side, develop, review);
    if r.1 == Rewrite(side) {
      PhaseEndsOnPass(r.0, side, develop, review);
    }
  }

  /** Every feedback a loop appends before its last one failed: the loop goes on only
      after a failed review. */
  lemma {:induction false} PhaseFailsBeforeLast(st: EngState, side: Side, develop: Developer, review: Reviewer)
    ensures var fbs := Feedbacks(Phase(st, side, develop, review).0, side);
      forall i :: |Feedbacks(st, side)| <= i < |fbs| - 1 ==> !fbs[i].passed
    decreases Measure(st, side)
  {
    var r := Round(st, side, develop, review);
    RoundEffect(st, side, develop, review);
    if r.1 == Rewrite(side) {
      PhaseFailsBeforeLast(r.0, side, develop, review);
      PhaseFeedbacks(r.0, side, develop, review);
      var fin := Phase(r.0, side, develop, review).0;
      var n := |Feedbacks(st, side)|;
      assert Feedbacks(r.0, side)[n] == Feedbacks(fin, side)[n];
    }
  }

  /** A loop leaves the other side's code and feedbacks alone. */
  lemma {:induction false} PhaseLeavesOtherSide(st: EngState, side: Side, develop: Developer, review: Reviewer)
    ensures var out := Phase(st, side, develop, review);
      (side == Backend ==> out.0.frontendFeedbacks == st.frontendFeedbacks && out.0.frontendCode == st.frontendCode)
      && (side == Frontend ==> out.0.backendFeedbacks == st.backendFeedbacks && out.0.backendCode == st.backendCode)
    decreases Measure(st, side)
  {
    var r := Round(st, side, develop, review);
    RoundEffect(st, side, develop, review);
    if r.1 == Rewrite(side) {
      PhaseLeavesOtherSide(r.0, side, develop, review);
    }
  }

  /** A loop develops once per feedback it appends, plus once more when it hits the cap;
      so from no feedback it develops at most `MaxReviews + 1` times. It develops only its
      own side. */
  lemma {:induction false} PhaseDevelops(st: EngState, side: Side, develop: Developer, review: Reviewer)
    ensures var out := Phase(st, side, develop, review);
      var other := if side == Backend then Frontend else Backend;
      CountDevelops(out.1, side) ==
        |Feedbacks(out.0, side)| - |Feedbacks(st, side)| + (if out.2 == ReviewsExceeded then 1 else 0)
      && CountDevelops(out.1, other) == 0
    decreases Measure(st, side)
  {
    var r := Round(st, side, develop, review);
    RoundEffect(st, side, develop, review);
    var comments := LatestComments(Feedbacks(st, side));
    var n := |Feedbacks(st, side)|;
    if r.1 == Rewrite(side) {
      PhaseDevelops(r.0, side, develop, review);
      PhaseFeedbacks(r.0, side, develop, review);
      RoundLog(side, comments, n, Phase(r.0, side, develop, review).1);
    } else if r.1 != ReviewsExceeded {
      RoundLog(side, comments, n, []);
      assert [Develop(side, comments), Review(side, n)] + [] == Phase(st, side, develop, review).1;
    } else {
      assert Phase(st, side, develop, review).1 == [Develop(side, comments)];
      assert [Develop(side, comments)][1..] == [];
    }
  }

  /** The `iteration` input of each review equals the number of feedbacks recorded before
      it: a loop's reviews are numbered on from its starting count, one per feedback. */
  lemma {:induction false} PhaseIterations(st: EngState, side: Side, develop: Developer, review: Reviewer)
    ensures var out := Phase(st, side, develop, review);
      |Feedbacks(st, side)| <= |Feedbacks(out.0, side)|
      && ReviewIterations(out.1) == Upward(|Feedbacks(st, side)|, |Feedbacks(out.0, side)| - |Feedbacks(st, side)|)
    decreases Measure(st, side)
  {
    var r := Round(st, side, develop, review);
    RoundEffect(st, side, develop, review);
    var comments := LatestComments(Feedbacks(st, side));
    var n := |Feedbacks(st, side)|;
    if r.1 == Rewrite(side) {
      PhaseIterations(r.0, side, develop, review);
      var out := Phase(r.0, side, develop, review);
      assert Phase(st, side, develop, review).1 == [Develop(side, comments), Review(side, n)] + out.1;
      assert Phase(st, side, develop, review).0 == out.0;
      RoundLog(side, comments, n, out.1);
      UpwardCons(n, |Feedbacks(out.0, side)| - n - 1);
    } else if r.1 != ReviewsExceeded {
      RoundLog(side, comments, n, []);
      assert [Develop(side, comments), Review(side, n)] + [] == Phase(st, side, develop, review).1;
      UpwardCons(n, 0);
    } else {
      assert Phase(st, side, develop, review).1 == [Develop(side, comments)];
      assert [Develop(side, comments)][1..] == [];
    }
  }

  /** A loop's log holds only development and review steps. */
  lemma {:induction false} NoTestsInPhase(st: EngState, side: Side, develop: Developer, review: Reviewer)
    ensures WriteTests !in Phase(st, side, develop, review).1
    decreases Measure(st, side)
  {
    var r := Round(st, side, develop, review);
    if r.1 == Rewrite(side) {
      NoTestsInPhase(r.0, side, develop, review);
    }
  }

  /** The outcome of a whole run. */
  datatype Outcome = TestsPrepared | StoppedIn(side: Side)

  /** `kickoff`: design, the backend loop, the frontend loop, then the test cases. A loop
      that reaches the review cap ends the flow there, since nothing listens for that route. */
  function Run(designer: () -> string, develop: Developer, review: Reviewer, tester: (string, string) -> string):
    (out: (EngState, seq<Event>, Outcome))
    ensures out.2 == TestsPrepared <==> WriteTests in out.1
  {
    var st0 := InitialState.(design := designer());
    var back := Phase(st0, Backend, develop, review);
    NoTestsInPhase(st0, Backend, develop, review);
    if back.2 == ReviewsExceeded then (back.0, back.1, StoppedIn(Backend))
    else
      var front := Phase(back.0, Frontend, develop, review);
      NoTestsInPhase(back.0, Frontend, develop, review);
      if front.2 == ReviewsExceeded then (front.0, back.1 + front.1, StoppedIn(Frontend))
      else
        var st3 := front.0.(testCode := tester(front.0.backendCode, front.0.frontendCode));
        (st3, back.1 + front.1 + [WriteTests], TestsPrepared)
  }

  /** Neither feedback list outgrows the cap. */
  lemma RunFeedbacksBounded(designer: () -> string, develop: Developer, review: Reviewer, tester: (string, string) -> string)
    ensures var out := Run(designer, develop, review, tester);
      |out.0.backendFeedbacks| <= MaxReviews && |out.0.frontendFeedbacks| <= MaxReviews
  {
    var st0 := InitialState.(design := designer());
    var back := Phase(st0, Backend, develop, review);
    var out := Run(designer, develop, review, tester);
    PhaseFeedbacks(st0, Backend, develop, review);
    PhaseLeavesOtherSide(st0, Backend, develop, review);
    if back.2 == ReviewsExceeded {
      assert out.0 == back.0;
    } else {
      var front := Phase(back.0, Frontend, develop, review);
      PhaseFeedbacks(back.0, Frontend, develop, review);
      PhaseLeavesOtherSide(back.0, Frontend, develop, review);
      assert out.0.backendFeedbacks == front.0.backendFeedbacks == back.0.backendFeedbacks;
      assert out.0.frontendFeedbacks == Feedbacks(front.0, Frontend);
    }
  }

  /** Test cases are written only once the latest backend review and the latest
      frontend review have both passed, and they are written for the final code. */
  lemma RunOutcome(designer: () -> string, develop: Developer, review: Reviewer, tester: (string, string) -> string)
    ensures var out := Run(designer, develop, review, tester);
      out.2 == TestsPrepared ==>
        out.0.backendFeedbacks != [] && out.0.backendFeedbacks[|out.0.backendFeedbacks| - 1].passed
        && out.0.frontendFeedbacks != [] && out.0.frontendFeedbacks[|out.0.frontendFeedbacks| - 1].passed
        && out.0.testCode == tester(out.0.backendCode, out.0.frontendCode)
  {
    var st0 := InitialState.(design := designer());
    var back := Phase(st0, Backend, develop, review);
    var out := Run(designer, develop, review, tester);
    if back.2 != ReviewsExceeded {
      var front := Phase(back.0, Frontend, develop, review);
      if front.2 != ReviewsExceeded {
        assert out.0 == front.0.(testCode := tester(front.0.backendCode, front.0.frontendCode));
        PhaseEndsOnPass(st0, Backend, develop, review);
        PhaseEndsOnPass(back.0, Frontend, develop, review);
        PhaseLeavesOtherSide(back.0, Frontend, develop, review);
        assert out.0.frontendFeedbacks == Feedbacks(front.0, Frontend);
        assert out.0.backendFeedbacks == Feedbacks(back.0, Backend);
      }
    }
  }

  /** Each side's code is developed at most `MaxReviews + 1` times in a run. */
  lemma DevelopBound(designer: () -> string, develop: Developer, review: Reviewer, tester: (string, string) -> string)
    ensures var out := Run(designer, develop, review, tester);
      CountDevelops(out.1, Backend) <= MaxReviews + 1 && CountDevelops(out.1, Frontend) <= MaxReviews + 1
  {
    var st0 := InitialState.(design := designer());
    var back := Phase(st0, Backend, develop, review);
    PhaseDevelops(st0, Backend, develop, review);
    PhaseFeedbacks(st0, Backend, develop, review);
    if back.2 != ReviewsExceeded {
      var front := Phase(back.0, Frontend, develop, review);
      PhaseDevelops(back.0, Frontend, develop, review);
      PhaseFeedbacks(back.0, Frontend, develop, review);
      CountDevelopsAppend(back.1, front.1, Backend);
      CountDevelopsAppend(back.1, front.1, Frontend);
      if front.2 != ReviewsExceeded {
        CountDevelopsAppend(back.1 + front.1, [WriteTests], Backend);
        CountDevelopsAppend(back.1 + front.1, [WriteTests], Frontend);
      }
    }
  }

  lemma {:induction false} CountDevelopsAppend(a: seq<Event>, b: seq<Event>, side: Side)
    ensures CountDevelops(a + b, side) == CountDevelops(a, side) + CountDevelops(b, side)
    decreases |a|
  {
    if |a| > 0 {
      assert (a + b)[1..] == a[1..] + b;
      CountDevelopsAppend(a[1..], b, side);
    } else {
      assert a + b == b;
    }
  }
}
