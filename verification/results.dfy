/** The results screen: the decoded grading payload is turned into an
    overall score with a colour band, a summary line, the per-question
    items and three rubric bars (clarity, structure, relevance), each the
    average item score scaled to 0..100. Scores are integers and
    JavaScript's `Math.round` is integer round-half-up. */
module Results {
  import opened Common

  /** The theme colour a score is drawn in. */
  datatype Color = Success | Primary | Warn | Danger

  /** Position of a band from best to worst. */
  function Rank(c: Color): nat
  {
    match c
    case Success => 3
    case Primary => 2
    case Warn => 1
    case Danger => 0
  }

  /** The colour band of a score: 85 and above, 70 to 84, 55 to 69, below 55. */
  function ColorFor(n: int): (c: Color)
    ensures c == Success <==> 85 <= n
    ensures c == Primary <==> 70 <= n < 85
    ensures c == Warn <==> 55 <= n < 70
    ensures c == Danger <==> n < 55
  {
    if n >= 85 then Success else if n >= 70 then Primary else if n >= 55 then Warn else Danger
  }

  /** A higher score never lands in a worse band. */
  lemma ColorForMonotone(n: int, m: int)
    requires n <= m
    ensures Rank(ColorFor(n)) <= Rank(ColorFor(m))
  {
  }

  /** JavaScript `Math.round(p / q)` for integers with `q > 0`: the nearest
      integer, halves rounded up. */
  function RoundHalfUp(p: int, q: int): (r: int)
    requires q > 0
    ensures 2 * r * q - q <= 2 * p < 2 * r * q + q
  {
    var r := (2 * p + q) / (2 * q);
    var m := (2 * p + q) % (2 * q);
    assert 2 * p + q == 2 * q * r + m;
    assert 2 * r * q == 2 * q * r;
    r
  }

  lemma MulMonotone(a: int, b: int, q: int)
    requires a <= b && q > 0
    ensures a * q <= b * q
  {
    assert b * q - a * q == (b - a) * q;
  }

  /** The nearest integer is unique: any integer within half of `p / q`
      is the one `RoundHalfUp` returns. */
  lemma RoundHalfUpUnique(p: int, q: int, k: int)
    requires q > 0
    requires 2 * k * q - q <= 2 * p < 2 * k * q + q
    ensures RoundHalfUp(p, q) == k
  {
    var r := RoundHalfUp(p, q);
    assert 2 * r * q == 2 * (r * q) && 2 * k * q == 2 * (k * q);
    assert (r + 1) * q == r * q + q && (k + 1) * q == k * q + q;
    if r < k {
      MulMonotone(r + 1, k, q);
    } else if r > k {
      MulMonotone(k + 1, r, q);
    }
  }

  // ---------------------------------------------------------------------
  // decoded payload

  datatype Criterion = Clarity | Structure | Relevance

  /** Per-item scores as the grading service sent them; any may be missing. */
  datatype Scores = Scores(clarity: Option<int>, structure: Option<int>, relevance: Option<int>)

  /** One graded item; a `null` item is `GradedItem(None, None, None)`. */
  datatype GradedItem = GradedItem(question: Option<string>, scores: Option<Scores>, feedback: Option<string>)

  datatype OverallGrade = OverallGrade(score: Option<int>, summary: Option<string>)

  /** `results` of the payload; `items` is `None` when it is not an array. */
  datatype GradeResults = GradeResults(overall: Option<OverallGrade>, items: Option<seq<GradedItem>>)

  /** The decoded navigation payload: session setup plus grading results. */
  datatype ResultsData = ResultsData(results: Option<GradeResults>)

  const NoSummary: string := "Summary not available."

  /** `scores[k]`: the score sent for criterion `k`, if any. */
  function Field(sc: Scores, k: Criterion): Option<int>
  {
    match k
    case Clarity => sc.clarity
    case Structure => sc.structure
    case Relevance => sc.relevance
  }

  /** `it?.scores?.[k] ?? 0`: the sent score, or 0 when the item has no
      scores or no score for `k`. */
  function ScoreOf(it: GradedItem, k: Criterion): (v: int)
    ensures it.scores.None? ==> v == 0
    ensures it.scores.Some? && Field(it.scores.value, k).Some? ==> v == Field(it.scores.value, k).value
    ensures it.scores.Some? && Field(it.scores.value, k).None? ==> v == 0
  {
    match it.scores
    case None => 0
    case Some(sc) => Field(sc, k).GetOr(0)
  }

  /** The sum the rubric's `reduce` computes for criterion `k`. */
  function SumScores(items: seq<GradedItem>, k: Criterion): int
  {
    if |items| == 0 then 0 else ScoreOf(items[0], k) + SumScores(items[1..], k)
  }

  /** Every item's score for `k` is a grade on the 0..10 scale. */
  predicate ScoresInRange(items: seq<GradedItem>, k: Criterion)
  {
    forall i :: 0 <= i < |items| ==> 0 <= ScoreOf(items[i], k) <= 10
  }

  /** The bar value for criterion `k`: ten times the average score,
      rounded, with the divisor at least 1, clamped to 0..100. */
  function RubricBar(items: seq<GradedItem>, k: Criterion): (v: int)
    ensures 0 <= v <= 100
    ensures |items| == 0 ==> v == 0
  {
    var n := if |items| > 1 then |items| else 1;
    Clamp(RoundHalfUp(10 * SumScores(items, k), n), 0, 100)
  }

  lemma {:induction false} SumScoresBounds(items: seq<GradedItem>, k: Criterion)
    requires ScoresInRange(items, k)
    ensures 0 <= SumScores(items, k) <= 10 * |items|
  {
    if |items| > 0 {
      SumScoresBounds(items[1..], k);
    }
  }

  lemma {:induction false} SumScoresConstant(items: seq<GradedItem>, k: Criterion, c: int)
    requires forall i :: 0 <= i < |items| ==> ScoreOf(items[i], k) == c
    ensures SumScores(items, k) == c * |items|
  {
    if |items| > 0 {
      SumScoresConstant(items[1..], k, c);
    }
  }

  /** Rounding an average of values in `0..100` stays in `0..100`. */
  lemma RoundedAverageInRange(t: int, n: int)
    requires n > 0 && 0 <= t <= 100 * n
    ensures 0 <= RoundHalfUp(t, n) <= 100
  {
    var r := RoundHalfUp(t, n);
    assert 2 * r * n == 2 * (r * n);
    assert 101 * n == 100 * n + n;
    if r < 0 {
      MulMonotone(r, -1, n);
    }
    if r > 100 {
      MulMonotone(101, r, n);
    }
  }

  /** When every item scores on the 0..10 scale the clamp never bites: the
      bar is exactly the rounded average times ten. */
  lemma RubricBarUnclamped(items: seq<GradedItem>, k: Criterion)
    requires |items| > 0 && ScoresInRange(items, k)
    ensures RubricBar(items, k) == RoundHalfUp(10 * SumScores(items, k), |items|)
  {
    SumScoresBounds(items, k);
    RoundedAverageInRange(10 * SumScores(items, k), |items|);
  }

  /** Items that all score `c` give the bar `10 * c`: the average of equal
      grades is that grade. */
  lemma RubricBarOfEqualScores(items: seq<GradedItem>, k: Criterion, c: int)
    requires |items| > 0 && 0 <= c <= 10
    requires forall i :: 0 <= i < |items| ==> ScoreOf(items[i], k) == c
    ensures RubricBar(items, k) == 10 * c
  {
    SumScoresConstant(items, k, c);
    RubricBarUnclamped(items, k);
    AverageOfEqual(SumScores(items, k), |items|, c);
  }

  /** `c * n` averaged over `n`, times ten and rounded, is `10 * c`. */
  lemma AverageOfEqual(t: int, n: int, c: int)
    requires n > 0 && t == c * n
    ensures RoundHalfUp(10 * t, n) == 10 * c
  {
    assert 10 * t == (10 * c) * n;
    RoundHalfUpUnique(10 * t, n, 10 * c);
  }

  // ---------------------------------------------------------------------
  // the screen

  /** What the results screen shows. */
  datatype View =
    | NoResults
    | Report(overall: int, overallColor: Color, summary: string, items: seq<GradedItem>,
             clarity: int, structure: int, relevance: int)

  /** The overall score: a missing score is 0, then clamped to 0..100. */
  function OverallScore(r: Option<GradeResults>): (v: int)
    ensures 0 <= v <= 100
    ensures r.Some? && r.value.overall.Some? && r.value.overall.value.score.Some?
            && 0 <= r.value.overall.value.score.value <= 100
            ==> v == r.value.overall.value.score.value
    ensures r.None? || r.value.overall.None? || r.value.overall.value.score.None? ==> v == 0
  {
    var s := match r
      case Some(g) => (match g.overall case Some(o) => o.score.GetOr(0) case None => 0)
      case None => 0;
    Clamp(s, 0, 100)
  }

  /** The summary line: the sent summary unless it is missing or empty. */
  function Summary(r: Option<GradeResults>): (s: string)
    ensures s != ""
    ensures r.Some? && r.value.overall.Some? && r.value.overall.value.summary.Some?
            && r.value.overall.value.summary.value != ""
            ==> s == r.value.overall.value.summary.value
    ensures !(r.Some? && r.value.overall.Some? && r.value.overall.value.summary.Some?
              && r.value.overall.value.summary.value != "")
            ==> s == NoSummary
  {
    var sent := match r
      case Some(g) => (match g.overall case Some(o) => o.summary.GetOr("") case None => "")
      case None => "";
    OrElse(sent, NoSummary)
  }

  /** The item list: anything other than an array counts as no items. */
  function Items(r: Option<GradeResults>): (items: seq<GradedItem>)
    ensures r.Some? && r.value.items.Some? ==> items == r.value.items.value
    ensures r.None? || r.value.items.None? ==> items == []
  {
    match r
    case Some(g) => g.items.GetOr([])
    case None => []
  }

  /** The screen for a payload: nothing decodable gives "No results";
      otherwise every number shown lies in 0..100. */
  function Render(decoded: Option<ResultsData>): (v: View)
    ensures v.NoResults? <==> decoded.None?
    ensures v.Report? ==> 0 <= v.overall <= 100 && v.overallColor == ColorFor(v.overall)
    ensures v.Report? ==> 0 <= v.clarity <= 100 && 0 <= v.structure <= 100 && 0 <= v.relevance <= 100
    ensures v.Report? && v.items == [] ==> v.clarity == 0 && v.structure == 0 && v.relevance == 0
    ensures v.Report? ==> v.summary != ""
    ensures decoded.Some? ==>
              && v.overall == OverallScore(decoded.value.results)
              && v.summary == Summary(decoded.value.results)
              && v.items == Items(decoded.value.results)
              && v.clarity == RubricBar(Items(decoded.value.results), Clarity)
              && v.structure == RubricBar(Items(decoded.value.results), Structure)
              && v.relevance == RubricBar(Items(decoded.value.results), Relevance)
  {
    match decoded
    case None => NoResults
    case Some(d) =>
      var items := Items(d.results);
      var overall := OverallScore(d.results);
      Report(overall, ColorFor(overall), Summary(d.results), items,
             RubricBar(items, Clarity), RubricBar(items, Structure), RubricBar(items, Relevance))
  }

  /** A complete payload is shown as sent: its in-range score with the
      matching colour, its summary, and its items. */
  lemma RenderShowsSentResults(score: int, summary: string, items: seq<GradedItem>)
    requires 0 <= score <= 100 && summary != ""
    ensures var v := Render(Some(ResultsData(Some(GradeResults(Some(OverallGrade(Some(score), Some(summary))), Some(items))))));
            && v.Report? && v.overall == score && v.overallColor == ColorFor(score)
            && v.summary == summary && v.items == items
  {
  }

  /** A payload without results is still a report, with every default:
      score 0 in the lowest band, the fallback summary, no items and empty
      bars. */
  lemma RenderOfMissingResults()
    ensures Render(Some(ResultsData(None))) == Report(0, Danger, NoSummary, [], 0, 0, 0)
  {
  }
}
