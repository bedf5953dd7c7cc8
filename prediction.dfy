/**
 * `PredictionModel.predict_match`: a deterministic heuristic that turns each
 * team's stored win rate, its recent form and the head-to-head record into a
 * predicted score out of 16, a win probability and a confidence.
 *
 * The three query results are inputs. `math.exp` is the parameter `exp`, of
 * which only positivity is assumed; lemmas that need a particular value of it
 * take that value as a premise.
 */
module Prediction {
  import opened Common
  import opened Numeric

  /** The win rate used when a team has no stats row or a NULL `win_rate`. */
  const DEFAULT_WIN_RATE: real := 50.0
  /** The score each base starts from. */
  const BASE_SCORE: real := 13.0
  /** Predicted scores are clamped to [0, MAX_SCORE]. */
  const MAX_SCORE: int := 16
  /** The slope of the logistic curve on the score difference. */
  const LOGISTIC_SLOPE: real := 0.4
  /** This many fetched rows (recent and head-to-head) give full data confidence. */
  const DATA_SATURATION: real := 15.0
  /** A score difference this large gives full difference confidence. */
  const DIFF_SATURATION: real := 8.0

  /** The `team_stats` row of a team; only `win_rate` is read. */
  datatype TeamStatsRow = TeamStatsRow(winRate: Option<real>)

  /**
   * One row of `_fetch_recent_form`: `won` is `winner_id = team_id`, NULL when
   * the winner is; the scores are read from the team's own side.
   */
  datatype RecentRow = RecentRow(won: Option<bool>, teamScore: int, oppScore: int)

  /** One row of `_fetch_h2h`. */
  datatype H2HRow = H2HRow(winnerId: Option<int>, team1Id: int, team1Score: int, team2Score: int)

  /** What `predict_match` fetches before it computes anything. */
  datatype PredictionInputs = PredictionInputs(
    stats1: Option<TeamStatsRow>,
    stats2: Option<TeamStatsRow>,
    recent1: seq<RecentRow>,
    recent2: seq<RecentRow>,
    h2h: seq<H2HRow>)

  /** The aggregates the base scores are computed from. */
  datatype Aggregates = Aggregates(
    winRate1: real,
    winRate2: real,
    recentWins1: nat,
    recentWins2: nat,
    avgDiff1: real,
    avgDiff2: real,
    h2hWins1: nat,
    h2hWins2: nat,
    dataRows: nat)

  /** `predicted_score`. */
  datatype PredictedScore = PredictedScore(team1: int, team2: int)

  /** The dictionary `predict_match` returns. */
  datatype Prediction = Prediction(score: PredictedScore, team1Pct: real, team2Pct: real, confidence: real)

  /** The stored win rate, or 50.0 when the row or its `win_rate` is missing. */
  function WinRateOf(stats: Option<TeamStatsRow>): (r: real)
    ensures stats.None? ==> r == DEFAULT_WIN_RATE
    ensures stats.Some? && stats.value.winRate.None? ==> r == DEFAULT_WIN_RATE
    ensures stats.Some? && stats.value.winRate.Some? ==> r == stats.value.winRate.value
  {
    match stats
    case None => DEFAULT_WIN_RATE
    case Some(row) =>
      match row.winRate
      case None => DEFAULT_WIN_RATE
      case Some(rate) => rate
  }

  predicate RecentWon(r: RecentRow) {
    r.won == Some(true)
  }

  /** `sum(1 for r in recent if r.get('won'))`: a NULL `won` is not a win. */
  function RecentWins(rows: seq<RecentRow>): nat {
    Count(rows, RecentWon)
  }

  /** The sum of the score differences of `rows`. */
  function DiffSum(rows: seq<RecentRow>): int {
    if rows == [] then 0 else DiffSum(rows[..|rows| - 1]) + (rows[|rows| - 1].teamScore - rows[|rows| - 1].oppScore)
  }

  /** The mean score difference, 0 for no rows (no division happens then). */
  function RecentAvgDiff(rows: seq<RecentRow>): real {
    if rows == [] then 0.0 else DiffSum(rows) as real / |rows| as real
  }

  /** How many head-to-head rows name `team` as winner. */
  function H2HWins(rows: seq<H2HRow>, team: int): nat {
    Count(rows, (m: H2HRow) => m.winnerId == Some(team))
  }

  /**
   * Everything `predict_match` derives from the fetched rows: the stored (or
   * default) win rates, win counts no larger than the rows they count, and
   * head-to-head wins of two distinct teams that together do not exceed the
   * meetings.
   */
  function Aggregate(team1: int, team2: int, inputs: PredictionInputs): (a: Aggregates)
    ensures a.winRate1 == WinRateOf(inputs.stats1) && a.winRate2 == WinRateOf(inputs.stats2)
    ensures a.recentWins1 <= |inputs.recent1| && a.recentWins2 <= |inputs.recent2|
    ensures team1 != team2 ==> a.h2hWins1 + a.h2hWins2 <= |inputs.h2h|
    ensures a.dataRows == |inputs.recent1| + |inputs.recent2| + |inputs.h2h|
  {
    assert team1 != team2 ==> H2HWins(inputs.h2h, team1) + H2HWins(inputs.h2h, team2) <= |inputs.h2h| by {
      if team1 != team2 {
        CountExclusive(inputs.h2h, (m: H2HRow) => m.winnerId == Some(team1), (m: H2HRow) => m.winnerId == Some(team2));
      }
    }
    Aggregates(
      WinRateOf(inputs.stats1),
      WinRateOf(inputs.stats2),
      RecentWins(inputs.recent1),
      RecentWins(inputs.recent2),
      RecentAvgDiff(inputs.recent1),
      RecentAvgDiff(inputs.recent2),
      H2HWins(inputs.h2h, team1),
      H2HWins(inputs.h2h, team2),
      |inputs.recent1| + |inputs.recent2| + |inputs.h2h|)
  }

  /** The adjustments of `base_team1` other than its win-rate term. */
  function FormAdjustment1(a: Aggregates): real {
    (a.recentWins1 as int - a.recentWins2 as int) as real * 0.8
    + (a.avgDiff1 - a.avgDiff2) * 0.15
    + (a.h2hWins1 as int - a.h2hWins2 as int) as real * 0.5
  }

  /** The adjustments of `base_team2` other than its win-rate term. */
  function FormAdjustment2(a: Aggregates): real {
    (a.recentWins2 as int - a.recentWins1 as int) as real * 0.8
    + (a.avgDiff2 - a.avgDiff1) * 0.15
    + (a.h2hWins2 as int - a.h2hWins1 as int) as real * 0.5
  }

  function Base1(a: Aggregates): real {
    BASE_SCORE + (a.winRate1 - 50.0) / 20.0 + FormAdjustment1(a)
  }

  function Base2(a: Aggregates): real {
    BASE_SCORE + (a.winRate2 - 50.0) / 20.0 + FormAdjustment2(a)
  }

  /** `max(0, min(16, round(base)))`. */
  function ClampedScore(base: real): (s: int)
    ensures 0 <= s <= MAX_SCORE
    ensures 0.0 <= base <= MAX_SCORE as real ==> -0.5 <= s as real - base <= 0.5
    ensures base < -0.5 ==> s == 0
    ensures base > MAX_SCORE as real + 0.5 ==> s == MAX_SCORE
  {
    var r := RoundHalfEven(base);
    assert 0.0 <= base <= MAX_SCORE as real ==> 0 <= r <= MAX_SCORE by {
      if 0.0 <= base <= MAX_SCORE as real {
        RoundHalfEvenBetween(base, 0, MAX_SCORE);
      }
    }
    ClampInt(0, MAX_SCORE, r)
  }

  /**
   * The tie-break: on equal scores the side with strictly more recent wins
   * gains a point, capped at 16.
   */
  function TieBreak(s1: int, s2: int, wins1: int, wins2: int): (r: PredictedScore)
    ensures s1 != s2 || wins1 == wins2 ==> r == PredictedScore(s1, s2)
    ensures 0 <= s1 <= MAX_SCORE && 0 <= s2 <= MAX_SCORE ==>
      0 <= r.team1 <= MAX_SCORE && 0 <= r.team2 <= MAX_SCORE
    ensures s1 <= MAX_SCORE && s2 <= MAX_SCORE ==> s1 <= r.team1 <= s1 + 1 && s2 <= r.team2 <= s2 + 1
    ensures s1 == s2 < MAX_SCORE && wins1 > wins2 ==> r.team1 > r.team2
    ensures s1 == s2 < MAX_SCORE && wins2 > wins1 ==> r.team2 > r.team1
    ensures s1 == s2 == MAX_SCORE ==> r == PredictedScore(s1, s2)
  {
    if s1 == s2 then
      if wins1 - wins2 > 0 then PredictedScore(MinInt(MAX_SCORE, s1 + 1), s2)
      else if wins2 - wins1 > 0 then PredictedScore(s1, MinInt(MAX_SCORE, s2 + 1))
      else PredictedScore(s1, s2)
    else PredictedScore(s1, s2)
  }

  /** The predicted score: both bases clamped, then the tie-break. */
  function Score(a: Aggregates): (s: PredictedScore)
    ensures 0 <= s.team1 <= MAX_SCORE && 0 <= s.team2 <= MAX_SCORE
  {
    TieBreak(ClampedScore(Base1(a)), ClampedScore(Base2(a)), a.recentWins1, a.recentWins2)
  }

  /** `1 / (1 + exp(-0.4 * score_diff))`. */
  function Logistic(diff: int, exp: real -> real): (p: real)
    requires forall x :: exp(x) > 0.0
    ensures 0.0 < p < 1.0
  {
    var e := exp(-LOGISTIC_SLOPE * diff as real);
    QuotientBelowOne(1.0, 1.0 + e);
    1.0 / (1.0 + e)
  }

  /** The team1 win probability in percent, to two decimals. */
  function Team1Pct(diff: int, exp: real -> real): (pct: real)
    requires forall x :: exp(x) > 0.0
    ensures 0.0 <= pct <= 100.0
  {
    RoundCentsBetween(Logistic(diff, exp) * 100.0, 0, 100);
    RoundCents(Logistic(diff, exp) * 100.0)
  }

  /** `min(1.0, rows / 15)`. */
  function DataFactor(rows: nat): (f: real)
    ensures 0.0 <= f <= 1.0
  {
    MinReal(1.0, rows as real / DATA_SATURATION)
  }

  /** `min(1.0, abs(score_diff) / 8)`. */
  function DiffFactor(diff: int): (f: real)
    ensures 0.0 <= f <= 1.0
  {
    MinReal(1.0, AbsInt(diff) as real / DIFF_SATURATION)
  }

  /** `round((0.4 * data_factor + 0.6 * diff_factor) * 100, 2)`. */
  function Confidence(rows: nat, diff: int): (c: real)
    ensures 0.0 <= c <= 100.0
  {
    var blend := (0.4 * DataFactor(rows) + 0.6 * DiffFactor(diff)) * 100.0;
    RoundCentsBetween(blend, 0, 100);
    RoundCents(blend)
  }

  /** `predict_match(team1_id, team2_id)` on the fetched rows. */
  function PredictMatch(team1: int, team2: int, inputs: PredictionInputs, exp: real -> real): (p: Prediction)
    requires forall x :: exp(x) > 0.0
    ensures 0 <= p.score.team1 <= MAX_SCORE && 0 <= p.score.team2 <= MAX_SCORE
    ensures 0.0 <= p.team1Pct <= 100.0 && 0.0 <= p.team2Pct <= 100.0
    ensures p.team1Pct + p.team2Pct == 100.0
    ensures 0.0 <= p.confidence <= 100.0
  {
    Forecast(Aggregate(team1, team2, inputs), exp)
  }

  /** The prediction made from the aggregates `a`. */
  function Forecast(a: Aggregates, exp: real -> real): (p: Prediction)
    requires forall x :: exp(x) > 0.0
    ensures 0 <= p.score.team1 <= MAX_SCORE && 0 <= p.score.team2 <= MAX_SCORE
    ensures 0.0 <= p.team1Pct <= 100.0 && 0.0 <= p.team2Pct <= 100.0
    ensures p.team1Pct + p.team2Pct == 100.0
    ensures 0.0 <= p.confidence <= 100.0
  {
    var score := Score(a);
    var diff := score.team1 - score.team2;
    Prediction(score, Team1Pct(diff, exp), Team2Pct(diff, exp), Confidence(a.dataRows, diff))
  }

  /** `round(100 - prob_team1_pct, 2)`: the complement of team1's probability. */
  function Team2Pct(diff: int, exp: real -> real): (pct: real)
    requires forall x :: exp(x) > 0.0
    ensures Team1Pct(diff, exp) + pct == 100.0
    ensures 0.0 <= pct <= 100.0
  {
    ComplementOfCents(Logistic(diff, exp) * 100.0);
    RoundCents(100.0 - Team1Pct(diff, exp))
  }

  /** `round(100 - round(x, 2), 2)` is exactly the complement of `round(x, 2)`. */
  lemma ComplementOfCents(x: real)
    ensures RoundCents(x) + RoundCents(100.0 - RoundCents(x)) == 100.0
  {
    var k := RoundHalfEven(x * 100.0);
    assert RoundCents(x) == k as real / 100.0;
    assert 100.0 - k as real / 100.0 == (10000 - k) as real / 100.0;
    RoundCentsOfCents(10000 - k);
  }

  /** Missing stats fall back to 50.0; missing recent form gives no wins and no difference. */
  lemma MissingDataDefaults(team1: int, team2: int, inputs: PredictionInputs)
    ensures var a := Aggregate(team1, team2, inputs);
      && (inputs.stats1.None? ==> a.winRate1 == DEFAULT_WIN_RATE)
      && (inputs.stats2.None? ==> a.winRate2 == DEFAULT_WIN_RATE)
      && (inputs.recent1 == [] ==> a.recentWins1 == 0 && a.avgDiff1 == 0.0)
      && (inputs.recent2 == [] ==> a.recentWins2 == 0 && a.avgDiff2 == 0.0)
      && (inputs.h2h == [] ==> a.h2hWins1 == 0 && a.h2hWins2 == 0)
  {
  }

  /** The sum of differences each in [lo, hi] lies between |rows|·lo and |rows|·hi. */
  lemma {:induction false} DiffSumBetween(rows: seq<RecentRow>, lo: int, hi: int)
    requires forall i :: 0 <= i < |rows| ==> lo <= rows[i].teamScore - rows[i].oppScore <= hi
    ensures |rows| * lo <= DiffSum(rows) <= |rows| * hi
  {
    if rows != [] {
      DiffSumBetween(rows[..|rows| - 1], lo, hi);
    }
  }

  /** The mean difference lies between the smallest and the largest difference. */
  lemma RecentAvgDiffBetween(rows: seq<RecentRow>, lo: int, hi: int)
    requires forall i :: 0 <= i < |rows| ==> lo <= rows[i].teamScore - rows[i].oppScore <= hi
    requires rows != [] || lo <= 0 <= hi
    ensures lo as real <= RecentAvgDiff(rows) <= hi as real
  {
    if rows != [] {
      DiffSumBetween(rows, lo, hi);
      ProductAsReal(lo, |rows|);
      ProductAsReal(hi, |rows|);
      MeanBetween(DiffSum(rows) as real, |rows| as real, lo as real, hi as real);
    }
  }

  /** Each team's recent-form and head-to-head adjustment is the other's negated. */
  lemma AdjustmentsAntisymmetric(a: Aggregates)
    ensures FormAdjustment2(a) == -FormAdjustment1(a)
    ensures Base1(a) + Base2(a) == 2.0 * BASE_SCORE + (a.winRate1 - 50.0) / 20.0 + (a.winRate2 - 50.0) / 20.0
  {
  }

  /** The inputs as they are when the two teams are given in the other order. */
  function SwapInputs(inputs: PredictionInputs): PredictionInputs {
    PredictionInputs(inputs.stats2, inputs.stats1, inputs.recent2, inputs.recent1, inputs.h2h)
  }

  /** The aggregates seen from the other team's side. */
  function SwapAggregates(a: Aggregates): Aggregates {
    Aggregates(a.winRate2, a.winRate1, a.recentWins2, a.recentWins1, a.avgDiff2, a.avgDiff1,
               a.h2hWins2, a.h2hWins1, a.dataRows)
  }

  /** Swapping the teams swaps every aggregate and keeps the row count. */
  lemma AggregateOfSwapped(team1: int, team2: int, inputs: PredictionInputs)
    ensures Aggregate(team2, team1, SwapInputs(inputs)) == SwapAggregates(Aggregate(team1, team2, inputs))
  {
  }

  /** The tie-break treats both sides alike. */
  lemma TieBreakSymmetric(s1: int, s2: int, wins1: int, wins2: int)
    ensures var r := TieBreak(s1, s2, wins1, wins2);
      TieBreak(s2, s1, wins2, wins1) == PredictedScore(r.team2, r.team1)
  {
  }

  /** Seen from the other side, the predicted score is the same score swapped. */
  lemma ScoreOfSwapped(a: Aggregates)
    ensures Score(SwapAggregates(a)) == PredictedScore(Score(a).team2, Score(a).team1)
  {
    assert Base1(SwapAggregates(a)) == Base2(a);
    assert Base2(SwapAggregates(a)) == Base1(a);
    TieBreakSymmetric(ClampedScore(Base1(a)), ClampedScore(Base2(a)), a.recentWins1, a.recentWins2);
  }

  /**
   * Asking with the teams in the other order swaps the predicted scores and
   * keeps the confidence.
   */
  lemma SwappedTeamsSwapScores(team1: int, team2: int, inputs: PredictionInputs, exp: real -> real)
    requires forall x :: exp(x) > 0.0
    ensures var p := PredictMatch(team1, team2, inputs, exp);
      var q := PredictMatch(team2, team1, SwapInputs(inputs), exp);
      q.score == PredictedScore(p.score.team2, p.score.team1) && q.confidence == p.confidence
  {
    var a := Aggregate(team1, team2, inputs);
    AggregateOfSwapped(team1, team2, inputs);
    ForecastOfSwapped(a, exp);
  }

  /** The forecast from the other side swaps the score and keeps the confidence. */
  lemma ForecastOfSwapped(a: Aggregates, exp: real -> real)
    requires forall x :: exp(x) > 0.0
    ensures var p := Forecast(a, exp);
      var q := Forecast(SwapAggregates(a), exp);
      q.score == PredictedScore(p.score.team2, p.score.team1) && q.confidence == p.confidence
  {
    ScoreOfSwapped(a);
    ConfidenceSymmetric(a.dataRows, Score(a).team1 - Score(a).team2);
  }

  /**
   * More fetched rows and a wider predicted score difference never lower the
   * confidence.
   */
  lemma ConfidenceMonotone(rows1: nat, rows2: nat, diff1: int, diff2: int)
    requires rows1 <= rows2 && AbsInt(diff1) <= AbsInt(diff2)
    ensures Confidence(rows1, diff1) <= Confidence(rows2, diff2)
  {
    assert DataFactor(rows1) <= DataFactor(rows2);
    assert DiffFactor(diff1) <= DiffFactor(diff2);
    RoundCentsMonotone((0.4 * DataFactor(rows1) + 0.6 * DiffFactor(diff1)) * 100.0,
                       (0.4 * DataFactor(rows2) + 0.6 * DiffFactor(diff2)) * 100.0);
  }

  /** The confidence depends on the size of the score difference, not its sign. */
  lemma ConfidenceSymmetric(rows: nat, diff: int)
    ensures Confidence(rows, -diff) == Confidence(rows, diff)
  {
    assert AbsInt(-diff) == AbsInt(diff);
  }

  /** Equal predicted scores give even odds when `exp(0) = 1`. */
  lemma EqualScoresEvenOdds(team1: int, team2: int, inputs: PredictionInputs, exp: real -> real)
    requires forall x :: exp(x) > 0.0
    requires exp(0.0) == 1.0
    requires PredictMatch(team1, team2, inputs, exp).score.team1 == PredictMatch(team1, team2, inputs, exp).score.team2
    ensures PredictMatch(team1, team2, inputs, exp).team1Pct == 50.0
    ensures PredictMatch(team1, team2, inputs, exp).team2Pct == 50.0
  {
    assert Logistic(0, exp) == 0.5;
    RoundCentsOfCents(5000);
  }

  /** No recent rows, no meetings and equal scores give confidence 0. */
  lemma NoDataNoConfidence()
    ensures Confidence(0, 0) == 0.0
  {
    RoundCentsOfCents(0);
  }

  /**
   * Two teams nothing is known about are predicted 13–13 with confidence 0,
   * and at even odds when `exp(0) = 1`.
   */
  lemma ColdStart(team1: int, team2: int, exp: real -> real)
    requires forall x :: exp(x) > 0.0
    requires exp(0.0) == 1.0
    ensures var p := PredictMatch(team1, team2, PredictionInputs(None, None, [], [], []), exp);
      p.score == PredictedScore(13, 13) && p.team1Pct == 50.0 && p.team2Pct == 50.0 && p.confidence == 0.0
  {
    var inputs := PredictionInputs(None, None, [], [], []);
    var a := Aggregate(team1, team2, inputs);
    assert Base1(a) == 13.0 && Base2(a) == 13.0;
    RoundHalfEvenUnique(13.0, 13);
    EqualScoresEvenOdds(team1, team2, inputs, exp);
    RoundCentsOfCents(0);
  }

  /**
   * Stored win rates of 70 and 30 and nothing else predict 14–12, with
   * confidence 15 and team1 above 66 percent once `exp(-0.8) <= 0.5`.
   */
  lemma StrongerTeamFavoured(team1: int, team2: int, exp: real -> real)
    requires forall x :: exp(x) > 0.0
    requires exp(-0.8) <= 0.5
    ensures var p := PredictMatch(team1, team2,
        PredictionInputs(Some(TeamStatsRow(Some(70.0))), Some(TeamStatsRow(Some(30.0))), [], [], []), exp);
      p.score == PredictedScore(14, 12) && p.confidence == 15.0 && p.team1Pct >= 66.0 && p.team1Pct > p.team2Pct
  {
    var inputs := PredictionInputs(Some(TeamStatsRow(Some(70.0))), Some(TeamStatsRow(Some(30.0))), [], [], []);
    var a := Aggregate(team1, team2, inputs);
    assert Base1(a) == 14.0 && Base2(a) == 12.0;
    RoundHalfEvenUnique(14.0, 14);
    RoundHalfEvenUnique(12.0, 12);
    assert -LOGISTIC_SLOPE * 2 as real == -0.8;
    var e := exp(-0.8);
    var l := Logistic(2, exp);
    assert l == 1.0 / (1.0 + e);
    assert l * (1.0 + e) == 1.0;
    MulNonNegative(l, 0.5 - e);
    assert l * 1.5 >= 1.0;
    assert l * 100.0 >= 66.0;
    RoundCentsBetween(l * 100.0, 66, 100);
    assert DiffFactor(2) == 0.25;
    RoundCentsOfCents(1500);
  }
}
