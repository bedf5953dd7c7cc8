/**
 * The recency-weighted team form score of `AnalysisService.get_team_form`.
 *
 * The fetched rows (the team's last N completed matches, most recent first)
 * are the input; the loop that walks them is a method, proved against the
 * functions `RawForm`, `MaxPossible` and `MinPossible` that describe it.
 */
module TeamForm {
  import opened Common
  import opened Numeric
  import opened Records

  /** Points a win is worth before the margin bonus. */
  const WIN_POINTS: real := 20.0
  /** The margin bonus of a win is capped at this many points. */
  const WIN_BONUS_CAP: int := 10
  /** Points a loss takes away before the closeness discount. */
  const LOSS_POINTS: real := 10.0
  /** The closeness discount of a loss is capped at this many points. */
  const LOSS_DISCOUNT_CAP: int := 5
  /** Each step further from the oldest fetched match adds this much weight. */
  const RECENCY_STEP: real := 0.2

  /** One entry of `recent_results`. */
  datatype FormResult = FormResult(matchId: int, won: bool, score: ScoreLine, playedAt: int)

  /** The dictionary `get_team_form` returns. */
  datatype FormReport = FormReport(formScore: real, recentResults: seq<FormResult>)

  /** The weight of the match processed `k`-th (from 0) out of `n`: `1 + 0.2 * (n - k)`. */
  function Weight(n: nat, k: nat): real {
    1.0 + RECENCY_STEP * (n - k) as real
  }

  /** Points a won match adds per unit of weight: 20 plus twice the margin, the bonus capped at 10. */
  function WinPoints(diff: int): (p: real)
    ensures p <= WIN_POINTS + WIN_BONUS_CAP as real
    ensures diff >= 5 ==> p == 30.0
    ensures 0 <= diff ==> 20.0 <= p
    ensures diff < 5 ==> p == WIN_POINTS + 2.0 * diff as real
  {
    WIN_POINTS + MinInt(diff * 2, WIN_BONUS_CAP) as real
  }

  /** Points a lost match takes away per unit of weight: 10 less the margin, the discount capped at 5. */
  function LossPoints(diff: int): (p: real)
    ensures 5.0 <= p <= 10.0
    ensures AbsInt(diff) >= 5 ==> p == 5.0
    ensures AbsInt(diff) < 5 ==> p == 10.0 - AbsInt(diff) as real
  {
    LOSS_POINTS - MinInt(AbsInt(diff), LOSS_DISCOUNT_CAP) as real
  }

  /** A closer loss never takes away more than a wider one. */
  lemma CloserLossSubtractsLess(closer: int, wider: int)
    requires AbsInt(closer) <= AbsInt(wider)
    ensures LossPoints(closer) >= LossPoints(wider)
  {
  }

  /** What match `m` adds to the running form score of `team` at weight `w`. */
  function Contribution(team: int, m: MatchRow, w: real): real {
    var diff := OwnScore(m, team) - OpponentScore(m, team);
    if WonBy(m, team) then WinPoints(diff) * w else -(LossPoints(diff) * w)
  }

  /**
   * The running form score after the first `k` of the fetched matches `ms`;
   * it never exceeds the best case of 30 points at each match's weight.
   */
  function RawForm(team: int, ms: seq<MatchRow>, k: nat): (raw: real)
    requires k <= |ms|
    ensures raw <= 30.0 * WeightSum(|ms|, k)
  {
    if k == 0 then 0.0
    else
      ContributionAtMost(team, ms[k - 1], Weight(|ms|, k - 1));
      RawForm(team, ms, k - 1) + Contribution(team, ms[k - 1], Weight(|ms|, k - 1))
  }

  /** At a non-negative weight a match adds at most 30 points per unit of weight. */
  lemma ContributionAtMost(team: int, m: MatchRow, w: real)
    requires w >= 0.0
    ensures Contribution(team, m, w) <= 30.0 * w
  {
    var diff := OwnScore(m, team) - OpponentScore(m, team);
    if WonBy(m, team) {
      MulNonNegative(30.0 - WinPoints(diff), w);
    } else {
      MulNonNegative(LossPoints(diff), w);
    }
  }

  /** `sum(points * (1 + 0.2 * i) for i in range(n))`. */
  function NormaliserSum(n: nat, points: real): real {
    if n == 0 then 0.0
    else NormaliserSum(n - 1, points) + points * (1.0 + RECENCY_STEP * (n - 1) as real)
  }

  /** The normaliser's best case for `n` matches. */
  function MaxPossible(n: nat): real {
    NormaliserSum(n, WIN_POINTS + WIN_BONUS_CAP as real)
  }

  /** The normaliser's worst case for `n` matches. */
  function MinPossible(n: nat): real {
    -NormaliserSum(n, LOSS_POINTS)
  }

  /** The rescaling of a raw score before the clamp; meaningful only when `n > 0`. */
  function Unclamped(raw: real, n: nat): real
    requires n > 0
  {
    SpanPositive(n);
    (raw - MinPossible(n)) / (MaxPossible(n) - MinPossible(n)) * 100.0
  }

  /** One summary row: the team's own score first, won iff the recorded winner is the team. */
  function FormSummary(team: int, m: MatchRow): (r: FormResult)
    ensures r.matchId == m.id && r.playedAt == m.playedAt
    ensures r.won <==> m.winnerId == Some(team)
    ensures m.team1Id == team ==> r.score == ScoreLine(m.team1Score, m.team2Score)
    ensures m.team1Id != team ==> r.score == ScoreLine(m.team2Score, m.team1Score)
  {
    FormResult(m.id, WonBy(m, team), ScoreLine(OwnScore(m, team), OpponentScore(m, team)), m.playedAt)
  }

  /** One more processed match adds its contribution at its recency weight. */
  lemma RawFormStep(team: int, ms: seq<MatchRow>, k: nat, before: real, after: real)
    requires k < |ms| && before == RawForm(team, ms, k)
    requires after == before + Contribution(team, ms[k], Weight(|ms|, k))
    ensures after == RawForm(team, ms, k + 1)
  {
  }

  /** The contribution of a match, as the two branches of the loop compute it. */
  lemma ContributionCases(team: int, m: MatchRow, diff: int, w: real)
    requires diff == OwnScore(m, team) - OpponentScore(m, team)
    ensures WonBy(m, team) ==> Contribution(team, m, w) == WinPoints(diff) * w
    ensures !WonBy(m, team) ==> Contribution(team, m, w) == -(LossPoints(diff) * w)
  {
  }

  /** The normaliser sums are positive exactly when there is at least one match. */
  lemma {:induction false} NormaliserSumPositive(n: nat, points: real)
    requires points > 0.0
    ensures n == 0 ==> NormaliserSum(n, points) == 0.0
    ensures n > 0 ==> NormaliserSum(n, points) > 0.0
  {
    if n > 0 {
      NormaliserSumPositive(n - 1, points);
      var w := 1.0 + RECENCY_STEP * (n - 1) as real;
      assert w >= 1.0;
      assert points * w > 0.0;
    }
  }

  /**
   * The denominator `max_possible - min_possible` is zero exactly when no
   * match was fetched, and then both bounds are zero.
   */
  lemma SpanPositive(n: nat)
    ensures n == 0 ==> MaxPossible(n) == 0.0 && MinPossible(n) == 0.0
    ensures n > 0 ==> MaxPossible(n) - MinPossible(n) > 0.0
  {
    NormaliserSumPositive(n, 30.0);
    NormaliserSumPositive(n, 10.0);
  }

  /**
   * The final rescaling and clamp of `get_team_form`: the raw score `raw` of `n` matches
   * rescaled between the normaliser's bounds and clamped to [0, 100]. With
   * no match both bounds are zero and Python's division raises.
   */
  function Normalise(raw: real, n: nat): (r: Result<real>)
    ensures r.Err? <==> n == 0
    ensures r.Err? ==> r.error == ZeroDivisionError
    ensures r.Ok? ==> 0.0 <= r.value <= 100.0
    ensures r.Ok? ==> r.value == ClampReal(0.0, 100.0, Unclamped(raw, n))
  {
    SpanPositive(n);
    var span := MaxPossible(n) - MinPossible(n);
    if span == 0.0 then Err(ZeroDivisionError)
    else Ok(ClampReal(0.0, 100.0, (raw - MinPossible(n)) / span * 100.0))
  }

  /** The `form_score` that `get_team_form` returns for the fetched rows `ms`. */
  function FormScore(team: int, ms: seq<MatchRow>): (r: Result<real>)
    ensures r.Err? <==> |ms| == 0
    ensures r.Ok? ==> 0.0 <= r.value <= 100.0
  {
    match Normalise(RawForm(team, ms, |ms|), |ms|)
    case Err(e) => Err(e)
    case Ok(v) => RoundCentsBetween(v, 0, 100); Ok(RoundCents(v))
  }

  /**
   * `get_team_form` over the fetched rows `matches` (most recent first).
   */
  method GetTeamForm(team: int, matches: seq<MatchRow>) returns (r: Result<FormReport>)
    ensures r.Err? <==> |matches| == 0
    ensures r.Err? ==> r.error == ZeroDivisionError
    ensures r.Ok? ==> 0.0 <= r.value.formScore <= 100.0
    ensures r.Ok? ==> r.value.formScore == FormScore(team, matches).value
    ensures r.Ok? ==> |r.value.recentResults| == |matches|
    ensures r.Ok? ==> forall i :: 0 <= i < |matches| ==> r.value.recentResults[i] == FormSummary(team, matches[i])
  {
    var formScore := 0.0;
    var recentResults: seq<FormResult> := [];
    var i := 0;
    while i < |matches|
      invariant 0 <= i <= |matches|
      invariant |recentResults| == i
      invariant formScore == RawForm(team, matches, i)
      invariant forall j :: 0 <= j < i ==> recentResults[j] == FormSummary(team, matches[j])
    {
      var m := matches[i];
      var isTeam1 := m.team1Id == team;
      var teamScore := if isTeam1 then m.team1Score else m.team2Score;
      var opponentScore := if isTeam1 then m.team2Score else m.team1Score;
      var won := m.winnerId == Some(team);
      var scoreDiff := teamScore - opponentScore;
      var weight := 1.0 + RECENCY_STEP * (|matches| - |recentResults|) as real;
      assert weight == Weight(|matches|, i);
      ContributionCases(team, m, scoreDiff, weight);
      ghost var before := formScore;
      if won {
        formScore := formScore + WinPoints(scoreDiff) * weight;
      } else {
        formScore := formScore - LossPoints(scoreDiff) * weight;
      }
      RawFormStep(team, matches, i, before, formScore);
      recentResults := recentResults + [FormResult(m.id, won, ScoreLine(teamScore, opponentScore), m.playedAt)];
      i := i + 1;
    }
    var normalised := Normalise(formScore, |matches|);
    if normalised.Err? {
      return Err(normalised.error);
    }
    RoundCentsBetween(normalised.value, 0, 100);
    r := Ok(FormReport(RoundCents(normalised.value), recentResults));
  }

  /** The total weight the loop hands out to the first `k` of `n` matches. */
  function WeightSum(n: nat, k: nat): real {
    if k == 0 then 0.0 else WeightSum(n, k - 1) + Weight(n, k - 1)
  }

  lemma {:induction false} WeightSumClosedForm(n: nat, k: nat)
    ensures WeightSum(n, k) == k as real + 0.2 * (n * k) as real - 0.1 * (k * (k - 1)) as real
  {
    if k > 0 {
      WeightSumClosedForm(n, k - 1);
      assert (n * k) == n * (k - 1) + n;
      assert k * (k - 1) == (k - 1) * (k - 2) + 2 * (k - 1);
    }
  }

  lemma {:induction false} NormaliserSumClosedForm(n: nat, points: real)
    ensures NormaliserSum(n, points) == points * (n as real + 0.1 * (n * (n - 1)) as real)
  {
    if n > 0 {
      NormaliserSumClosedForm(n - 1, points);
      assert n * (n - 1) == (n - 1) * (n - 2) + 2 * (n - 1);
    }
  }

  /**
   * The loop's weights run from `1 + 0.2 * n` down to `1 + 0.2 * 1`, while
   * the normaliser's run from `1 + 0.2 * 0` up to `1 + 0.2 * (n - 1)`: the
   * loop hands out `0.2 * n` more weight than the normaliser accounts for.
   */
  lemma WeightsExceedNormaliser(n: nat)
    ensures WeightSum(n, n) == NormaliserSum(n, 1.0) + 0.2 * n as real
  {
    WeightSumClosedForm(n, n);
    NormaliserSumClosedForm(n, 1.0);
    assert n * n - n * (n - 1) == n;
  }

  /** Every one of the first `k` fetched matches is a win by five or more. */
  ghost predicate AllDominantWins(team: int, ms: seq<MatchRow>, k: nat)
    requires k <= |ms|
  {
    forall j :: 0 <= j < k ==> WonBy(ms[j], team) && OwnScore(ms[j], team) - OpponentScore(ms[j], team) >= 5
  }

  lemma {:induction false} RawFormOfDominantWins(team: int, ms: seq<MatchRow>, k: nat)
    requires k <= |ms| && AllDominantWins(team, ms, k)
    ensures RawForm(team, ms, k) == 30.0 * WeightSum(|ms|, k)
  {
    if k > 0 {
      RawFormOfDominantWins(team, ms, k - 1);
      ContributionCases(team, ms[k - 1], OwnScore(ms[k - 1], team) - OpponentScore(ms[k - 1], team), Weight(|ms|, k - 1));
    }
  }

  /**
   * The final clamp of `get_team_form` is needed: when every fetched match is a win by
   * five rounds or more, the rescaled score lies strictly above 100.
   */
  lemma DominantWinsOvershoot(team: int, ms: seq<MatchRow>)
    requires |ms| > 0 && AllDominantWins(team, ms, |ms|)
    ensures Unclamped(RawForm(team, ms, |ms|), |ms|) > 100.0
    ensures FormScore(team, ms) == Ok(100.0)
  {
    var n := |ms|;
    RawFormOfDominantWins(team, ms, n);
    WeightsExceedNormaliser(n);
    NormaliserSumClosedForm(n, 1.0);
    NormaliserSumClosedForm(n, 30.0);
    NormaliserSumClosedForm(n, 10.0);
    SpanPositive(n);
    var unit := NormaliserSum(n, 1.0);
    var raw := RawForm(team, ms, n);
    assert MaxPossible(n) == 30.0 * unit;
    assert MinPossible(n) == -10.0 * unit;
    assert raw - MinPossible(n) == 40.0 * unit + 6.0 * n as real;
    var span := MaxPossible(n) - MinPossible(n);
    assert span == 40.0 * unit;
    assert raw - MinPossible(n) > span > 0.0;
    QuotientAboveOne(raw - MinPossible(n), span);
    RoundCentsOfCents(10000);
  }

  /**
   * A team whose last five results, most recent first, are W 16-5, W 16-10,
   * L 3-16, W 16-14 and L 8-16 has a form score above 50.
   */
  lemma MostlyWinningFormAboveHalf()
    ensures
      var ms := [
        MatchRow(1, Some(1), 1, 2, 16, 5, 5, None, None),
        MatchRow(2, Some(1), 2, 1, 10, 16, 4, None, None),
        MatchRow(3, Some(2), 1, 2, 3, 16, 3, None, None),
        MatchRow(4, Some(1), 1, 2, 16, 14, 2, None, None),
        MatchRow(5, Some(2), 2, 1, 16, 8, 1, None, None)];
      FormScore(1, ms).Ok? && FormScore(1, ms).value > 50.0
  {
    var ms := [
      MatchRow(1, Some(1), 1, 2, 16, 5, 5, None, None),
      MatchRow(2, Some(1), 2, 1, 10, 16, 4, None, None),
      MatchRow(3, Some(2), 1, 2, 3, 16, 3, None, None),
      MatchRow(4, Some(1), 1, 2, 16, 14, 2, None, None),
      MatchRow(5, Some(2), 2, 1, 16, 8, 1, None, None)];
    assert RawForm(1, ms, 1) == 60.0;
    assert RawForm(1, ms, 2) == 114.0;
    assert RawForm(1, ms, 3) == 106.0;
    assert RawForm(1, ms, 4) == 139.6;
    assert RawForm(1, ms, 5) == 133.6;
    NormaliserSumClosedForm(5, 30.0);
    NormaliserSumClosedForm(5, 10.0);
    assert MaxPossible(5) == 210.0 && MinPossible(5) == -70.0;
    assert Unclamped(133.6, 5) > 72.0;
  }
}
