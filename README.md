# pandascore-feeder analytics, modelled in Dafny

This project models the analytics layer of pandascore-feeder, a CS:GO match
feeder. The layer is made of two services.

- `AnalysisService` (`api/services/analysis.py`) computes four things:
  - a team's recency-weighted form score;
  - the head-to-head record of two teams;
  - a team's per-map statistics;
  - a combined report that lines up the maps both teams play, most lopsided first.
- `PredictionModel` (`api/services/prediction.py`) does two things:
  - it turns stored win rates, recent form and head-to-head counts into a
    predicted score out of 16, a win probability and a confidence;
  - it upserts that prediction into the `predictions` table.

The database is not modelled. Each query's fetched rows are an input sequence
(`Records.MatchRow`, `Prediction.RecentRow`, `Prediction.H2HRow`), and the
`predictions` table is a map from match id to row, held by the class
`PredictionStore.PredictionTable`. Numbers are exact `real`s:
- Python's `round(x)` is `Numeric.RoundHalfEven`: the nearest integer, ties to even.
- `round(x, 2)` is `Numeric.RoundCents`: the same rule applied to `100·x`.
- `math.exp` is a parameter `exp`. The model assumes only that it is positive.
  Lemmas that need a particular value of it, such as `exp(0) = 1`, take that
  value as a premise.

Modules, one per concern of the source:

| file | module | models |
|---|---|---|
| common.dfy | `Common` | `Option`, `Result`, counting with a predicate |
| numeric.dfy | `Numeric` | `round`, `round(·, 2)`, `max(lo, min(hi, ·))` |
| records.dfy | `Records` | rows of `historical_matches` |
| team_form.dfy | `TeamForm` | `get_team_form` (the loop is a method) |
| head_to_head.dfy | `HeadToHead` | `get_head_to_head` (the loop is a method) |
| sorting.dfy | `Sorting` | the stable descending sort behind `ORDER BY … DESC` and `sorted(…, reverse=True)` |
| map_performance.dfy | `MapPerformance` | `get_map_performance` (the SQL as pure functions) |
| match_analysis.dfy | `MatchAnalysis` | `analyze_teams` (the common-maps loop is a method) |
| prediction.dfy | `Prediction` | `predict_match` (pure) |
| prediction_store.dfy | `PredictionStore` | `store_prediction` (a class over the table) |

When a team has no fetched matches, `get_team_form` computes `0 / 0` at
`api/services/analysis.py:72`: nothing guards the empty fetch, so the call
raises `ZeroDivisionError`. The model follows the code: `TeamForm.FormScore`,
`TeamForm.GetTeamForm` and `MatchAnalysis.AnalyzeTeams` return
`Err(ZeroDivisionError)` exactly when a team has no matches.

## Model

Generic proof helpers (arithmetic facts about quotients and products, and
counting facts such as `HeadToHead.CountSplit`) model no particular source
line and have no row.

| member | source | states |
|---|---|---|
| Common.Count | api/services/prediction.py:72-73 | `sum(1 for x in s if p(x))` is at most `len(s)`, and it is 0 exactly when no element satisfies `p` |
| Numeric.RoundHalfEven | api/services/prediction.py:86-87 | `round(x)` is within 0.5 of `x`, and a tie goes to the even integer |
| Numeric.RoundHalfEvenUnique | api/services/prediction.py:86-87 | those two conditions determine `round(x)` uniquely |
| Numeric.RoundHalfEvenBetween | api/services/prediction.py:86-87 | rounding a value that lies between two integers stays between them |
| Numeric.RoundCentsMonotone | api/services/prediction.py:106 | `round(x, 2) <= round(y, 2)` whenever `x <= y` |
| Numeric.RoundCents | api/services/analysis.py:75 | `round(x, 2)` is within half a cent of `x` |
| Numeric.RoundCentsOfCents | api/services/prediction.py:101 | a whole number of cents is unchanged by `round(·, 2)` |
| Numeric.RoundCentsBetween | api/services/analysis.py:141 | `round(x, 2)` of a value in integer bounds stays in those bounds |
| Numeric.ClampInt | api/services/prediction.py:86-87 | `max(lo, min(hi, v))` lies in [lo, hi], is `v` inside the range, and is the nearer bound outside it |
| Numeric.ClampReal | api/services/analysis.py:72 | the same for the real-valued clamp of the form score |
| TeamForm.WinPoints | api/services/analysis.py:57 | a win is worth at most 30 points per unit of weight, exactly 30 at a margin of 5 or more, `20 + 2·margin` below a margin of 5, and at least 20 for a non-negative margin |
| TeamForm.LossPoints | api/services/analysis.py:60 | a loss subtracts between 5 and 10 points per unit of weight: exactly 5 at a margin of 5 or more, and 10 minus the absolute margin below that |
| TeamForm.CloserLossSubtractsLess | api/services/analysis.py:58-60 | a closer loss never subtracts more than a wider one |
| TeamForm.FormSummary | api/services/analysis.py:45-50 | a result entry has the match's id and time, `won` iff the recorded winner is the team, and the team's own score first in either slot |
| TeamForm.RawForm | api/services/analysis.py:43-60 | the running form score never exceeds 30 points times the total weight handed out so far |
| TeamForm.RawFormStep | api/services/analysis.py:53-60 | each processed match adds its contribution at weight `1 + 0.2·(n - k)` |
| TeamForm.ContributionCases | api/services/analysis.py:55-60 | a win adds `WinPoints · weight`, and anything else subtracts `LossPoints · weight` |
| TeamForm.NormaliserSumPositive | api/services/analysis.py:70-71 | the normaliser sums are 0 for no matches and positive otherwise |
| TeamForm.SpanPositive | api/services/analysis.py:70-72 | `max_possible - min_possible` is positive when at least one match was fetched; with none, both bounds are 0 |
| TeamForm.Normalise | api/services/analysis.py:70-72 | the rescaled score raises `ZeroDivisionError` iff no match was fetched; otherwise it lies in [0, 100] and is the clamp of the linear rescaling |
| TeamForm.FormScore | api/services/analysis.py:69-75 | the returned form score raises iff there are no matches, and otherwise lies in [0, 100] |
| TeamForm.GetTeamForm | api/services/analysis.py:37-77 | the loop computes `FormScore`: it raises iff the fetch is empty, the score lies in [0, 100], and there is one result entry per fetched match, in fetch order |
| TeamForm.WeightSumClosedForm | api/services/analysis.py:54 | the loop's weights sum to `k + 0.2·n·k - 0.1·k·(k-1)` over the first `k` of `n` matches |
| TeamForm.NormaliserSumClosedForm | api/services/analysis.py:70-71 | `sum(points·(1 + 0.2·i) for i in range(n))` equals `points·(n + 0.1·n·(n-1))` |
| TeamForm.WeightsExceedNormaliser | api/services/analysis.py:54 | the loop's weights total `0.2·n` more than the normaliser's: the two weight schedules differ |
| TeamForm.RawFormOfDominantWins | api/services/analysis.py:57 | when every match is a win by 5 or more, the raw score is 30 times the loop's total weight |
| TeamForm.DominantWinsOvershoot | api/services/analysis.py:72 | for all-dominant wins the rescaled score exceeds 100 before the clamp, and the clamp brings the form score to 100 |
| TeamForm.MostlyWinningFormAboveHalf | api/services/analysis.py:43-75 | the five results W 16-5, W 16-10, L 3-16, W 16-14, L 8-16 give a form score above 50 |
| Common.CountExclusive | api/services/analysis.py:121-124 | matches counted by an `if`/`elif` pair are counted at most once |
| HeadToHead.H2HSummary | api/services/analysis.py:114-135 | a summary row has the match's id, map, event and time; its score reads team1's columns first when team1 was stored in slot 1 and the other columns first otherwise; it is tagged `'team1'` iff the recorded winner is team1 |
| HeadToHead.WinCountsBounded | api/services/analysis.py:121-126 | `team1_wins + team2_wins <= total_matches` |
| HeadToHead.SecondWinsOfDistinctTeams | api/services/analysis.py:123-124 | for distinct teams the `elif` counts exactly the matches team2 won |
| HeadToHead.SummaryFromTeam1Side | api/services/analysis.py:114-119 | the score line reads team1's own score first, and is the same whichever slot team1 was stored in |
| HeadToHead.UnresolvedWinnerTaggedTeam2 | api/services/analysis.py:121-131 | a winner that is neither team is counted for neither side, yet tagged `'team2'` |
| HeadToHead.GetHeadToHead | api/services/analysis.py:104-143 | the loop counts one per fetched match, counts each team's wins, and never counts more wins than matches; the rate is 0 without matches and `round(wins/total·100, 2)` otherwise; one summary per match, in fetch order |
| Sorting.Insert | api/services/analysis.py:222-224 | inserting into a list adds exactly that element |
| Sorting.InsertMembers | api/services/analysis.py:222-224 | inserting adds the new element and keeps every old one |
| Sorting.InsertSorted | api/services/analysis.py:222-224 | inserting into a descending list keeps it descending |
| Sorting.SortDesc | api/services/analysis.py:222-224 | the sort is a permutation of its input |
| Sorting.SortDescSorted | api/services/analysis.py:222-224 | the sort's result has non-increasing keys |
| Sorting.SortDescSameElements | api/services/analysis.py:222-224 | the sort keeps exactly the input's elements |
| Sorting.InsertKeepsDistinct | api/services/analysis.py:222-224 | inserting an element whose name is new keeps all names distinct |
| Sorting.SortKeepsDistinct | api/services/analysis.py:222-224 | sorting keeps all names distinct |
| MapPerformance.GroupOf | api/services/analysis.py:154-168 | the aggregates of a map count wins no more than matches, and there is a group exactly when the team played a row on that map |
| MapPerformance.GroupOfCounts | api/services/analysis.py:154-168 | a map's `COUNT(*)` is the number of the team's rows on that map, its wins are those of them the team won, and its rounds won and lost are the sums of the team's own and the opponent's scores over them, read from the slot the team occupied |
| MapPerformance.MapNames | api/services/analysis.py:165-167 | `GROUP BY map_name` yields each non-NULL map name of the team's rows exactly once |
| MapPerformance.HavingGroups | api/services/analysis.py:168 | exactly the groups with at least 3 matches pass `HAVING`, each one aggregating its own map, with distinct names |
| MapPerformance.MapStatOf | api/services/analysis.py:174-182 | an entry copies the map's name, match count and wins; its losses are the matches not won; its win rate and round averages are within half a cent of the exact percentage and means, and the win rate lies in [0, 100] |
| MapPerformance.ToStats | api/services/analysis.py:174-182 | one statistics entry per grouped row, in order |
| MapPerformance.SortedGroupsWellFormed | api/services/analysis.py:165-169 | every returned group passed `HAVING` and aggregates its own map |
| MapPerformance.GetMapPerformance | api/services/analysis.py:145-182 | each reported entry is the dictionary built from its own map's aggregates (`MapStatOf(GroupOf(…))`): the map was played at least 3 times, the match and win counts are that map's, `losses = total - wins`, the win rate is `round(wins/total·100, 2)` and lies in [0, 100], and the round averages are the rounded means of the rounds won and lost |
| MapPerformance.MapReportedIffEnoughMatches | api/services/analysis.py:164-168 | a map is reported iff the team played it at least 3 times |
| MapPerformance.MapNamesDistinct | api/services/analysis.py:167 | no map is reported twice |
| MapPerformance.MapStatsOrderedByWinRatio | api/services/analysis.py:169 | the list is ordered by non-increasing `wins / total` |
| MatchAnalysis.ByName | api/services/analysis.py:200-201 | the dictionary by map name has exactly the listed names, each mapped to an entry of that name |
| MatchAnalysis.Gap | api/services/analysis.py:223 | the sort key is the non-negative absolute difference of the two win rates |
| MatchAnalysis.AppendEntry | api/services/analysis.py:207-213 | appending an entry adds its map name and keeps distinct names distinct |
| MatchAnalysis.SortKeepsNames | api/services/analysis.py:222-224 | sorting `common_maps` keeps exactly the same map names |
| MatchAnalysis.SortKeepsCopies | api/services/analysis.py:222-224 | sorting `common_maps` keeps every entry's copied statistics |
| MatchAnalysis.CommonMaps | api/services/analysis.py:200-224 | `common_maps` holds exactly the maps in both lists, once each; each entry copies both teams' win rate and average rounds won; the list is ordered by non-increasing win-rate gap |
| MatchAnalysis.AnalyzeTeams | api/services/analysis.py:184-226 | the report raises `ZeroDivisionError` iff either team has no matches; otherwise it holds both form scores with one result entry per recent match, the head-to-head report (both win counts, the win rate, one summary per meeting), both map lists, and common maps that are exactly those both teams played at least 3 times, copy both teams' statistics, appear once each and are ordered by non-increasing win-rate gap |
| Prediction.WinRateOf | api/services/prediction.py:69-70 | the stored win rate, or 50.0 when the stats row or its `win_rate` is missing |
| Prediction.Aggregate | api/services/prediction.py:69-79 | the win rates are the stored or default ones; each team's recent wins are at most its recent rows; for distinct teams the two head-to-head win counts add up to at most the meetings; the data rows are all fetched rows |
| Prediction.MissingDataDefaults | api/services/prediction.py:69-79 | missing stats give 50.0; missing recent form gives 0 wins and 0 average difference; no meetings give 0 head-to-head wins |
| Prediction.DiffSumBetween | api/services/prediction.py:75-76 | a sum of score differences, each in [lo, hi], lies in [n·lo, n·hi] |
| Prediction.RecentAvgDiffBetween | api/services/prediction.py:75-76 | for a non-empty fetch the average score difference lies between any lower and upper bound on the individual differences; with no rows the average is the default 0, so it lies in any bounds around 0 |
| Prediction.AdjustmentsAntisymmetric | api/services/prediction.py:82-83 | team2's recent-form and head-to-head adjustment is team1's negated; the two bases sum to 26 plus the two win-rate terms |
| Prediction.ClampedScore | api/services/prediction.py:86-87 | a clamped score lies in [0, 16], is within 0.5 of a base in [0, 16], and is 0 or 16 for bases far outside |
| Prediction.TieBreak | api/services/prediction.py:89-94 | unequal scores or equal recent wins are left alone; scores stay in [0, 16]; on a tie below 16 the side with strictly more recent wins ends ahead; a 16-16 tie stays |
| Prediction.Score | api/services/prediction.py:86-94 | both predicted scores lie in [0, 16] after clamp and tie-break |
| Prediction.Logistic | api/services/prediction.py:99 | the logistic value lies strictly between 0 and 1 |
| Prediction.Team1Pct | api/services/prediction.py:99-100 | team1's probability in percent lies in [0, 100] |
| Prediction.Team2Pct | api/services/prediction.py:101 | team2's probability lies in [0, 100] and adds up with team1's to exactly 100 |
| Prediction.ComplementOfCents | api/services/prediction.py:100-101 | `round(x, 2) + round(100 - round(x, 2), 2) == 100` exactly |
| Prediction.DataFactor | api/services/prediction.py:104 | the data factor lies in [0, 1] |
| Prediction.DiffFactor | api/services/prediction.py:105 | the difference factor lies in [0, 1] |
| Prediction.Confidence | api/services/prediction.py:106 | the confidence lies in [0, 100] |
| Prediction.PredictMatch | api/services/prediction.py:68-112 | both scores lie in [0, 16]; both probabilities lie in [0, 100] and sum to exactly 100; the confidence lies in [0, 100] |
| Prediction.Forecast | api/services/prediction.py:86-106 | the same bounds for the prediction computed from the aggregates |
| Prediction.AggregateOfSwapped | api/services/prediction.py:69-79 | with the teams given in the other order, every aggregate changes sides and the row count stays |
| Prediction.TieBreakSymmetric | api/services/prediction.py:89-94 | the tie-break treats both sides alike |
| Prediction.ScoreOfSwapped | api/services/prediction.py:82-94 | seen from the other side, the predicted score is the same score swapped |
| Prediction.ConfidenceMonotone | api/services/prediction.py:104-106 | more fetched rows and a score difference of larger size never lower the confidence |
| Prediction.ConfidenceSymmetric | api/services/prediction.py:105-106 | the confidence depends on the size of the score difference, not its sign |
| Prediction.ForecastOfSwapped | api/services/prediction.py:82-106 | the forecast from the other side swaps the score and keeps the confidence |
| Prediction.SwappedTeamsSwapScores | api/services/prediction.py:82-106 | asking with the teams in the other order swaps the predicted scores and keeps the confidence |
| Prediction.EqualScoresEvenOdds | api/services/prediction.py:96-101 | equal predicted scores give 50/50 when `exp(0) = 1` |
| Prediction.NoDataNoConfidence | api/services/prediction.py:104-106 | no rows and a score difference of 0 give confidence 0 |
| Prediction.ColdStart | api/services/prediction.py:68-106 | two teams with no stats and no rows are predicted 13-13, at 50/50, with confidence 0 |
| Prediction.StrongerTeamFavoured | api/services/prediction.py:68-106 | win rates 70 and 30 and no rows predict 14-12 with confidence 15, and team1 at 66 percent or more |
| PredictionStore.PredictedWinner | api/services/prediction.py:116 | team1 iff its probability is strictly the larger, team2 otherwise (including 50/50) |
| PredictionStore.WinnerAboveHalf | api/services/prediction.py:116 | for distinct teams team1 is chosen iff its probability is above 50 percent |
| PredictionStore.Upsert | api/services/prediction.py:119-130 | after the upsert the match id holds the new row, and every other match id keeps its row |
| PredictionStore.UpsertIdempotent | api/services/prediction.py:119-130 | repeating an upsert with the same row changes nothing |
| PredictionStore.UpsertLastWins | api/services/prediction.py:123-129 | a later upsert for the same match replaces every column of the earlier row |
| PredictionStore.RowOfWellFormed | api/services/prediction.py:130-137 | a written row is tagged `heuristic_v1`, has scores in [0, 16] and confidence in [0, 100], and names one of the two teams as winner |
| PredictionStore.PredictionTable.StorePrediction | api/services/prediction.py:114-137 | the table becomes the upsert of the new row at `match_id`; other match ids are unchanged, and every row stays well formed |

## Left out

- Database, HTTP and I/O: connections, cursors, transactions, and the Python dictionaries' JSON shape are not modelled. Query results are input sequences.
- `LIMIT n`, `ORDER BY played_at DESC` and `played_at < NOW()`: the model takes the fetched rows as given, already limited and in fetch order.
- The SQL operator precedence in the head-to-head `WHERE` clause (`api/services/analysis.py:97-99`): the model takes the already fetched pair matches.
- Timestamps are an integer `playedAt`; `isoformat()` is not modelled. Score strings `"X-Y"` are the pair `Records.ScoreLine`; the text formatting is not modelled.
- NULL scores, and NULL sums of scores in the map query: scores are integers. Python would raise `TypeError` on a NULL score, and that path is not modelled.
- Floating point: numbers are exact reals. `round(x, 2)` is modelled as exact decimal rounding of `x`, ties to even. Python rounds the binary float, which can differ at a half cent.
- `math.exp` is the parameter `exp`, constrained only to be positive.
- MapPerformance.GetMapPerformance: SQL leaves the order of maps with equal win ratios open. The model lists groups in order of first appearance and sorts stably, which is one admissible order.
- MatchAnalysis.CommonMaps: the order in which a Python set yields its names is left unspecified (`:|`). The stable sort then keeps that arbitrary order among equal gaps.
- TeamForm.GetTeamForm: raises on zero matches, as the code does.
- Prediction.PredictMatch: its monotonicity in the score difference is not stated, because that needs properties of `exp` beyond positivity.
- PredictionStore.PredictionTable.StorePrediction: `created_at` is the `now` parameter, set on insert and on update. The table's column default is not part of this model, because migrations/run_migrations.py does not show the `predictions` schema.
- Stats computation in `api/teams.py`, the PandaScore fetches and the Pusher publishing are not part of this model.
