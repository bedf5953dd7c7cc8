/**
 * `PredictionModel.store_prediction`: the predicted winner is chosen from the
 * win probabilities and written to the `predictions` table, an upsert keyed by
 * `match_id`. The table is a map from match id to row.
 */
module PredictionStore {
  import opened Prediction

  /** The `prediction_model` tag of every row this code writes. */
  const MODEL_TAG: string := "heuristic_v1"

  /** One row of `predictions`. `createdAt` is the `NOW()` of the write. */
  datatype PredictionRow = PredictionRow(
    predictedWinnerId: int,
    confidence: real,
    team1Score: int,
    team2Score: int,
    model: string,
    createdAt: int)

  /** `team1_id` when team1's probability is strictly the larger, `team2_id` otherwise. */
  function PredictedWinner(team1: int, team2: int, p: Prediction): (w: int)
    ensures w == team1 || w == team2
    ensures p.team1Pct > p.team2Pct ==> w == team1
    ensures p.team1Pct <= p.team2Pct ==> w == team2
  {
    if p.team1Pct > p.team2Pct then team1 else team2
  }

  /** The row written for prediction `p` at time `now`. */
  function RowOf(team1: int, team2: int, p: Prediction, now: int): PredictionRow {
    PredictionRow(PredictedWinner(team1, team2, p), p.confidence, p.score.team1, p.score.team2, MODEL_TAG, now)
  }

  /**
   * `INSERT ... ON CONFLICT (match_id) DO UPDATE`: afterwards `matchId` holds
   * `row`, and every other match id keeps what it had.
   */
  function Upsert(rows: map<int, PredictionRow>, matchId: int, row: PredictionRow): (r: map<int, PredictionRow>)
    ensures r.Keys == rows.Keys + {matchId}
    ensures r[matchId] == row
    ensures forall id :: id in rows && id != matchId ==> r[id] == rows[id]
  {
    rows[matchId := row]
  }

  /** Upserting the same row twice leaves the table as upserting it once. */
  lemma UpsertIdempotent(rows: map<int, PredictionRow>, matchId: int, row: PredictionRow)
    ensures Upsert(Upsert(rows, matchId, row), matchId, row) == Upsert(rows, matchId, row)
  {
  }

  /** A later upsert for the same match replaces the earlier one entirely. */
  lemma UpsertLastWins(rows: map<int, PredictionRow>, matchId: int, first: PredictionRow, second: PredictionRow)
    ensures Upsert(Upsert(rows, matchId, first), matchId, second) == Upsert(rows, matchId, second)
  {
  }

  /**
   * For two distinct teams, team1 is the predicted winner exactly when its
   * probability is above 50 percent; an even 50/50 goes to team2.
   */
  lemma WinnerAboveHalf(team1: int, team2: int, inputs: PredictionInputs, exp: real -> real)
    requires forall x :: exp(x) > 0.0
    requires team1 != team2
    ensures var p := PredictMatch(team1, team2, inputs, exp);
      PredictedWinner(team1, team2, p) == team1 <==> p.team1Pct > 50.0
  {
  }

  /** Every row the table holds is one this code wrote: tagged, with bounded scores and confidence. */
  ghost predicate WellFormedRow(row: PredictionRow) {
    && row.model == MODEL_TAG
    && 0 <= row.team1Score <= MAX_SCORE
    && 0 <= row.team2Score <= MAX_SCORE
    && 0.0 <= row.confidence <= 100.0
  }

  /** The rows written for a prediction are well formed. */
  lemma RowOfWellFormed(team1: int, team2: int, inputs: PredictionInputs, exp: real -> real, now: int)
    requires forall x :: exp(x) > 0.0
    ensures WellFormedRow(RowOf(team1, team2, PredictMatch(team1, team2, inputs, exp), now))
    ensures var w := RowOf(team1, team2, PredictMatch(team1, team2, inputs, exp), now).predictedWinnerId;
      w == team1 || w == team2
  {
  }

  /** The `predictions` table. */
  class PredictionTable {
    var rows: map<int, PredictionRow>

    ghost predicate Valid()
      reads this
    {
      forall id :: id in rows ==> WellFormedRow(rows[id])
    }

    constructor()
      ensures rows == map[] && Valid()
    {
      rows := map[];
    }

    /**
     * `store_prediction(match_id, team1_id, team2_id)`, with the rows
     * `predict_match` would fetch as `inputs` and the database clock as `now`.
     */
    method StorePrediction(matchId: int, team1: int, team2: int, inputs: PredictionInputs, exp: real -> real, now: int)
      requires forall x :: exp(x) > 0.0
      requires Valid()
      modifies this
      ensures Valid()
      ensures rows == Upsert(old(rows), matchId, RowOf(team1, team2, PredictMatch(team1, team2, inputs, exp), now))
      ensures rows.Keys == old(rows).Keys + {matchId}
      ensures forall id :: id in old(rows) && id != matchId ==> rows[id] == old(rows)[id]
    {
      var prediction := PredictMatch(team1, team2, inputs, exp);
      var predictedWinner := if prediction.team1Pct > prediction.team2Pct then team1 else team2;
      var row := PredictionRow(predictedWinner, prediction.confidence, prediction.score.team1, prediction.score.team2,
                               MODEL_TAG, now);
      RowOfWellFormed(team1, team2, inputs, exp, now);
      rows := rows[matchId := row];
    }
  }
}
