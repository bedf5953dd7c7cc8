/** Rows of the `historical_matches` table as the analytics queries read them. */
module Records {
  import opened Common

  /**
   * One completed match. `winnerId` is NULL while the result is unresolved;
   * `playedAt` stands for the stored timestamp.
   */
  datatype MatchRow = MatchRow(
    id: int,
    winnerId: Option<int>,
    team1Id: int,
    team2Id: int,
    team1Score: int,
    team2Score: int,
    playedAt: int,
    mapName: Option<string>,
    eventName: Option<string>)

  /** A score rendered as "first-second"; the text formatting is not modelled. */
  datatype ScoreLine = ScoreLine(first: int, second: int)

  /** The score `team` made in `m`: the team1 column when it sat in slot 1, else the team2 column. */
  function OwnScore(m: MatchRow, team: int): int {
    if m.team1Id == team then m.team1Score else m.team2Score
  }

  /** The score of the other slot. */
  function OpponentScore(m: MatchRow, team: int): int {
    if m.team1Id == team then m.team2Score else m.team1Score
  }

  /** SQL `winner_id = team`: false when the winner is NULL. */
  predicate WonBy(m: MatchRow, team: int) {
    m.winnerId == Some(team)
  }

  /** The same match stored with the two slots exchanged. */
  function Swapped(m: MatchRow): MatchRow {
    m.(team1Id := m.team2Id, team2Id := m.team1Id,
       team1Score := m.team2Score, team2Score := m.team1Score)
  }

  /** Whether a team took part in `m` in either slot. */
  predicate Involves(m: MatchRow, team: int) {
    m.team1Id == team || m.team2Id == team
  }
}
