/**
 * The head-to-head aggregation of `AnalysisService.get_head_to_head`.
 *
 * The input is the already fetched list of matches between the two teams,
 * most recent first, in whichever slot order each was stored.
 */
module HeadToHead {
  import opened Common
  import opened Numeric
  import opened Records

  /** The `winner` tag of a summary row. */
  datatype WinnerTag = Team1 | Team2

  /** One entry of `recent_matches`. */
  datatype H2HMatch = H2HMatch(
    matchId: int,
    score: ScoreLine,
    winner: WinnerTag,
    mapName: Option<string>,
    event: Option<string>,
    playedAt: int)

  /** The dictionary `get_head_to_head` returns. */
  datatype H2HReport = H2HReport(
    totalMatches: nat,
    team1Wins: nat,
    team2Wins: nat,
    team1WinRate: real,
    recentMatches: seq<H2HMatch>)

  /** How many of `rows` name `team` as winner. */
  function WinsFor(rows: seq<MatchRow>, team: int): nat {
    Count(rows, (m: MatchRow) => WonBy(m, team))
  }

  /** What the `elif` branch counts: rows won by `team2` and not by `team1`. */
  function SecondWins(rows: seq<MatchRow>, team1: int, team2: int): nat {
    Count(rows, (m: MatchRow) => WonBy(m, team2) && !WonBy(m, team1))
  }

  /**
   * One summary row: the score from `team1`'s side (its slot-1 columns when it
   * was stored as team1, its slot-2 columns otherwise), and the tag `Team1`
   * exactly when `team1` won, `Team2` in every other case.
   */
  function H2HSummary(team1: int, m: MatchRow): (r: H2HMatch)
    ensures r.matchId == m.id && r.mapName == m.mapName && r.event == m.eventName && r.playedAt == m.playedAt
    ensures m.team1Id == team1 ==> r.score == ScoreLine(m.team1Score, m.team2Score)
    ensures m.team1Id != team1 ==> r.score == ScoreLine(m.team2Score, m.team1Score)
    ensures r.winner == Team1 <==> m.winnerId == Some(team1)
  {
    var score := if m.team1Id == team1 then ScoreLine(m.team1Score, m.team2Score)
                 else ScoreLine(m.team2Score, m.team1Score);
    H2HMatch(m.id, score, if WonBy(m, team1) then Team1 else Team2, m.mapName, m.eventName, m.playedAt)
  }

  /** Predicates that agree on every element count the same. */
  lemma {:induction false} CountAgree<T>(s: seq<T>, p: T -> bool, q: T -> bool)
    requires forall i :: 0 <= i < |s| ==> p(s[i]) == q(s[i])
    ensures Count(s, p) == Count(s, q)
  {
    if s != [] {
      CountAgree(s[..|s| - 1], p, q);
    }
  }

  /** The two win counters never exceed the number of fetched matches. */
  lemma WinCountsBounded(rows: seq<MatchRow>, team1: int, team2: int)
    ensures WinsFor(rows, team1) + SecondWins(rows, team1, team2) <= |rows|
  {
    CountExclusive(rows, (m: MatchRow) => WonBy(m, team1), (m: MatchRow) => WonBy(m, team2) && !WonBy(m, team1));
  }

  /** For two distinct teams the `elif` counts exactly the rows `team2` won. */
  lemma SecondWinsOfDistinctTeams(rows: seq<MatchRow>, team1: int, team2: int)
    requires team1 != team2
    ensures SecondWins(rows, team1, team2) == WinsFor(rows, team2)
  {
    CountAgree(rows, (m: MatchRow) => WonBy(m, team2) && !WonBy(m, team1), (m: MatchRow) => WonBy(m, team2));
  }

  /** Whether `m` is a match between `team1` and `team2`, in either storage order. */
  predicate Between(m: MatchRow, team1: int, team2: int) {
    (m.team1Id == team1 && m.team2Id == team2) || (m.team1Id == team2 && m.team2Id == team1)
  }

  /**
   * For a match between two distinct teams the score reads `team1`'s own
   * score first, and the summary does not depend on the storage order.
   */
  lemma SummaryFromTeam1Side(m: MatchRow, team1: int, team2: int)
    requires team1 != team2 && Between(m, team1, team2)
    ensures H2HSummary(team1, m).score == ScoreLine(OwnScore(m, team1), OwnScore(m, team2))
    ensures H2HSummary(team1, Swapped(m)) == H2HSummary(team1, m)
  {
  }

  /**
   * A winner that is neither team (or NULL) is counted for neither side, yet
   * its summary row is tagged `Team2`.
   */
  lemma UnresolvedWinnerTaggedTeam2(rows: seq<MatchRow>, i: nat, team1: int, team2: int)
    requires i < |rows| && rows[i].winnerId != Some(team1) && rows[i].winnerId != Some(team2)
    ensures H2HSummary(team1, rows[i]).winner == Team2
    ensures WinsFor(rows, team1) + SecondWins(rows, team1, team2) < |rows|
  {
    CountExclusive(rows[..i] + rows[i + 1..], (m: MatchRow) => WonBy(m, team1), (m: MatchRow) => WonBy(m, team2) && !WonBy(m, team1));
    CountSplit(rows, i, (m: MatchRow) => WonBy(m, team1));
    CountSplit(rows, i, (m: MatchRow) => WonBy(m, team2) && !WonBy(m, team1));
  }

  /** Counting with one element left out. */
  lemma {:induction false} CountSplit<T>(s: seq<T>, i: nat, p: T -> bool)
    requires i < |s|
    ensures Count(s, p) == Count(s[..i] + s[i + 1..], p) + (if p(s[i]) then 1 else 0)
  {
    var rest := s[..i] + s[i + 1..];
    if i == |s| - 1 {
      assert rest == s[..|s| - 1];
    } else {
      CountSplit(s[..|s| - 1], i, p);
      assert s[..|s| - 1][..i] + s[..|s| - 1][i + 1..] == rest[..|rest| - 1];
      assert rest[|rest| - 1] == s[|s| - 1];
    }
  }

  /**
   * `get_head_to_head(team1, team2)` over the fetched pair matches `rows`
   * (most recent first).
   */
  method GetHeadToHead(team1: int, team2: int, rows: seq<MatchRow>) returns (r: H2HReport)
    ensures r.totalMatches == |rows|
    ensures r.team1Wins == WinsFor(rows, team1)
    ensures r.team2Wins == SecondWins(rows, team1, team2)
    ensures team1 != team2 ==> r.team2Wins == WinsFor(rows, team2)
    ensures r.team1Wins + r.team2Wins <= r.totalMatches
    ensures r.totalMatches == 0 ==> r.team1WinRate == 0.0
    ensures r.totalMatches > 0 ==>
      r.team1WinRate == RoundCents(r.team1Wins as real / r.totalMatches as real * 100.0)
    ensures 0.0 <= r.team1WinRate <= 100.0
    ensures |r.recentMatches| == |rows|
    ensures forall i :: 0 <= i < |rows| ==> r.recentMatches[i] == H2HSummary(team1, rows[i])
  {
    var team1Wins := 0;
    var team2Wins := 0;
    var totalMaps := 0;
    var recentMatches: seq<H2HMatch> := [];
    var i := 0;
    while i < |rows|
      invariant 0 <= i <= |rows|
      invariant totalMaps == i && |recentMatches| == i
      invariant team1Wins == WinsFor(rows[..i], team1)
      invariant team2Wins == SecondWins(rows[..i], team1, team2)
      invariant forall j :: 0 <= j < i ==> recentMatches[j] == H2HSummary(team1, rows[j])
    {
      var m := rows[i];
      var team1Score, team2Score;
      if m.team1Id == team1 {
        team1Score, team2Score := m.team1Score, m.team2Score;
      } else {
        team1Score, team2Score := m.team2Score, m.team1Score;
      }
      assert rows[..i + 1][..i] == rows[..i];
      if m.winnerId == Some(team1) {
        team1Wins := team1Wins + 1;
      } else if m.winnerId == Some(team2) {
        team2Wins := team2Wins + 1;
      }
      totalMaps := totalMaps + 1;
      recentMatches := recentMatches + [H2HMatch(
        m.id,
        ScoreLine(team1Score, team2Score),
        if m.winnerId == Some(team1) then Team1 else Team2,
        m.mapName,
        m.eventName,
        m.playedAt)];
      i := i + 1;
    }
    assert rows[..i] == rows;
    WinCountsBounded(rows, team1, team2);
    if team1 != team2 {
      SecondWinsOfDistinctTeams(rows, team1, team2);
    }
    var winRate := 0.0;
    if totalMaps > 0 {
      PercentBetween(team1Wins, totalMaps);
      RoundCentsBetween(team1Wins as real / totalMaps as real * 100.0, 0, 100);
      winRate := RoundCents(team1Wins as real / totalMaps as real * 100.0);
    }
    r := H2HReport(totalMaps, team1Wins, team2Wins, winRate, recentMatches);
  }
}
