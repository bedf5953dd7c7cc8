/**
 * The per-map statistics of `AnalysisService.get_map_performance`.
 *
 * The SQL query (filter, GROUP BY map_name, HAVING COUNT(*) >= 3, ORDER BY
 * win ratio DESC) becomes pure functions over the rows of
 * `historical_matches`. Groups appear in the order their map is first met
 * and the sort keeps that order among equal ratios: one of the orders the
 * query may return.
 */
module MapPerformance {
  import opened Common
  import opened Numeric
  import opened Records
  import opened Sorting

  /** `HAVING COUNT(*) >= 3`: maps played fewer times are left out. */
  const MIN_MATCHES_PER_MAP: nat := 3

  /** One row of the grouped query. */
  datatype MapGroup = MapGroup(mapName: string, totalMatches: nat, wins: nat, roundsWon: int, roundsLost: int)

  /** One dictionary of the list `get_map_performance` returns. */
  datatype MapStat = MapStat(
    mapName: string,
    totalMatches: nat,
    wins: nat,
    losses: int,
    winRate: real,
    avgRoundsWon: real,
    avgRoundsLost: real)

  /** The WHERE clause, for the group of map `name`: `team` played in `m`, on that map. */
  predicate OnMap(team: int, name: string, m: MatchRow) {
    Involves(m, team) && m.mapName == Some(name)
  }

  /**
   * The aggregates of map `name` over `rows`: COUNT(*), the rows `team` won,
   * and the rounds it won and lost, read from the slot it occupied.
   */
  function GroupOf(team: int, rows: seq<MatchRow>, name: string): (g: MapGroup)
    ensures g.mapName == name
    ensures g.wins <= g.totalMatches <= |rows|
    ensures g.totalMatches > 0 <==> exists i :: 0 <= i < |rows| && OnMap(team, name, rows[i])
  {
    if rows == [] then MapGroup(name, 0, 0, 0, 0)
    else
      var g := GroupOf(team, rows[..|rows| - 1], name);
      var m := rows[|rows| - 1];
      assert forall i :: 0 <= i < |rows| - 1 ==> rows[..|rows| - 1][i] == rows[i];
      if OnMap(team, name, m) then
        MapGroup(name, g.totalMatches + 1, g.wins + (if WonBy(m, team) then 1 else 0),
                 g.roundsWon + OwnScore(m, team), g.roundsLost + OpponentScore(m, team))
      else g
  }

  /**
   * The aggregates against an independent definition: COUNT(*) counts the
   * rows on the map, the wins are those of them `team` won, and the rounds
   * are the sums of the team's own and the opponent's scores over them.
   */
  lemma {:induction false} GroupOfCounts(team: int, rows: seq<MatchRow>, name: string)
    ensures GroupOf(team, rows, name).totalMatches == Count(rows, (m: MatchRow) => OnMap(team, name, m))
    ensures GroupOf(team, rows, name).wins == Count(rows, (m: MatchRow) => OnMap(team, name, m) && WonBy(m, team))
    ensures GroupOf(team, rows, name).roundsWon == RoundsOn(team, name, rows, true)
    ensures GroupOf(team, rows, name).roundsLost == RoundsOn(team, name, rows, false)
  {
    if rows != [] {
      GroupOfCounts(team, rows[..|rows| - 1], name);
    }
  }

  /** The sum over the rows on map `name` of the team's own (`own`) or the opponent's score. */
  function RoundsOn(team: int, name: string, rows: seq<MatchRow>, own: bool): int {
    if rows == [] then 0
    else
      var m := rows[|rows| - 1];
      RoundsOn(team, name, rows[..|rows| - 1], own)
      + (if OnMap(team, name, m) then (if own then OwnScore(m, team) else OpponentScore(m, team)) else 0)
  }

  /** The non-NULL map names of the rows `team` played, each once, in order of first appearance. */
  function MapNames(team: int, rows: seq<MatchRow>): (names: seq<string>)
    ensures forall i, j :: 0 <= i < j < |names| ==> names[i] != names[j]
    ensures forall name :: name in names <==> exists i :: 0 <= i < |rows| && OnMap(team, name, rows[i])
  {
    if rows == [] then []
    else
      var names := MapNames(team, rows[..|rows| - 1]);
      var m := rows[|rows| - 1];
      assert forall i :: 0 <= i < |rows| - 1 ==> rows[..|rows| - 1][i] == rows[i];
      if Involves(m, team) && m.mapName.Some? && m.mapName.value !in names then
        assert OnMap(team, m.mapName.value, rows[|rows| - 1]);
        names + [m.mapName.value]
      else names
  }

  /** The groups of `names` that pass the HAVING clause, in the order of `names`. */
  function HavingGroups(team: int, rows: seq<MatchRow>, names: seq<string>): (gs: seq<MapGroup>)
    ensures forall g :: g in gs ==>
      g.mapName in names && g == GroupOf(team, rows, g.mapName) && g.totalMatches >= MIN_MATCHES_PER_MAP
    ensures forall name :: name in names && GroupOf(team, rows, name).totalMatches >= MIN_MATCHES_PER_MAP ==>
      GroupOf(team, rows, name) in gs
    ensures (forall i, j :: 0 <= i < j < |names| ==> names[i] != names[j]) ==>
      forall i, j :: 0 <= i < j < |gs| ==> gs[i].mapName != gs[j].mapName
  {
    if names == [] then []
    else
      var rest := HavingGroups(team, rows, names[1..]);
      var g := GroupOf(team, rows, names[0]);
      assert forall name :: name in names[1..] ==> name in names;
      if g.totalMatches >= MIN_MATCHES_PER_MAP then [g] + rest else rest
  }

  /** The ORDER BY key: the fraction of the map's matches the team won. */
  function WinRatio(g: MapGroup): real {
    if g.totalMatches == 0 then 0.0 else g.wins as real / g.totalMatches as real
  }

  /**
   * The Python dictionary built from one grouped row: the counts are copied,
   * the losses are the matches not won, and the win rate and the round
   * averages are the percentages and means rounded to two decimals.
   */
  function MapStatOf(g: MapGroup): (s: MapStat)
    requires g.totalMatches > 0
    ensures s.mapName == g.mapName && s.totalMatches == g.totalMatches && s.wins == g.wins
    ensures s.losses == g.totalMatches - g.wins
    ensures -0.005 <= s.winRate - g.wins as real / g.totalMatches as real * 100.0 <= 0.005
    ensures g.wins <= g.totalMatches ==> 0.0 <= s.winRate <= 100.0
    ensures -0.005 <= s.avgRoundsWon - g.roundsWon as real / g.totalMatches as real <= 0.005
    ensures -0.005 <= s.avgRoundsLost - g.roundsLost as real / g.totalMatches as real <= 0.005
  {
    var percent := g.wins as real / g.totalMatches as real * 100.0;
    assert g.wins <= g.totalMatches ==> 0.0 <= RoundCents(percent) <= 100.0 by {
      if g.wins <= g.totalMatches {
        PercentBetween(g.wins, g.totalMatches);
        RoundCentsBetween(percent, 0, 100);
      }
    }
    MapStat(
      g.mapName,
      g.totalMatches,
      g.wins,
      g.totalMatches - g.wins,
      RoundCents(percent),
      RoundCents(g.roundsWon as real / g.totalMatches as real),
      RoundCents(g.roundsLost as real / g.totalMatches as real))
  }

  /** The list comprehension over the fetched rows. */
  function ToStats(gs: seq<MapGroup>): (stats: seq<MapStat>)
    requires forall g :: g in gs ==> g.totalMatches > 0
    ensures |stats| == |gs|
    ensures forall i :: 0 <= i < |gs| ==> stats[i] == MapStatOf(gs[i])
  {
    if gs == [] then [] else [MapStatOf(gs[0])] + ToStats(gs[1..])
  }

  /** The rows of the grouped query, in the order ORDER BY leaves them. */
  function SortedGroups(team: int, rows: seq<MatchRow>): seq<MapGroup> {
    SortDesc(HavingGroups(team, rows, MapNames(team, rows)), WinRatio)
  }

  /**
   * `get_map_performance(team)` over the rows `rows` of `historical_matches`.
   * Each reported map was played at least three times, its counts are those
   * of the rows on that map, its losses are its matches less its wins, and
   * its win rate lies in [0, 100].
   */
  function GetMapPerformance(team: int, rows: seq<MatchRow>): (stats: seq<MapStat>)
    ensures forall i :: 0 <= i < |stats| ==> ReportedStat(team, rows, stats[i])
  {
    var sorted := SortedGroups(team, rows);
    forall g | g in sorted ensures g.totalMatches > 0 {
      SortDescSameElements(HavingGroups(team, rows, MapNames(team, rows)), WinRatio, g);
    }
    var stats := ToStats(sorted);
    forall i | 0 <= i < |stats| ensures ReportedStat(team, rows, stats[i]) {
      SortedGroupsWellFormed(team, rows, i);
      StatOfGroupReported(team, rows, sorted[i]);
    }
    stats
  }

  /**
   * What every reported dictionary satisfies: it is the dictionary built from
   * the aggregates of its own map, which was played at least three times.
   */
  predicate ReportedStat(team: int, rows: seq<MatchRow>, s: MapStat) {
    && s.totalMatches >= MIN_MATCHES_PER_MAP
    && s.totalMatches == GroupOf(team, rows, s.mapName).totalMatches
    && s.wins == GroupOf(team, rows, s.mapName).wins
    && s.losses == s.totalMatches - s.wins
    && 0.0 <= s.winRate <= 100.0
    && s == MapStatOf(GroupOf(team, rows, s.mapName))
  }

  lemma StatOfGroupReported(team: int, rows: seq<MatchRow>, g: MapGroup)
    requires g == GroupOf(team, rows, g.mapName) && g.totalMatches >= MIN_MATCHES_PER_MAP
    ensures ReportedStat(team, rows, MapStatOf(g))
  {
  }

  /** Every group the query returns passed the HAVING clause and aggregates its own map. */
  lemma SortedGroupsWellFormed(team: int, rows: seq<MatchRow>, i: nat)
    requires i < |SortedGroups(team, rows)|
    ensures var g := SortedGroups(team, rows)[i];
      g == GroupOf(team, rows, g.mapName) && g.totalMatches >= MIN_MATCHES_PER_MAP
  {
    var g := SortedGroups(team, rows)[i];
    SortDescSameElements(HavingGroups(team, rows, MapNames(team, rows)), WinRatio, g);
  }

  /** A map is reported exactly when the team played at least three rows on it. */
  lemma MapReportedIffEnoughMatches(team: int, rows: seq<MatchRow>, name: string)
    ensures (exists i :: 0 <= i < |GetMapPerformance(team, rows)| && GetMapPerformance(team, rows)[i].mapName == name)
        <==> GroupOf(team, rows, name).totalMatches >= MIN_MATCHES_PER_MAP
  {
    var names := MapNames(team, rows);
    var having := HavingGroups(team, rows, names);
    var sorted := SortedGroups(team, rows);
    var stats := GetMapPerformance(team, rows);
    var g := GroupOf(team, rows, name);
    if g.totalMatches >= MIN_MATCHES_PER_MAP {
      assert name in names;
      assert g in having;
      SortDescSameElements(having, WinRatio, g);
      var k :| 0 <= k < |sorted| && sorted[k] == g;
      assert stats[k].mapName == name;
    }
    if exists i :: 0 <= i < |stats| && stats[i].mapName == name {
      var i :| 0 <= i < |stats| && stats[i].mapName == name;
      SortedGroupsWellFormed(team, rows, i);
    }
  }

  function GroupName(g: MapGroup): string {
    g.mapName
  }

  /** No map is reported twice. */
  lemma MapNamesDistinct(team: int, rows: seq<MatchRow>)
    ensures var stats := GetMapPerformance(team, rows);
      forall i, j :: 0 <= i < j < |stats| ==> stats[i].mapName != stats[j].mapName
  {
    SortKeepsDistinct(HavingGroups(team, rows, MapNames(team, rows)), WinRatio, GroupName);
  }

  /** The fraction of a reported map's matches that the team won. */
  function StatRatio(s: MapStat): real {
    if s.totalMatches == 0 then 0.0 else s.wins as real / s.totalMatches as real
  }

  /** The list is ordered by non-increasing fraction of matches won. */
  lemma MapStatsOrderedByWinRatio(team: int, rows: seq<MatchRow>)
    ensures var stats := GetMapPerformance(team, rows);
      forall i, j :: 0 <= i < j < |stats| ==> StatRatio(stats[i]) >= StatRatio(stats[j])
  {
    var stats := GetMapPerformance(team, rows);
    var sorted := SortedGroups(team, rows);
    SortDescSorted(HavingGroups(team, rows, MapNames(team, rows)), WinRatio);
    forall i, j | 0 <= i < j < |stats|
      ensures StatRatio(stats[i]) >= StatRatio(stats[j])
    {
      SortedGroupsWellFormed(team, rows, i);
      SortedGroupsWellFormed(team, rows, j);
      assert WinRatio(sorted[i]) >= WinRatio(sorted[j]);
    }
  }
}
