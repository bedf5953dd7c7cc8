/**
 * `AnalysisService.analyze_teams`: the two teams' forms, their head-to-head
 * record, both map lists, and the maps both teams have enough matches on,
 * most lopsided first.
 */
module MatchAnalysis {
  import opened Common
  import opened Numeric
  import opened Records
  import opened Sorting
  import opened TeamForm
  import opened HeadToHead
  import opened MapPerformance

  /** One entry of `common_maps`. */
  datatype CommonMap = CommonMap(
    mapName: string,
    team1WinRate: real,
    team2WinRate: real,
    team1AvgRounds: real,
    team2AvgRounds: real)

  /** The `map_analysis` part of the report. */
  datatype MapAnalysis = MapAnalysis(team1Maps: seq<MapStat>, team2Maps: seq<MapStat>, commonMaps: seq<CommonMap>)

  /** The dictionary `analyze_teams` returns. */
  datatype TeamsReport = TeamsReport(
    team1Form: FormReport,
    team2Form: FormReport,
    headToHead: H2HReport,
    mapAnalysis: MapAnalysis)

  /** `{m['map_name']: m for m in maps}`: a later entry for a name replaces an earlier one. */
  function ByName(maps: seq<MapStat>): (d: map<string, MapStat>)
    ensures forall name :: name in d <==> exists i :: 0 <= i < |maps| && maps[i].mapName == name
    ensures forall name :: name in d ==> d[name].mapName == name && d[name] in maps
  {
    if maps == [] then map[]
    else
      var last := maps[|maps| - 1];
      var d := ByName(maps[..|maps| - 1]);
      assert forall i :: 0 <= i < |maps| - 1 ==> maps[..|maps| - 1][i] == maps[i];
      d[last.mapName := last]
  }

  /** The sort key: how far apart the two teams' win rates on the map are. */
  function Gap(c: CommonMap): (g: real)
    ensures g >= 0.0
    ensures g == c.team1WinRate - c.team2WinRate || g == c.team2WinRate - c.team1WinRate
  {
    if c.team1WinRate >= c.team2WinRate then c.team1WinRate - c.team2WinRate
    else c.team2WinRate - c.team1WinRate
  }

  function CommonMapName(c: CommonMap): string {
    c.mapName
  }

  /** Whether a map list has an entry for `name`. */
  predicate ListsMap(maps: seq<MapStat>, name: string) {
    exists i :: 0 <= i < |maps| && maps[i].mapName == name
  }

  /** Whether a common-maps list has an entry for `name`. */
  predicate ListsCommonMap(common: seq<CommonMap>, name: string) {
    exists i :: 0 <= i < |common| && common[i].mapName == name
  }

  /** The entry for map `name`, copied from each team's statistics. */
  ghost predicate CopiesStats(c: CommonMap, d1: map<string, MapStat>, d2: map<string, MapStat>) {
    && c.mapName in d1 && c.mapName in d2
    && c.team1WinRate == d1[c.mapName].winRate
    && c.team2WinRate == d2[c.mapName].winRate
    && c.team1AvgRounds == d1[c.mapName].avgRoundsWon
    && c.team2AvgRounds == d2[c.mapName].avgRoundsWon
  }

  /**
   * The common-maps part of `analyze_teams`: one entry per map name present
   * in both lists, in the set's iteration order (any order), then sorted by
   * the win-rate gap, largest first.
   */
  method CommonMaps(team1Maps: seq<MapStat>, team2Maps: seq<MapStat>) returns (common: seq<CommonMap>)
    ensures forall name :: ListsCommonMap(common, name) <==> ListsMap(team1Maps, name) && ListsMap(team2Maps, name)
    ensures forall i :: 0 <= i < |common| ==> CopiesStats(common[i], ByName(team1Maps), ByName(team2Maps))
    ensures forall i, j :: 0 <= i < j < |common| ==> common[i].mapName != common[j].mapName
    ensures forall i, j :: 0 <= i < j < |common| ==> Gap(common[i]) >= Gap(common[j])
  {
    var team1MapDict := ByName(team1Maps);
    var team2MapDict := ByName(team2Maps);
    var shared := team1MapDict.Keys * team2MapDict.Keys;
    var unsorted: seq<CommonMap> := [];
    var remaining := shared;
    while remaining != {}
      invariant remaining <= shared
      invariant forall name :: ListsCommonMap(unsorted, name) <==> name in shared - remaining
      invariant forall i :: 0 <= i < |unsorted| ==> CopiesStats(unsorted[i], team1MapDict, team2MapDict)
      invariant DistinctNames(unsorted, CommonMapName)
      decreases remaining
    {
      var mapName :| mapName in remaining;
      var t1Stats := team1MapDict[mapName];
      var t2Stats := team2MapDict[mapName];
      var entry := CommonMap(mapName, t1Stats.winRate, t2Stats.winRate, t1Stats.avgRoundsWon, t2Stats.avgRoundsWon);
      AppendEntry(unsorted, entry);
      unsorted := unsorted + [entry];
      remaining := remaining - {mapName};
    }
    assert shared - remaining == shared;
    common := SortDesc(unsorted, Gap);
    SortDescSorted(unsorted, Gap);
    SortKeepsDistinct(unsorted, Gap, CommonMapName);
    SortKeepsNames(unsorted, common);
    SortKeepsCopies(unsorted, common, team1MapDict, team2MapDict);
    forall name ensures ListsCommonMap(common, name) <==> ListsMap(team1Maps, name) && ListsMap(team2Maps, name) {
      assert ListsCommonMap(common, name) <==> name in shared;
      assert ListsMap(team1Maps, name) <==> name in team1MapDict;
      assert ListsMap(team2Maps, name) <==> name in team2MapDict;
    }
  }

  /** Appending `entry` adds its name and keeps every other entry's position. */
  lemma AppendEntry(unsorted: seq<CommonMap>, entry: CommonMap)
    ensures forall name :: ListsCommonMap(unsorted + [entry], name) <==> ListsCommonMap(unsorted, name) || name == entry.mapName
    ensures forall i :: 0 <= i < |unsorted| ==> (unsorted + [entry])[i] == unsorted[i]
    ensures (unsorted + [entry])[|unsorted|] == entry
    ensures DistinctNames(unsorted, CommonMapName) && !ListsCommonMap(unsorted, entry.mapName) ==>
      DistinctNames(unsorted + [entry], CommonMapName)
  {
    var s := unsorted + [entry];
    forall name | ListsCommonMap(s, name) ensures ListsCommonMap(unsorted, name) || name == entry.mapName {
      var i :| 0 <= i < |s| && s[i].mapName == name;
      if i < |unsorted| {
        assert unsorted[i].mapName == name;
      }
    }
    forall name | ListsCommonMap(unsorted, name) ensures ListsCommonMap(s, name) {
      var i :| 0 <= i < |unsorted| && unsorted[i].mapName == name;
      assert s[i].mapName == name;
    }
    assert s[|unsorted|].mapName == entry.mapName;
    if DistinctNames(unsorted, CommonMapName) && !ListsCommonMap(unsorted, entry.mapName) {
      forall a, b | 0 <= a < b < |s| ensures CommonMapName(s[a]) != CommonMapName(s[b]) {
        if b == |unsorted| {
          assert !(unsorted[a].mapName == entry.mapName);
        }
      }
    }
  }

  /** Sorting keeps exactly the map names. */
  lemma SortKeepsNames(unsorted: seq<CommonMap>, common: seq<CommonMap>)
    requires common == SortDesc(unsorted, Gap)
    ensures forall name :: ListsCommonMap(common, name) <==> ListsCommonMap(unsorted, name)
  {
    forall name | ListsCommonMap(common, name) ensures ListsCommonMap(unsorted, name) {
      var i :| 0 <= i < |common| && common[i].mapName == name;
      SortDescSameElements(unsorted, Gap, common[i]);
      var k :| 0 <= k < |unsorted| && unsorted[k] == common[i];
    }
    forall name | ListsCommonMap(unsorted, name) ensures ListsCommonMap(common, name) {
      var i :| 0 <= i < |unsorted| && unsorted[i].mapName == name;
      SortDescSameElements(unsorted, Gap, unsorted[i]);
      var k :| 0 <= k < |common| && common[k] == unsorted[i];
    }
  }

  /** Sorting keeps every entry's copied statistics. */
  lemma SortKeepsCopies(unsorted: seq<CommonMap>, common: seq<CommonMap>, d1: map<string, MapStat>, d2: map<string, MapStat>)
    requires common == SortDesc(unsorted, Gap)
    requires forall i :: 0 <= i < |unsorted| ==> CopiesStats(unsorted[i], d1, d2)
    ensures forall i :: 0 <= i < |common| ==> CopiesStats(common[i], d1, d2)
  {
    forall i | 0 <= i < |common| ensures CopiesStats(common[i], d1, d2) {
      SortDescSameElements(unsorted, Gap, common[i]);
      var k :| 0 <= k < |unsorted| && unsorted[k] == common[i];
    }
  }

  /**
   * `analyze_teams(team1, team2)`. The query results are inputs: each
   * team's last five matches, their last five meetings, and the rows of
   * `historical_matches` the map statistics are drawn from. A team without
   * matches makes its form computation raise, and the whole call with it.
   */
  method AnalyzeTeams(
    team1: int, team2: int,
    team1Recent: seq<MatchRow>, team2Recent: seq<MatchRow>,
    meetings: seq<MatchRow>, history: seq<MatchRow>)
    returns (r: Result<TeamsReport>)
    ensures r.Err? <==> |team1Recent| == 0 || |team2Recent| == 0
    ensures r.Err? ==> r.error == ZeroDivisionError
    // the two forms
    ensures r.Ok? ==> r.value.team1Form.formScore == FormScore(team1, team1Recent).value
    ensures r.Ok? ==> r.value.team2Form.formScore == FormScore(team2, team2Recent).value
    ensures r.Ok? ==> |r.value.team1Form.recentResults| == |team1Recent|
    ensures r.Ok? ==> forall i :: 0 <= i < |team1Recent| ==>
      r.value.team1Form.recentResults[i] == FormSummary(team1, team1Recent[i])
    ensures r.Ok? ==> |r.value.team2Form.recentResults| == |team2Recent|
    ensures r.Ok? ==> forall i :: 0 <= i < |team2Recent| ==>
      r.value.team2Form.recentResults[i] == FormSummary(team2, team2Recent[i])
    // the head-to-head record
    ensures r.Ok? ==> r.value.headToHead.totalMatches == |meetings|
    ensures r.Ok? ==> r.value.headToHead.team1Wins == WinsFor(meetings, team1)
    ensures r.Ok? ==> r.value.headToHead.team2Wins == SecondWins(meetings, team1, team2)
    ensures r.Ok? && team1 != team2 ==> r.value.headToHead.team2Wins == WinsFor(meetings, team2)
    ensures r.Ok? && |meetings| == 0 ==> r.value.headToHead.team1WinRate == 0.0
    ensures r.Ok? && |meetings| > 0 ==>
      r.value.headToHead.team1WinRate == RoundCents(WinsFor(meetings, team1) as real / |meetings| as real * 100.0)
    ensures r.Ok? ==> |r.value.headToHead.recentMatches| == |meetings|
    ensures r.Ok? ==> forall i :: 0 <= i < |meetings| ==>
      r.value.headToHead.recentMatches[i] == H2HSummary(team1, meetings[i])
    // the map analysis
    ensures r.Ok? ==> r.value.mapAnalysis.team1Maps == GetMapPerformance(team1, history)
    ensures r.Ok? ==> r.value.mapAnalysis.team2Maps == GetMapPerformance(team2, history)
    ensures r.Ok? ==> forall name :: ListsCommonMap(r.value.mapAnalysis.commonMaps, name) <==>
      GroupOf(team1, history, name).totalMatches >= MIN_MATCHES_PER_MAP &&
      GroupOf(team2, history, name).totalMatches >= MIN_MATCHES_PER_MAP
    ensures r.Ok? ==> var common := r.value.mapAnalysis.commonMaps;
      forall i :: 0 <= i < |common| ==>
        CopiesStats(common[i], ByName(GetMapPerformance(team1, history)), ByName(GetMapPerformance(team2, history)))
    ensures r.Ok? ==> var common := r.value.mapAnalysis.commonMaps;
      forall i, j :: 0 <= i < j < |common| ==> common[i].mapName != common[j].mapName && Gap(common[i]) >= Gap(common[j])
  {
    var team1Form := GetTeamForm(team1, team1Recent);
    if team1Form.Err? {
      return Err(team1Form.error);
    }
    var team2Form := GetTeamForm(team2, team2Recent);
    if team2Form.Err? {
      return Err(team2Form.error);
    }
    var h2h := GetHeadToHead(team1, team2, meetings);
    var team1Maps := GetMapPerformance(team1, history);
    var team2Maps := GetMapPerformance(team2, history);
    var common := CommonMaps(team1Maps, team2Maps);
    forall name ensures
      (ListsMap(team1Maps, name) <==> GroupOf(team1, history, name).totalMatches >= MIN_MATCHES_PER_MAP) &&
      (ListsMap(team2Maps, name) <==> GroupOf(team2, history, name).totalMatches >= MIN_MATCHES_PER_MAP)
    {
      MapReportedIffEnoughMatches(team1, history, name);
      MapReportedIffEnoughMatches(team2, history, name);
    }
    r := Ok(TeamsReport(team1Form.value, team2Form.value, h2h, MapAnalysis(team1Maps, team2Maps, common)));
  }
}
