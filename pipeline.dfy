/**
 * The parts of `DFSPipeline` that compute something: the entry-fee filter
 * of `collect_contests` and the greedy placeholder lineup builder
 * `_generate_placeholder_lineups`.  Logging, the temporary CSV and the
 * orchestration around them are not modelled.
 */
module Pipeline {
  import opened Wrappers
  import opened Seqs
  import opened Text
  import YahooDfs
  import Base

  // ---------------------------------------------------------------------
  // collect_contests

  /** The keyword parameters `YahooDFSCollector.collect_contests` accepts. */
  const YahooCollectParameters: seq<string> := ["sport", "game_date", "contest_types"]

  /** Calling the Yahoo collector with the keyword arguments `keywords`, on
      a page whose contests are `found`: Python raises `TypeError` for an
      unexpected keyword before the call starts; otherwise the collector
      returns its multi-entry contests. */
  function CallYahooCollect(keywords: seq<string>, found: seq<YahooDfs.YahooContest>): Result<seq<YahooDfs.YahooContest>, string> {
    if forall k :: k in keywords ==> k in YahooCollectParameters then Ok(YahooDfs.CollectContests(found, []))
    else Err("TypeError: collect_contests() got an unexpected keyword argument")
  }

  function FeeAtMost(maxEntryFee: real): YahooDfs.YahooContest -> bool {
    (c: YahooDfs.YahooContest) => c.entryFee <= maxEntryFee
  }

  /** The body of `collect_contests` when the collector is called with the
      keyword arguments `keywords`: `[]` when the call raises (the
      `except Exception` branch) or returns nothing, otherwise the contests
      whose entry fee is at most `maxEntryFee`, in order. */
  function CollectWith(keywords: seq<string>, found: seq<YahooDfs.YahooContest>, maxEntryFee: real): seq<YahooDfs.YahooContest> {
    match CallYahooCollect(keywords, found)
    case Err(_) => []
    case Ok(contests) => if contests == [] then [] else Filter(contests, FeeAtMost(maxEntryFee))
  }

  /** `collect_contests` as written: the collector is called with
      `multi_entry_only=True`, a keyword it does not accept. */
  function CollectContestsAsWritten(found: seq<YahooDfs.YahooContest>, maxEntryFee: real): seq<YahooDfs.YahooContest> {
    CollectWith(["multi_entry_only"], found, maxEntryFee)
  }

  /** `collect_contests` as intended: the collector, which already keeps
      only multi-entry contests, is called without the extra keyword. */
  function CollectContests(found: seq<YahooDfs.YahooContest>, maxEntryFee: real): seq<YahooDfs.YahooContest> {
    CollectWith([], found, maxEntryFee)
  }

  /** As written, the call always raises, the exception is swallowed, and no
      contest ever qualifies. */
  lemma AsWrittenFindsNothing(found: seq<YahooDfs.YahooContest>, maxEntryFee: real)
    ensures CollectContestsAsWritten(found, maxEntryFee) == []
  {
    assert "multi_entry_only" in ["multi_entry_only"] && "multi_entry_only" !in YahooCollectParameters;
  }

  /** A one-dollar contest allowing 150 entries per user. */
  const CheapMultiEntry: YahooDfs.YahooContest :=
    YahooDfs.YahooContest(
      "1", "NFL $1 Multi", Base.NFL, "2025-09-07", 1.0, 100.0, 150, 150,
      "guaranteed", "multi", true, false, false, true, "yahoo", None)

  /** The input that shows the discrepancy: one cheap multi-entry contest
      is kept by the intended filter and lost as written. */
  lemma AsWrittenDropsQualifyingContest()
    ensures CollectContestsAsWritten([CheapMultiEntry], 1.0) == []
    ensures CollectContests([CheapMultiEntry], 1.0) == [CheapMultiEntry]
  {
    AsWrittenFindsNothing([CheapMultiEntry], 1.0);
    CollectContestsSpec([CheapMultiEntry], 1.0);
    FilterAll([CheapMultiEntry], Qualifies(1.0));
  }

  /** What a kept contest satisfies. */
  function Qualifies(maxEntryFee: real): YahooDfs.YahooContest -> bool {
    (c: YahooDfs.YahooContest) => c.maxEntriesPerUser > 1 && c.entryFee <= maxEntryFee
  }

  lemma CollectContestsIsFilter(found: seq<YahooDfs.YahooContest>, maxEntryFee: real)
    ensures CollectContests(found, maxEntryFee) == Filter(found, Qualifies(maxEntryFee))
  {
    var multi := YahooDfs.CollectContests(found, []);
    assert multi == Filter(found, YahooDfs.IsMultiEntry);
    FilterFilter(found, YahooDfs.IsMultiEntry, FeeAtMost(maxEntryFee), Qualifies(maxEntryFee));
    if multi == [] {
      assert Filter(multi, FeeAtMost(maxEntryFee)) == [];
    }
  }

  /** `collect_contests` keeps, in page order, exactly the multi-entry
      contests whose entry fee is at most `max_entry_fee`. */
  lemma CollectContestsSpec(found: seq<YahooDfs.YahooContest>, maxEntryFee: real)
    ensures CollectContests(found, maxEntryFee) == Filter(found, Qualifies(maxEntryFee))
    ensures forall c :: c in CollectContests(found, maxEntryFee) <==>
      c in found && c.maxEntriesPerUser > 1 && c.entryFee <= maxEntryFee
  {
    CollectContestsIsFilter(found, maxEntryFee);
    var r := CollectContests(found, maxEntryFee);
    forall c | c in r ensures c in found && Qualifies(maxEntryFee)(c) {
      var i :| 0 <= i < |r| && r[i] == c;
    }
    forall c | c in found && Qualifies(maxEntryFee)(c) ensures c in r {
      var i :| 0 <= i < |found| && found[i] == c;
    }
  }

  // ---------------------------------------------------------------------
  // _generate_placeholder_lineups

  /** The fields of a projection the builder reads. */
  datatype PlaceholderProjection = PlaceholderProjection(
    playerName: string,
    position: string,
    team: string,
    salary: int,
    projection: real)

  /** The `getattr(contest, ..., default)` reads: `None` for an absent
      attribute. */
  datatype ContestInfo = ContestInfo(contestId: Option<string>, contestName: Option<string>, entryFee: Option<real>)

  datatype LineupPlayer = LineupPlayer(position: string, playerName: string, team: string, salary: int, projection: real)

  datatype Lineup = Lineup(
    lineupId: string,
    contestId: string,
    contestName: string,
    entryFee: real,
    totalSalary: int,
    projectedPoints: real,
    players: seq<LineupPlayer>)

  /** `positions_needed`. */
  const PositionsNeeded: seq<string> := ["QB", "RB", "RB", "WR", "WR", "WR", "TE", "K", "DEF"]

  function ContestIdOf(contest: ContestInfo): string {
    contest.contestId.GetOr("unknown")
  }

  /** `f"{contest_id}_{i+1}"`. */
  function LineupId(contest: ContestInfo, i: nat): string {
    ContestIdOf(contest) + "_" + NatToString(i + 1)
  }

  /** The player entry appended for slot `pos`. */
  function PlayerOf(pos: string, p: PlaceholderProjection): LineupPlayer {
    LineupPlayer(pos, p.playerName, p.team, p.salary, p.projection)
  }

  /** `used_players`: the names already in the lineup. */
  function Names(players: seq<LineupPlayer>): set<string> {
    set i | 0 <= i < |players| :: players[i].playerName
  }

  /** Has position `pos` and a name not in `used`. */
  function Eligible(pos: string, used: set<string>): PlaceholderProjection -> bool {
    (p: PlaceholderProjection) => p.position == pos && p.playerName !in used
  }

  /** The players chosen for the slots `slots`, one slot after the other:
      the first eligible projection of the slot's position, or nothing. */
  function FillSlots(projections: seq<PlaceholderProjection>, slots: seq<string>): seq<LineupPlayer> {
    if slots == [] then []
    else
      var n := |slots| - 1;
      var prev := FillSlots(projections, slots[..n]);
      var available := Filter(projections, Eligible(slots[n], Names(prev)));
      if available != [] then prev + [PlayerOf(slots[n], available[0])] else prev
  }

  function SalarySum(players: seq<LineupPlayer>): int {
    if players == [] then 0 else SalarySum(players[..|players| - 1]) + players[|players| - 1].salary
  }

  function PointsSum(players: seq<LineupPlayer>): real {
    if players == [] then 0.0 else PointsSum(players[..|players| - 1]) + players[|players| - 1].projection
  }

  /** Lineup `i` of the contest. */
  function PlaceholderLineup(contest: ContestInfo, projections: seq<PlaceholderProjection>, i: nat): Lineup {
    var players := FillSlots(projections, PositionsNeeded);
    Lineup(
      LineupId(contest, i), ContestIdOf(contest), contest.contestName.GetOr("Unknown"),
      contest.entryFee.GetOr(0.0), SalarySum(players), PointsSum(players), players)
  }

  function PlaceholderLineups(contest: ContestInfo, projections: seq<PlaceholderProjection>, n: nat): (r: seq<Lineup>)
    ensures |r| == n
    ensures forall i :: 0 <= i < n ==> r[i] == PlaceholderLineup(contest, projections, i)
  {
    seq(n, i requires 0 <= i < n => PlaceholderLineup(contest, projections, i))
  }

  lemma NamesSnoc(players: seq<LineupPlayer>, x: LineupPlayer)
    ensures Names(players + [x]) == Names(players) + {x.playerName}
  {
    var ys := players + [x];
    assert ys[|players|] == x;
    assert forall i :: 0 <= i < |players| ==> ys[i] == players[i];
  }

  /** One more slot: the lineup grows by the first projection, in input
      order, that has the slot's position and a name not yet used; and
      when there is none the slot is skipped. */
  lemma FillSlotsStep(projections: seq<PlaceholderProjection>, slots: seq<string>, pos: string)
    ensures var prev := FillSlots(projections, slots);
            var k := FindFirst(projections, Eligible(pos, Names(prev)));
            && (k < 0 ==> FillSlots(projections, slots + [pos]) == prev)
            && (k >= 0 ==>
                  && projections[k].position == pos
                  && projections[k].playerName !in Names(prev)
                  && FillSlots(projections, slots + [pos]) == prev + [PlayerOf(pos, projections[k])])
  {
    assert (slots + [pos])[..|slots|] == slots;
    var prev := FillSlots(projections, slots);
    FilterFirst(projections, Eligible(pos, Names(prev)));
  }

  /** Every chosen player fills a slot of its own position with a
      projection as given, at most one per slot, and no name appears
      twice in the lineup. */
  lemma {:induction false} FillSlotsSpec(projections: seq<PlaceholderProjection>, slots: seq<string>)
    ensures |FillSlots(projections, slots)| <= |slots|
    ensures forall a :: 0 <= a < |FillSlots(projections, slots)| ==>
      && FillSlots(projections, slots)[a].position in slots
      && exists k :: 0 <= k < |projections| && FillSlots(projections, slots)[a] == PlayerOf(projections[k].position, projections[k])
    ensures forall a, b :: 0 <= a < b < |FillSlots(projections, slots)| ==>
      FillSlots(projections, slots)[a].playerName != FillSlots(projections, slots)[b].playerName
  {
    if slots != [] {
      var n := |slots| - 1;
      var s, pos := slots[..n], slots[n];
      assert slots == s + [pos];
      FillSlotsSpec(projections, s);
      FillSlotsStep(projections, s, pos);
      var prev := FillSlots(projections, s);
      var r := FillSlots(projections, slots);
      var k := FindFirst(projections, Eligible(pos, Names(prev)));
      forall a | 0 <= a < |prev| ensures prev[a].position in slots && prev[a].playerName in Names(prev) {
        assert prev[a].position in s;
      }
      if k >= 0 {
        assert r[|prev|] == PlayerOf(projections[k].position, projections[k]);
        assert forall a :: 0 <= a < |prev| ==> r[a] == prev[a];
      }
    }
  }

  /** `total_salary` and `projected_points` of the builder's accumulation. */
  lemma SumsSnoc(players: seq<LineupPlayer>, x: LineupPlayer)
    ensures SalarySum(players + [x]) == SalarySum(players) + x.salary
    ensures PointsSum(players + [x]) == PointsSum(players) + x.projection
  {
    assert (players + [x])[..|players|] == players;
  }

  /** Different lineups of a contest get different ids. */
  lemma LineupIdsDistinct(contest: ContestInfo, i: nat, j: nat)
    requires i != j
    ensures LineupId(contest, i) != LineupId(contest, j)
  {
    var prefix := ContestIdOf(contest) + "_";
    DigitsValueOfNat(i + 1);
    DigitsValueOfNat(j + 1);
    assert LineupId(contest, i)[|prefix|..] == NatToString(i + 1);
    assert LineupId(contest, j)[|prefix|..] == NatToString(j + 1);
  }

  /** `_generate_placeholder_lineups` returns exactly `num_lineups`
      lineups with ids `"{contest_id}_1"` up to `"{contest_id}_{n}"`,
      each carrying the contest's id, name and fee, the same greedily
      filled players and their salary and projection totals. */
  lemma PlaceholderLineupsSpec(contest: ContestInfo, projections: seq<PlaceholderProjection>, n: nat, i: nat)
    requires i < n
    ensures |PlaceholderLineups(contest, projections, n)| == n
    ensures PlaceholderLineups(contest, projections, n)[i].lineupId == ContestIdOf(contest) + "_" + NatToString(i + 1)
    ensures PlaceholderLineups(contest, projections, n)[i].contestId == ContestIdOf(contest)
    ensures PlaceholderLineups(contest, projections, n)[i].contestName == contest.contestName.GetOr("Unknown")
    ensures PlaceholderLineups(contest, projections, n)[i].entryFee == contest.entryFee.GetOr(0.0)
    ensures PlaceholderLineups(contest, projections, n)[i].players == FillSlots(projections, PositionsNeeded)
    ensures |PlaceholderLineups(contest, projections, n)[i].players| <= 9
    ensures PlaceholderLineups(contest, projections, n)[i].totalSalary == SalarySum(FillSlots(projections, PositionsNeeded))
    ensures PlaceholderLineups(contest, projections, n)[i].projectedPoints == PointsSum(FillSlots(projections, PositionsNeeded))
  {
    FillSlotsSpec(projections, PositionsNeeded);
  }

  /** One turn of the slot loop: the first available player of position
      `pos`, if any, joins the lineup, its totals and `used_players`. */
  method FillSlot(projections: seq<PlaceholderProjection>, ghost slots: seq<string>, pos: string,
                  players: seq<LineupPlayer>, usedPlayers: set<string>, totalSalary: int, projectedPoints: real)
    returns (players': seq<LineupPlayer>, usedPlayers': set<string>, totalSalary': int, projectedPoints': real)
    requires players == FillSlots(projections, slots) && usedPlayers == Names(players)
    requires totalSalary == SalarySum(players) && projectedPoints == PointsSum(players)
    ensures players' == FillSlots(projections, slots + [pos]) && usedPlayers' == Names(players')
    ensures totalSalary' == SalarySum(players') && projectedPoints' == PointsSum(players')
  {
    assert (slots + [pos])[..|slots|] == slots;
    players', usedPlayers', totalSalary', projectedPoints' := players, usedPlayers, totalSalary, projectedPoints;
    var available := Filter(projections, Eligible(pos, usedPlayers));
    if available != [] {
      var player := available[0];
      SumsSnoc(players, PlayerOf(pos, player));
      NamesSnoc(players, PlayerOf(pos, player));
      players' := players + [PlayerOf(pos, player)];
      totalSalary' := totalSalary + player.salary;
      projectedPoints' := projectedPoints + player.projection;
      usedPlayers' := usedPlayers + {player.playerName};
    }
  }

  /** The slot loop of one lineup: the players, `total_salary` and
      `projected_points`. */
  method FillLineup(projections: seq<PlaceholderProjection>) returns (players: seq<LineupPlayer>, totalSalary: int, projectedPoints: real)
    ensures players == FillSlots(projections, PositionsNeeded)
    ensures totalSalary == SalarySum(players)
    ensures projectedPoints == PointsSum(players)
  {
    players, totalSalary, projectedPoints := [], 0, 0.0;
    var usedPlayers: set<string> := {};
    var positionsNeeded := PositionsNeeded;
    for k := 0 to |positionsNeeded|
      invariant players == FillSlots(projections, positionsNeeded[..k])
      invariant usedPlayers == Names(players)
      invariant totalSalary == SalarySum(players)
      invariant projectedPoints == PointsSum(players)
    {
      assert positionsNeeded[..k + 1] == positionsNeeded[..k] + [positionsNeeded[k]];
      players, usedPlayers, totalSalary, projectedPoints :=
        FillSlot(projections, positionsNeeded[..k], positionsNeeded[k], players, usedPlayers, totalSalary, projectedPoints);
    }
    assert positionsNeeded[..|positionsNeeded|] == positionsNeeded;
  }

  /** `_generate_placeholder_lineups`. */
  method GeneratePlaceholderLineups(contest: ContestInfo, projections: seq<PlaceholderProjection>, numLineups: nat)
    returns (lineups: seq<Lineup>)
    ensures lineups == PlaceholderLineups(contest, projections, numLineups)
  {
    lineups := [];
    for i := 0 to numLineups
      invariant lineups == PlaceholderLineups(contest, projections, i)
    {
      var players, totalSalary, projectedPoints := FillLineup(projections);
      var lineup := Lineup(
        LineupId(contest, i), ContestIdOf(contest), contest.contestName.GetOr("Unknown"),
        contest.entryFee.GetOr(0.0), totalSalary, projectedPoints, players);
      lineups := lineups + [lineup];
    }
  }
}
