/**
 * The projection record shared by every collector, its validation, and the
 * grouping and averaging that `DataCollectionManager` performs to turn the
 * projections of several collectors into one consensus record per player.
 */
module Base {
  import opened Wrappers
  import opened Seqs

  /** `SportType`, with its `.value`. */
  datatype SportType = NFL | NBA | MLB | NHL | Soccer {
    function Value(): string {
      match this
      case NFL => "nfl"
      case NBA => "nba"
      case MLB => "mlb"
      case NHL => "nhl"
      case Soccer => "soccer"
    }
  }

  /** `PlayerProjection`.  Dates and timestamps are kept as their text. */
  datatype PlayerProjection = PlayerProjection(
    playerId: string,
    playerName: string,
    team: string,
    opponent: string,
    position: string,
    salary: Option<int>,
    projectedPoints: Option<real>,
    projectedValue: Option<real>,
    gameDate: Option<string>,
    gameTime: Option<string>,
    injuryStatus: Option<string>,
    weather: Option<string>,
    source: Option<string>,
    lastUpdated: Option<string>,
    confidence: Option<real>)

  const NegativePointsError := "Projected points cannot be negative"
  const ConfidenceRangeError := "Confidence must be between 0 and 1"

  /** The checks of `__post_init__`: points, when present, are not
      negative, and a confidence, when present, lies in [0, 1]. */
  predicate ValidProjection(p: PlayerProjection) {
    && (p.projectedPoints.Some? ==> p.projectedPoints.value >= 0.0)
    && (p.confidence.Some? ==> 0.0 <= p.confidence.value <= 1.0)
  }

  /** `__post_init__`: the record itself, or the first check that fails. */
  function Validate(p: PlayerProjection): (r: Result<PlayerProjection, string>)
    ensures r.Ok? <==> ValidProjection(p)
    ensures r.Ok? ==> r.value == p
    ensures p.projectedPoints.Some? && p.projectedPoints.value < 0.0 ==> r == Err(NegativePointsError)
    ensures r.Err? && !(p.projectedPoints.Some? && p.projectedPoints.value < 0.0) ==> r == Err(ConfidenceRangeError)
  {
    if p.projectedPoints.Some? && p.projectedPoints.value < 0.0 then Err(NegativePointsError)
    else if p.confidence.Some? && !(0.0 <= p.confidence.value <= 1.0) then Err(ConfidenceRangeError)
    else Ok(p)
  }

  // ---------------------------------------------------------------------
  // get_consensus_projections

  type PlayerKey = (string, string)

  /** `(projection.player_id, projection.player_name)`. */
  function Key(p: PlayerProjection): PlayerKey {
    (p.playerId, p.playerName)
  }

  /** The projections of all collectors, collector by collector. */
  function Flatten(all: seq<(string, seq<PlayerProjection>)>): seq<PlayerProjection> {
    if all == [] then [] else Flatten(all[..|all| - 1]) + all[|all| - 1].1
  }

  /** `p.projected_points or 0`. */
  function PointsOf(ps: seq<PlayerProjection>): (r: seq<real>)
    ensures |r| == |ps|
    ensures forall i :: 0 <= i < |ps| ==> r[i] == ps[i].projectedPoints.GetOr(0.0)
  {
    seq(|ps|, i requires 0 <= i < |ps| => ps[i].projectedPoints.GetOr(0.0))
  }

  /** `p.salary or 0`. */
  function SalariesOf(ps: seq<PlayerProjection>): (r: seq<real>)
    ensures |r| == |ps|
    ensures forall i :: 0 <= i < |ps| ==> r[i] == ps[i].salary.GetOr(0) as real
  {
    seq(|ps|, i requires 0 <= i < |ps| => ps[i].salary.GetOr(0) as real)
  }

  function Min(a: real, b: real): real {
    if a <= b then a else b
  }

  /** The consensus record of one player's group `ps`, when `collectors`
      collectors were consulted at time `now`. */
  function ConsensusRecord(ps: seq<PlayerProjection>, collectors: nat, now: string): PlayerProjection
    requires ps != [] && collectors > 0
  {
    var avgPoints := Sum(PointsOf(ps)) / |ps| as real;
    var avgSalary := Sum(SalariesOf(ps)) / |ps| as real;
    var base := ps[0];
    PlayerProjection(
      base.playerId, base.playerName, base.team, base.opponent, base.position,
      if avgSalary > 0.0 then Some(avgSalary.Floor) else None,
      Some(avgPoints),
      if avgSalary > 0.0 then Some(avgPoints / avgSalary) else None,
      base.gameDate, base.gameTime, base.injuryStatus, base.weather,
      Some("consensus"),
      Some(now),
      Some(Min(1.0, |ps| as real / collectors as real)))
  }

  /** The groups with at least `minSources` members. */
  function Enough(minSources: int): ((PlayerKey, seq<PlayerProjection>)) -> bool {
    (g: (PlayerKey, seq<PlayerProjection>)) => |g.1| >= minSources
  }

  /** The consensus records of the groups with at least `minSources`
      members, in group order. */
  function ConsensusRecords(groups: seq<(PlayerKey, seq<PlayerProjection>)>, minSources: int, collectors: nat, now: string)
    : (r: seq<PlayerProjection>)
    requires forall j :: 0 <= j < |groups| ==> groups[j].1 != []
    requires groups != [] ==> collectors > 0
    ensures |r| == |Filter(groups, Enough(minSources))|
  {
    if groups == [] then []
    else
      var n := |groups| - 1;
      assert forall j :: 0 <= j < n ==> groups[..n][j] == groups[j];
      ConsensusRecords(groups[..n], minSources, collectors, now)
        + if |groups[n].1| >= minSources then [ConsensusRecord(groups[n].1, collectors, now)] else []
  }

  /** One more group: its record is appended when it is large enough. */
  lemma ConsensusRecordsStep(groups: seq<(PlayerKey, seq<PlayerProjection>)>, g: nat, minSources: int, collectors: nat, now: string)
    requires g < |groups| && collectors > 0
    requires forall j :: 0 <= j < |groups| ==> groups[j].1 != []
    ensures ConsensusRecords(groups[..g + 1], minSources, collectors, now) ==
      ConsensusRecords(groups[..g], minSources, collectors, now)
        + if |groups[g].1| >= minSources then [ConsensusRecord(groups[g].1, collectors, now)] else []
  {
    assert groups[..g + 1][..g] == groups[..g];
    assert groups[..g + 1][g] == groups[g];
  }

  /** What `get_consensus_projections` returns for the collected
      `all` (one entry per collector). */
  function ConsensusProjections(all: seq<(string, seq<PlayerProjection>)>, minSources: int, now: string)
    : seq<PlayerProjection>
  {
    var groups := Group(Flatten(all), Key);
    GroupsNonEmpty(Flatten(all));
    NoCollectorsNoGroups(all);
    ConsensusRecords(groups, minSources, |all|, now)
  }

  lemma GroupsNonEmpty(xs: seq<PlayerProjection>)
    ensures forall j :: 0 <= j < |Group(xs, Key)| ==> Group(xs, Key)[j].1 != []
  {
    forall j | 0 <= j < |Group(xs, Key)|
      ensures Group(xs, Key)[j].1 != []
    {
      GroupEntry(xs, Key, j);
    }
  }

  lemma FlattenStep(all: seq<(string, seq<PlayerProjection>)>, s: nat)
    requires s < |all|
    ensures Flatten(all[..s + 1]) == Flatten(all[..s]) + all[s].1[..|all[s].1|]
  {
    assert all[..s + 1][..s] == all[..s];
    assert all[s].1[..|all[s].1|] == all[s].1;
  }

  lemma NoCollectorsNoGroups(all: seq<(string, seq<PlayerProjection>)>)
    ensures Group(Flatten(all), Key) != [] ==> |all| > 0
  {
  }

  /** The consensus record of a group: identity, team, opponent, position,
      game and injury fields of its first projection; the mean of the
      points (None counted as 0); a salary and a value exactly when the
      mean salary is positive, the salary being that mean rounded down;
      source "consensus"; and a confidence in (0, 1] that is 1 exactly when
      the group is at least as large as the number of collectors. */
  lemma ConsensusRecordFields(ps: seq<PlayerProjection>, collectors: nat, now: string)
    requires ps != [] && collectors > 0
    ensures var r := ConsensusRecord(ps, collectors, now);
      && Key(r) == Key(ps[0])
      && r.team == ps[0].team && r.opponent == ps[0].opponent && r.position == ps[0].position
      && r.gameDate == ps[0].gameDate && r.gameTime == ps[0].gameTime
      && r.injuryStatus == ps[0].injuryStatus && r.weather == ps[0].weather
      && r.source == Some("consensus") && r.lastUpdated == Some(now)
      && r.projectedPoints.Some? && r.projectedPoints.value * |ps| as real == Sum(PointsOf(ps))
      && (r.salary.None? <==> Sum(SalariesOf(ps)) <= 0.0)
      && (r.projectedValue.None? <==> Sum(SalariesOf(ps)) <= 0.0)
      && (r.projectedValue.Some? ==> r.projectedValue.value * Sum(SalariesOf(ps)) == Sum(PointsOf(ps)))
      && (r.salary.Some? ==> r.salary.value as real * |ps| as real <= Sum(SalariesOf(ps)) < (r.salary.value + 1) as real * |ps| as real)
      && r.confidence.Some? && 0.0 < r.confidence.value <= 1.0
      && (r.confidence.value == 1.0 <==> |ps| >= collectors)
  {
    var n := |ps| as real;
    var avgSalary := Sum(SalariesOf(ps)) / n;
    DivTimes(Sum(PointsOf(ps)), n);
    AverageSign(Sum(SalariesOf(ps)), n);
    if avgSalary > 0.0 {
      FloorBounds(avgSalary, Sum(SalariesOf(ps)), n);
      RatioOfAverages(Sum(PointsOf(ps)), Sum(SalariesOf(ps)), n);
    }
    ConfidenceBounds(n, collectors as real);
  }

  /** The ratio of two averages over the same count is the ratio of the
      totals: `(p / n) / (s / n)` times `s` is `p`. */
  lemma RatioOfAverages(p: real, s: real, n: real)
    requires n > 0.0 && s / n > 0.0
    ensures ((p / n) / (s / n)) * s == p
  { }

  /** An average over a positive count is positive exactly when the total is. */
  lemma AverageSign(s: real, n: real)
    requires n > 0.0
    ensures s / n > 0.0 <==> s > 0.0
  {
    DivTimes(s, n);
    if s / n > 0.0 {
      MulStrict(0.0, s / n, n);
    } else {
      MulMonotone(s / n, 0.0, n);
    }
  }

  /** `min(1.0, n / c)` lies in (0, 1] and is 1 exactly when `n >= c`. */
  lemma ConfidenceBounds(n: real, c: real)
    requires n > 0.0 && c > 0.0
    ensures 0.0 < Min(1.0, n / c) <= 1.0
    ensures Min(1.0, n / c) == 1.0 <==> n >= c
  {
    DivTimes(n, c);
    AverageSign(n, c);
    if n / c >= 1.0 {
      MulMonotone(1.0, n / c, c);
      assert 1.0 * c <= (n / c) * c;
      assert (n / c) * c == n;
      assert c <= n;
    } else {
      MulStrict(n / c, 1.0, c);
    }
  }

  lemma DivTimes(s: real, n: real)
    requires n > 0.0
    ensures (s / n) * n == s
  {
  }

  /** `int(avg)` for a positive average `avg = s / n` lies within one of it. */
  lemma FloorBounds(avg: real, s: real, n: real)
    requires n > 0.0 && avg == s / n
    ensures avg.Floor as real * n <= s < (avg.Floor + 1) as real * n
  {
    var f := avg.Floor as real;
    assert f <= avg < f + 1.0;
    DivTimes(s, n);
    assert avg * n == s;
    MulMonotone(f, avg, n);
    MulStrict(avg, f + 1.0, n);
    var g := (avg.Floor + 1) as real;
    assert g == f + 1.0;
    assert g * n == (f + 1.0) * n;
    assert avg * n < (f + 1.0) * n;
    assert s < g * n;
  }

  lemma MulMonotone(a: real, b: real, n: real)
    requires a <= b && n > 0.0
    ensures a * n <= b * n
  {
  }

  lemma MulStrict(a: real, b: real, n: real)
    requires a < b && n > 0.0
    ensures a * n < b * n
  {
  }

  /** The consensus record of valid projections passes the checks of
      `__post_init__`, so building it never raises. */
  lemma ConsensusRecordValid(ps: seq<PlayerProjection>, collectors: nat, now: string)
    requires ps != [] && collectors > 0
    requires forall i :: 0 <= i < |ps| ==> ValidProjection(ps[i])
    ensures ValidProjection(ConsensusRecord(ps, collectors, now))
  {
    SumNonNegative(PointsOf(ps));
    ConsensusRecordFields(ps, collectors, now);
  }

  /** The record of a group carries the key of the group's first projection. */
  lemma RecordKey(ps: seq<PlayerProjection>, collectors: nat, now: string)
    requires ps != [] && collectors > 0
    ensures Key(ConsensusRecord(ps, collectors, now)) == Key(ps[0])
  {
  }

  /** Record `i` is the record of the `i`-th group with at least
      `minSources` members. */
  lemma {:induction false} RecordsOfEnough(groups: seq<(PlayerKey, seq<PlayerProjection>)>, minSources: int, collectors: nat, now: string)
    requires forall j :: 0 <= j < |groups| ==> groups[j].1 != []
    requires groups != [] ==> collectors > 0
    ensures forall i :: 0 <= i < |ConsensusRecords(groups, minSources, collectors, now)| ==>
      ConsensusRecords(groups, minSources, collectors, now)[i] ==
      ConsensusRecord(Filter(groups, Enough(minSources))[i].1, collectors, now)
  {
    if groups != [] {
      var n := |groups| - 1;
      var p := groups[..n];
      assert forall j :: 0 <= j < n ==> p[j] == groups[j];
      RecordsOfEnough(p, minSources, collectors, now);
      assert Filter(groups, Enough(minSources)) ==
        Filter(p, Enough(minSources)) + if |groups[n].1| >= minSources then [groups[n]] else [];
    }
  }

  /** Record `i` is the consensus of all the projections of one player key,
      and that key has at least `minSources` projections. */
  lemma ConsensusProjectionsAreGroups(all: seq<(string, seq<PlayerProjection>)>, minSources: int, now: string, i: nat)
    requires i < |ConsensusProjections(all, minSources, now)|
    ensures var out := ConsensusProjections(all, minSources, now);
      var sel := Select(Flatten(all), Key, Key(out[i]));
      && |sel| >= minSources && sel != [] && |all| > 0
      && out[i] == ConsensusRecord(sel, |all|, now)
  {
    var flat := Flatten(all);
    var groups := Group(flat, Key);
    var big := Filter(groups, Enough(minSources));
    GroupsNonEmpty(flat);
    NoCollectorsNoGroups(all);
    RecordsOfEnough(groups, minSources, |all|, now);
    var j :| 0 <= j < |groups| && groups[j] == big[i];
    GroupEntry(flat, Key, j);
    RecordKey(big[i].1, |all|, now);
  }

  /** No two records share a player key. */
  lemma ConsensusProjectionsKeysDistinct(all: seq<(string, seq<PlayerProjection>)>, minSources: int, now: string)
    ensures var out := ConsensusProjections(all, minSources, now);
      forall i, i' :: 0 <= i < i' < |out| ==> Key(out[i]) != Key(out[i'])
  {
    var flat := Flatten(all);
    var groups := Group(flat, Key);
    var big := Filter(groups, Enough(minSources));
    GroupsNonEmpty(flat);
    NoCollectorsNoGroups(all);
    RecordsOfEnough(groups, minSources, |all|, now);
    GroupKeysDistinct(flat, Key);
    FilterKeysDistinct(groups, Enough(minSources));
    var out := ConsensusProjections(all, minSources, now);
    forall i | 0 <= i < |out|
      ensures Key(out[i]) == big[i].0
    {
      var j :| 0 <= j < |groups| && groups[j] == big[i];
      GroupEntry(flat, Key, j);
      RecordKey(big[i].1, |all|, now);
    }
  }

  /** Every player key with at least `minSources` projections has a record. */
  lemma ConsensusProjectionsCover(all: seq<(string, seq<PlayerProjection>)>, minSources: int, now: string, i: nat)
    requires i < |Flatten(all)| && |Select(Flatten(all), Key, Key(Flatten(all)[i]))| >= minSources
    ensures var out := ConsensusProjections(all, minSources, now);
      exists k :: 0 <= k < |out| && Key(out[k]) == Key(Flatten(all)[i])
  {
    var flat := Flatten(all);
    var groups := Group(flat, Key);
    var big := Filter(groups, Enough(minSources));
    GroupsNonEmpty(flat);
    NoCollectorsNoGroups(all);
    RecordsOfEnough(groups, minSources, |all|, now);
    var out := ConsensusProjections(all, minSources, now);
    GroupCovers(flat, Key, i);
    var j :| 0 <= j < |groups| && groups[j].0 == Key(flat[i]);
    GroupEntry(flat, Key, j);
    assert Enough(minSources)(groups[j]);
    assert groups[j] in big;
    var k :| 0 <= k < |big| && big[k] == groups[j];
    assert out == ConsensusRecords(groups, minSources, |all|, now);
    assert out[k] == ConsensusRecord(groups[j].1, |all|, now);
    RecordKey(groups[j].1, |all|, now);
    assert Key(groups[j].1[0]) == Key(flat[i]);
  }

  /** The grouping loop of `get_consensus_projections`: every projection of
      every collector, in order, appended to the list of its player key. */
  method GroupByPlayer(allProjections: seq<(string, seq<PlayerProjection>)>)
    returns (playerProjections: seq<(PlayerKey, seq<PlayerProjection>)>)
    ensures playerProjections == Group(Flatten(allProjections), Key)
  {
    playerProjections := [];
    for s := 0 to |allProjections|
      invariant playerProjections == Group(Flatten(allProjections[..s]), Key)
    {
      var projections := allProjections[s].1;
      ghost var done := Flatten(allProjections[..s]);
      assert done + projections[..0] == done;
      for j := 0 to |projections|
        invariant playerProjections == Group(done + projections[..j], Key)
      {
        var projection := projections[j];
        GroupAppend(done + projections[..j], projection, Key);
        PrefixStep(done, projections, j);
        playerProjections := AddToGroup(playerProjections, Key(projection), projection);
      }
      FlattenStep(allProjections, s);
    }
    assert allProjections[..|allProjections|] == allProjections;
  }

  /** The body of `get_consensus_projections` after the collection: the
      grouping loop, then one record per group with enough members. */
  method GetConsensusProjections(allProjections: seq<(string, seq<PlayerProjection>)>, minSources: int, now: string)
    returns (consensus: seq<PlayerProjection>)
    ensures consensus == ConsensusProjections(allProjections, minSources, now)
  {
    var playerProjections := GroupByPlayer(allProjections);
    GroupsNonEmpty(Flatten(allProjections));
    NoCollectorsNoGroups(allProjections);

    consensus := [];
    for g := 0 to |playerProjections|
      invariant consensus == ConsensusRecords(playerProjections[..g], minSources, |allProjections|, now)
    {
      ConsensusRecordsStep(playerProjections, g, minSources, |allProjections|, now);
      var projections := playerProjections[g].1;
      if |projections| >= minSources {
        var record := ConsensusRecord(projections, |allProjections|, now);
        consensus := consensus + [record];
      }
    }
    assert playerProjections[..|playerProjections|] == playerProjections;
  }
}
