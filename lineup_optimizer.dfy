/**
 * `create_yahoo_players_csv`: the rows of the projections CSV are grouped
 * by player name, each player's projections are averaged, and one row of
 * the players CSV is produced per player.  Python's `float()` is given as
 * a function; the md5 id and the file writing are not modelled.
 */
module LineupOptimizer {
  import opened Wrappers
  import opened Seqs
  import opened Text
  import Base

  /** A row of the projections CSV: the columns the builder reads, each
      present and holding text. */
  datatype ProjectionRow = ProjectionRow(
    playerName: string,
    source: string,
    projection: string,
    position: string,
    team: string,
    salary: string,
    fppg: string,
    opponent: string,
    gameTime: string)

  /** The `player_data` entry of one player; `consensusProjection` is the
      key the second loop adds. */
  datatype PlayerData = PlayerData(
    projections: seq<real>,
    position: string,
    team: string,
    salary: int,
    fppg: real,
    opponent: string,
    gameTime: string,
    consensusProjection: Option<real>)

  /** `player_data` as (name, entry) pairs in insertion order. */
  type PlayerTable = seq<(string, PlayerData)>

  function NameOf(row: ProjectionRow): string {
    row.playerName
  }

  /** `int(proj["salary"])` and `float(proj["fppg"]) if proj["fppg"] else
      0.0` both succeed. */
  predicate FirstRowParses(row: ProjectionRow, parseFloat: string -> Option<real>) {
    ParseInt(row.salary).Some? && (row.fppg == "" || parseFloat(row.fppg).Some?)
  }

  /** The entry created for a player's first row, with no projection yet;
      `None` where `int` or `float` raises. */
  function NewEntry(row: ProjectionRow, parseFloat: string -> Option<real>): (r: Option<PlayerData>)
    ensures r.Some? <==> FirstRowParses(row, parseFloat)
  {
    var salary := ParseInt(row.salary);
    var fppg := if row.fppg != "" then parseFloat(row.fppg) else Some(0.0);
    if salary.None? || fppg.None? then None
    else Some(PlayerData([], row.position, row.team, salary.value, fppg.value, row.opponent, row.gameTime, None))
  }

  /** `player_data[name]["projections"].append(projection)` on entry `j`. */
  function AppendProjection(table: PlayerTable, j: nat, p: real): PlayerTable
    requires j < |table|
  {
    table[j := (table[j].0, table[j].1.(projections := table[j].1.projections + [p]))]
  }

  /** One turn of the grouping loop; `None` where `float` or `int` raises. */
  function AddRow(table: PlayerTable, row: ProjectionRow, parseFloat: string -> Option<real>): Option<PlayerTable> {
    var p := parseFloat(row.projection);
    if p.None? then None
    else
      var j := FindFirst(table, HasKey(row.playerName));
      if j >= 0 then Some(AppendProjection(table, j, p.value))
      else
        match NewEntry(row, parseFloat)
        case None => None
        case Some(d) => Some(AppendProjection(table + [(row.playerName, d)], |table|, p.value))
  }

  /** The table the grouping loop has built after the rows `rows`, or
      `None` once a row has raised. */
  function BuildTable(rows: seq<ProjectionRow>, parseFloat: string -> Option<real>): Option<PlayerTable> {
    if rows == [] then Some([])
    else
      match BuildTable(rows[..|rows| - 1], parseFloat)
      case None => None
      case Some(t) => AddRow(t, rows[|rows| - 1], parseFloat)
  }

  // ---------------------------------------------------------------------
  // The table, player by player

  /** `float(proj["projection"])` of each row, 0 where it raises. */
  function Projections(rows: seq<ProjectionRow>, parseFloat: string -> Option<real>): (r: seq<real>)
    ensures |r| == |rows|
    ensures forall i :: 0 <= i < |rows| ==> r[i] == parseFloat(rows[i].projection).GetOr(0.0)
  {
    seq(|rows|, i requires 0 <= i < |rows| => parseFloat(rows[i].projection).GetOr(0.0))
  }

  /** `float(proj["fppg"]) if proj["fppg"] else 0.0`, 0 where it raises. */
  function FirstFppg(row: ProjectionRow, parseFloat: string -> Option<real>): real {
    if row.fppg == "" then 0.0 else parseFloat(row.fppg).GetOr(0.0)
  }

  /** The entry of a player whose rows are `group`: every projection, and
      the other fields from the first row. */
  function EntryOf(group: seq<ProjectionRow>, parseFloat: string -> Option<real>): PlayerData
    requires group != []
  {
    var first := group[0];
    PlayerData(
      Projections(group, parseFloat), first.position, first.team,
      ParseInt(first.salary).GetOr(0), FirstFppg(first, parseFloat),
      first.opponent, first.gameTime, None)
  }

  /** Every `float(proj["projection"])` succeeds. */
  predicate ProjectionsParse(rows: seq<ProjectionRow>, parseFloat: string -> Option<real>) {
    forall i :: 0 <= i < |rows| ==> parseFloat(rows[i].projection).Some?
  }

  /** The salary and fppg of the first row of every group parse. */
  predicate FirstRowsParse(g: seq<(string, seq<ProjectionRow>)>, parseFloat: string -> Option<real>) {
    forall j :: 0 <= j < |g| ==> g[j].1 != [] && FirstRowParses(g[j].1[0], parseFloat)
  }

  /** Nothing the grouping loop converts raises. */
  predicate AllParse(rows: seq<ProjectionRow>, parseFloat: string -> Option<real>) {
    ProjectionsParse(rows, parseFloat) && FirstRowsParse(Group(rows, NameOf), parseFloat)
  }

  /** The table holds, position by position, the entry of each group. */
  predicate MatchesGroups(t: PlayerTable, g: seq<(string, seq<ProjectionRow>)>, parseFloat: string -> Option<real>) {
    && |t| == |g|
    && forall j :: 0 <= j < |g| ==> g[j].1 != [] && t[j] == (g[j].0, EntryOf(g[j].1, parseFloat))
  }

  lemma ProjectionsAppend(group: seq<ProjectionRow>, x: ProjectionRow, parseFloat: string -> Option<real>)
    ensures Projections(group + [x], parseFloat) ==
      Projections(group, parseFloat) + [parseFloat(x.projection).GetOr(0.0)]
  {
  }

  /** One more row of a known player adds its projection to the entry. */
  lemma EntryOfAppend(group: seq<ProjectionRow>, x: ProjectionRow, parseFloat: string -> Option<real>)
    requires group != []
    ensures EntryOf(group + [x], parseFloat) ==
      EntryOf(group, parseFloat).(projections := EntryOf(group, parseFloat).projections + [parseFloat(x.projection).GetOr(0.0)])
  {
    ProjectionsAppend(group, x, parseFloat);
    assert (group + [x])[0] == group[0];
  }

  lemma ProjectionsParseAppend(p: seq<ProjectionRow>, x: ProjectionRow, parseFloat: string -> Option<real>)
    ensures ProjectionsParse(p + [x], parseFloat) <==> ProjectionsParse(p, parseFloat) && parseFloat(x.projection).Some?
  {
    assert (p + [x])[|p|] == x;
    assert forall i :: 0 <= i < |p| ==> (p + [x])[i] == p[i];
  }

  /** A row of a known player leaves every first row in place. */
  lemma FirstRowsKnown(g: seq<(string, seq<ProjectionRow>)>, k: nat, x: ProjectionRow, parseFloat: string -> Option<real>)
    requires k < |g| && g[k].1 != []
    ensures FirstRowsParse(g[k := (g[k].0, g[k].1 + [x])], parseFloat) <==> FirstRowsParse(g, parseFloat)
  {
    var g' := g[k := (g[k].0, g[k].1 + [x])];
    assert (g[k].1 + [x])[0] == g[k].1[0];
    assert forall j :: 0 <= j < |g| && j != k ==> g'[j] == g[j];
  }

  /** The row of a new player is the first row of a new group. */
  lemma FirstRowsNew(g: seq<(string, seq<ProjectionRow>)>, x: ProjectionRow, parseFloat: string -> Option<real>)
    ensures FirstRowsParse(g + [(x.playerName, [x])], parseFloat) <==>
      FirstRowsParse(g, parseFloat) && FirstRowParses(x, parseFloat)
  {
    var g' := g + [(x.playerName, [x])];
    assert g'[|g|].1[0] == x;
    assert forall j :: 0 <= j < |g| ==> g'[j] == g[j];
  }

  /** A row of a player already in the table. */
  lemma KnownStep(t: PlayerTable, g: seq<(string, seq<ProjectionRow>)>, x: ProjectionRow, parseFloat: string -> Option<real>, k: nat)
    requires MatchesGroups(t, g, parseFloat)
    requires parseFloat(x.projection).Some?
    requires k < |t|
    ensures MatchesGroups(AppendProjection(t, k, parseFloat(x.projection).value), g[k := (g[k].0, g[k].1 + [x])], parseFloat)
  {
    var p := parseFloat(x.projection).value;
    var t' := AppendProjection(t, k, p);
    var g' := g[k := (g[k].0, g[k].1 + [x])];
    EntryOfAppend(g[k].1, x, parseFloat);
    assert t'[k] == (g'[k].0, EntryOf(g'[k].1, parseFloat));
    forall j | 0 <= j < |g'|
      ensures g'[j].1 != [] && t'[j] == (g'[j].0, EntryOf(g'[j].1, parseFloat))
    {
      if j != k {
        assert t'[j] == t[j] && g'[j] == g[j];
      }
    }
  }

  /** The first row of a player. */
  lemma NewStep(t: PlayerTable, g: seq<(string, seq<ProjectionRow>)>, x: ProjectionRow, parseFloat: string -> Option<real>)
    requires MatchesGroups(t, g, parseFloat)
    requires parseFloat(x.projection).Some? && FirstRowParses(x, parseFloat)
    ensures MatchesGroups(
      AppendProjection(t + [(x.playerName, NewEntry(x, parseFloat).value)], |t|, parseFloat(x.projection).value),
      g + [(x.playerName, [x])], parseFloat)
  {
    var d := NewEntry(x, parseFloat).value;
    var p := parseFloat(x.projection).value;
    var t' := AppendProjection(t + [(x.playerName, d)], |t|, p);
    var g' := g + [(x.playerName, [x])];
    assert (t + [(x.playerName, d)])[|t|] == (x.playerName, d);
    assert d.projections + [p] == [p];
    assert t'[|t|] == (x.playerName, d.(projections := [p]));
    assert Projections([x], parseFloat) == [p];
    assert [x][0] == x;
    assert d.(projections := [p]) == EntryOf([x], parseFloat);
    forall j | 0 <= j < |g'|
      ensures g'[j].1 != [] && t'[j] == (g'[j].0, EntryOf(g'[j].1, parseFloat))
    {
      if j < |t| {
        assert t'[j] == t[j] && g'[j] == g[j];
      }
    }
  }

  /** One row: the loop raises exactly when its projection, or the salary
      or fppg of a new player's first row, does not parse; otherwise the
      table still matches the groups. */
  lemma AddRowStep(t: PlayerTable, g: seq<(string, seq<ProjectionRow>)>, x: ProjectionRow, parseFloat: string -> Option<real>)
    requires MatchesGroups(t, g, parseFloat)
    ensures AddRow(t, x, parseFloat).Some? <==>
      parseFloat(x.projection).Some? && (FindFirst(g, HasKey(x.playerName)) < 0 ==> FirstRowParses(x, parseFloat))
    ensures AddRow(t, x, parseFloat).Some? ==>
      MatchesGroups(AddRow(t, x, parseFloat).value, AddToGroup(g, x.playerName, x), parseFloat)
  {
    FindFirstSameKeys(t, g, x.playerName);
    var k := FindFirst(t, HasKey(x.playerName));
    if parseFloat(x.projection).Some? {
      if k >= 0 {
        KnownStep(t, g, x, parseFloat, k);
        assert AddToGroup(g, x.playerName, x) == g[k := (g[k].0, g[k].1 + [x])];
      } else if FirstRowParses(x, parseFloat) {
        NewStep(t, g, x, parseFloat);
      }
    }
  }

  /** Adding a row to non-empty groups: the first rows are those before,
      and the row itself when its player is new. */
  lemma FirstRowsAdd(g: seq<(string, seq<ProjectionRow>)>, x: ProjectionRow, parseFloat: string -> Option<real>)
    requires forall j :: 0 <= j < |g| ==> g[j].1 != []
    ensures FirstRowsParse(AddToGroup(g, x.playerName, x), parseFloat) <==>
      FirstRowsParse(g, parseFloat) && (FindFirst(g, HasKey(x.playerName)) < 0 ==> FirstRowParses(x, parseFloat))
  {
    var i := FindFirst(g, HasKey(x.playerName));
    if i >= 0 {
      FirstRowsKnown(g, i, x, parseFloat);
      assert AddToGroup(g, x.playerName, x) == g[i := (g[i].0, g[i].1 + [x])];
    } else {
      FirstRowsNew(g, x, parseFloat);
    }
  }

  /** The grouping loop either raises, exactly when some projection, or
      the salary or fppg of some player's first row, does not parse; or
      builds one entry per distinct player name, in order of first
      appearance, holding all the projections of that player's rows in
      order and the other fields of its first row. */
  lemma {:induction false} BuildTableIsGroup(rows: seq<ProjectionRow>, parseFloat: string -> Option<real>)
    ensures BuildTable(rows, parseFloat).Some? <==> AllParse(rows, parseFloat)
    ensures BuildTable(rows, parseFloat).Some? ==>
      MatchesGroups(BuildTable(rows, parseFloat).value, Group(rows, NameOf), parseFloat)
  {
    if rows != [] {
      var n := |rows| - 1;
      var p, x := rows[..n], rows[n];
      assert rows == p + [x];
      BuildTableIsGroup(p, parseFloat);
      var g := Group(p, NameOf);
      GroupAppend(p, x, NameOf);
      forall j | 0 <= j < |g| ensures g[j].1 != [] {
        GroupEntry(p, NameOf, j);
      }
      ProjectionsParseAppend(p, x, parseFloat);
      FirstRowsAdd(g, x, parseFloat);
      if BuildTable(p, parseFloat).Some? {
        AddRowStep(BuildTable(p, parseFloat).value, g, x, parseFloat);
      }
    }
  }

  /** Once a row has raised, the loop raises whatever follows. */
  lemma {:induction false} BuildTableRaised(p: seq<ProjectionRow>, q: seq<ProjectionRow>, parseFloat: string -> Option<real>)
    requires BuildTable(p, parseFloat).None?
    ensures BuildTable(p + q, parseFloat).None?
  {
    if q == [] {
      assert p + q == p;
    } else {
      var n := |q| - 1;
      assert (p + q)[..|p + q| - 1] == p + q[..n];
      BuildTableRaised(p, q[..n], parseFloat);
    }
  }

  /** The loop's next turn. */
  lemma BuildTableStep(rows: seq<ProjectionRow>, i: nat, parseFloat: string -> Option<real>)
    requires i < |rows| && BuildTable(rows[..i], parseFloat).Some?
    ensures BuildTable(rows[..i + 1], parseFloat) == AddRow(BuildTable(rows[..i], parseFloat).value, rows[i], parseFloat)
  {
    assert rows[..i + 1][..i] == rows[..i];
  }

  /** A row that raises ends the loop with the exception. */
  lemma BuildTableRaisedAt(rows: seq<ProjectionRow>, i: nat, parseFloat: string -> Option<real>)
    requires i < |rows| && BuildTable(rows[..i + 1], parseFloat).None?
    ensures BuildTable(rows, parseFloat).None?
  {
    BuildTableRaised(rows[..i + 1], rows[i + 1..], parseFloat);
    assert rows[..i + 1] + rows[i + 1..] == rows;
  }

  // ---------------------------------------------------------------------
  // Consensus and the rows of the players CSV

  /** `sum(projections) / len(projections)`, or 0.0 for no projections. */
  function Mean(ps: seq<real>): real {
    if ps != [] then Sum(ps) / (|ps| as real) else 0.0
  }

  lemma {:induction false} SumBounds(ps: seq<real>, lo: real, hi: real)
    requires forall i :: 0 <= i < |ps| ==> lo <= ps[i] <= hi
    ensures lo * (|ps| as real) <= Sum(ps) <= hi * (|ps| as real)
  {
    if ps != [] {
      var n := |ps| - 1;
      SumBounds(ps[..n], lo, hi);
      assert lo * (|ps| as real) == lo * (n as real) + lo;
      assert hi * (|ps| as real) == hi * (n as real) + hi;
    }
  }

  lemma MeanTimesCount(ps: seq<real>)
    requires ps != []
    ensures Mean(ps) * (|ps| as real) == Sum(ps)
  {
    Base.DivTimes(Sum(ps), |ps| as real);
  }

  /** The consensus of a player lies between the smallest and the largest
      of its projections. */
  lemma MeanBounds(ps: seq<real>, lo: real, hi: real)
    requires ps != []
    requires forall i :: 0 <= i < |ps| ==> lo <= ps[i] <= hi
    ensures lo <= Mean(ps) <= hi
  {
    MeanTimesCount(ps);
    SumBounds(ps, lo, hi);
    QuotientBetween(Mean(ps), |ps| as real, Sum(ps), lo, hi);
  }

  /** A quotient `m = s / n` with `lo * n <= s <= hi * n` lies between `lo` and `hi`. */
  lemma QuotientBetween(m: real, n: real, s: real, lo: real, hi: real)
    requires n > 0.0 && m * n == s && lo * n <= s <= hi * n
    ensures lo <= m <= hi
  {
    if m < lo {
      Base.MulStrict(m, lo, n);
    }
    if hi < m {
      Base.MulStrict(hi, m, n);
    }
  }

  /** The table after the second loop: each entry gains its consensus. */
  function WithConsensus(t: PlayerTable): (r: PlayerTable)
    ensures |r| == |t|
    ensures forall j :: 0 <= j < |t| ==>
      r[j] == (t[j].0, t[j].1.(consensusProjection := Some(Mean(t[j].1.projections))))
  {
    seq(|t|, j requires 0 <= j < |t| => (t[j].0, t[j].1.(consensusProjection := Some(Mean(t[j].1.projections)))))
  }

  /** A row of the players CSV; the md5 `ID` is not modelled and the
      numbers are kept unrounded. */
  datatype YahooPlayerRow = YahooPlayerRow(
    firstName: string,
    lastName: string,
    position: string,
    team: string,
    game: string,
    salary: int,
    fppg: real,
    injuryStatus: string,
    consensusProjection: real)

  /** `name.split()`: the first word and the rest joined by single spaces
      when there are two words or more, else the name itself and "". */
  function SplitName(name: string): (string, string) {
    var ws := Words(name);
    if |ws| >= 2 then (ws[0], JoinSpace(ws[1..])) else (name, "")
  }

  /** A name of two words or more splits into its first word and a last
      name made of exactly the remaining words; any other name is kept
      whole as the first name. */
  lemma SplitNameSpec(name: string)
    ensures |Words(name)| >= 2 ==>
      && SplitName(name).0 == Words(name)[0]
      && Words(SplitName(name).1) == Words(name)[1..]
      && SplitName(name).0 + " " + SplitName(name).1 == JoinSpace(Words(name))
    ensures |Words(name)| < 2 ==> SplitName(name) == (name, "")
  {
    var ws := Words(name);
    if |ws| >= 2 {
      WordsOfJoin(ws[1..]);
    }
  }

  /** `f"{team}@{opponent}"` when both are non-empty, else "". */
  function Game(team: string, opponent: string): (r: string)
    ensures r != "" <==> team != "" && opponent != ""
    ensures r != "" ==> |r| == |team| + 1 + |opponent| && r[..|team|] == team && r[|team|] == '@' && r[|team| + 1..] == opponent
  {
    if team != "" && opponent != "" then team + "@" + opponent else ""
  }

  /** The row written for one player. */
  function PlayerRowOf(name: string, data: PlayerData, useConsensus: bool): YahooPlayerRow {
    var (first, last) := SplitName(name);
    var consensus := data.consensusProjection.GetOr(0.0);
    YahooPlayerRow(
      first, last, data.position, data.team, Game(data.team, data.opponent), data.salary,
      if useConsensus then consensus else data.fppg, "", consensus)
  }

  /** The row written for a table entry. */
  function RowOfEntry(useConsensus: bool): ((string, PlayerData)) -> YahooPlayerRow {
    (e: (string, PlayerData)) => PlayerRowOf(e.0, e.1, useConsensus)
  }

  /** The rows written for the entries of `t`, in table order. */
  function PlayerRows(t: PlayerTable, useConsensus: bool): (r: seq<YahooPlayerRow>)
    ensures |r| == |t|
  {
    MapSeq(t, RowOfEntry(useConsensus))
  }

  /** The rows `create_yahoo_players_csv` writes, or `None` where it
      raises. */
  function YahooPlayers(projections: seq<ProjectionRow>, useConsensus: bool, parseFloat: string -> Option<real>): Option<seq<YahooPlayerRow>> {
    match BuildTable(projections, parseFloat)
    case None => None
    case Some(t) => Some(PlayerRows(WithConsensus(t), useConsensus))
  }

  /** The row written for the player `name` whose projection rows are
      `rs`: its name split, the position, team, game and salary of its
      first row, the mean of the projections of all its rows as consensus,
      and an FPPG that is that consensus or the first row's fppg. */
  predicate Describes(r: YahooPlayerRow, name: string, rs: seq<ProjectionRow>, useConsensus: bool, parseFloat: string -> Option<real>)
    requires rs != []
  {
    && r.firstName == SplitName(name).0
    && r.lastName == SplitName(name).1
    && r.position == rs[0].position
    && r.team == rs[0].team
    && r.game == Game(rs[0].team, rs[0].opponent)
    && ParseInt(rs[0].salary) == Some(r.salary)
    && r.consensusProjection == Mean(Projections(rs, parseFloat))
    && r.fppg == (if useConsensus then r.consensusProjection else FirstFppg(rs[0], parseFloat))
    && r.injuryStatus == ""
  }

  /** The row of a group. */
  lemma RowOfGroup(t: PlayerTable, g: seq<(string, seq<ProjectionRow>)>, useConsensus: bool, parseFloat: string -> Option<real>, j: nat)
    requires MatchesGroups(t, g, parseFloat) && FirstRowsParse(g, parseFloat) && j < |g|
    ensures g[j].1 != []
    ensures Describes(PlayerRows(WithConsensus(t), useConsensus)[j], g[j].0, g[j].1, useConsensus, parseFloat)
  {
    var rs := g[j].1;
    var d := EntryOf(rs, parseFloat);
    assert t[j] == (g[j].0, d);
    var c := Mean(d.projections);
    assert WithConsensus(t)[j] == (g[j].0, d.(consensusProjection := Some(c)));
    MapSeqAt(WithConsensus(t), RowOfEntry(useConsensus), j);
    var r := PlayerRows(WithConsensus(t), useConsensus)[j];
    assert r == PlayerRowOf(g[j].0, d.(consensusProjection := Some(c)), useConsensus);
    assert r.consensusProjection == Mean(Projections(rs, parseFloat));
    assert FirstRowParses(rs[0], parseFloat);
  }

  /** `create_yahoo_players_csv` raises exactly when a projection, or the
      salary or fppg of some player's first row, does not parse; otherwise
      it writes one row per distinct player name, in order of first
      appearance, each describing all the projection rows of that player. */
  lemma YahooPlayersSpec(projections: seq<ProjectionRow>, useConsensus: bool, parseFloat: string -> Option<real>, j: nat)
    ensures YahooPlayers(projections, useConsensus, parseFloat).Some? <==> AllParse(projections, parseFloat)
    ensures YahooPlayers(projections, useConsensus, parseFloat).Some? ==>
      |YahooPlayers(projections, useConsensus, parseFloat).value| == |Dedup(Keys(projections, NameOf))|
    ensures YahooPlayers(projections, useConsensus, parseFloat).Some? && j < |Dedup(Keys(projections, NameOf))| ==>
      && Select(projections, NameOf, Dedup(Keys(projections, NameOf))[j]) != []
      && Describes(YahooPlayers(projections, useConsensus, parseFloat).value[j], Dedup(Keys(projections, NameOf))[j],
                   Select(projections, NameOf, Dedup(Keys(projections, NameOf))[j]), useConsensus, parseFloat)
  {
    BuildTableIsGroup(projections, parseFloat);
    var g := Group(projections, NameOf);
    GroupIsSelect(projections, NameOf);
    assert |Keys(g, KeyOfGroup)| == |g|;
    if BuildTable(projections, parseFloat).Some? && j < |g| {
      assert Keys(g, KeyOfGroup)[j] == g[j].0;
      RowOfGroup(BuildTable(projections, parseFloat).value, g, useConsensus, parseFloat, j);
    }
  }

  // ---------------------------------------------------------------------
  // The builder

  /** One turn of the first loop: the row's projection is appended to its
      player's entry, which is created from the row first when the name is
      new. */
  method AddProjectionRow(playerData: PlayerTable, proj: ProjectionRow, parseFloat: string -> Option<real>)
    returns (next: Option<PlayerTable>)
    ensures next == AddRow(playerData, proj, parseFloat)
  {
    var playerName := proj.playerName;
    var projection := parseFloat(proj.projection);
    if projection.None? {
      return None;
    }
    var table := playerData;
    var j := FindFirst(table, HasKey(playerName));
    if j < 0 {
      var entry := NewEntry(proj, parseFloat);
      if entry.None? {
        return None;
      }
      table := table + [(playerName, entry.value)];
      j := |table| - 1;
    }
    next := Some(AppendProjection(table, j, projection.value));
  }

  /** The first loop: `player_data` built row by row, or `None` where
      `float` or `int` raises. */
  method GroupProjections(projections: seq<ProjectionRow>, parseFloat: string -> Option<real>)
    returns (table: Option<PlayerTable>)
    ensures table == BuildTable(projections, parseFloat)
  {
    var playerData: PlayerTable := [];
    for i := 0 to |projections|
      invariant BuildTable(projections[..i], parseFloat) == Some(playerData)
    {
      BuildTableStep(projections, i, parseFloat);
      var next := AddProjectionRow(playerData, projections[i], parseFloat);
      if next.None? {
        BuildTableRaisedAt(projections, i, parseFloat);
        return None;
      }
      playerData := next.value;
    }
    assert projections[..|projections|] == projections;
    table := Some(playerData);
  }

  /** The second loop: each entry gains the mean of its projections. */
  method AddConsensus(table: PlayerTable) returns (playerData: PlayerTable)
    ensures playerData == WithConsensus(table)
  {
    playerData := table;
    for i := 0 to |playerData|
      invariant |playerData| == |table|
      invariant forall k :: 0 <= k < i ==> playerData[k] == WithConsensus(table)[k]
      invariant forall k :: i <= k < |table| ==> playerData[k] == table[k]
    {
      var data := playerData[i].1;
      var consensus := if data.projections != [] then Sum(data.projections) / (|data.projections| as real) else 0.0;
      playerData := playerData[i := (playerData[i].0, data.(consensusProjection := Some(consensus)))];
    }
  }

  /** The third loop: one row per entry, in table order. */
  method WritePlayerRows(playerData: PlayerTable, useConsensus: bool) returns (out: seq<YahooPlayerRow>)
    ensures out == PlayerRows(playerData, useConsensus)
  {
    out := [];
    for i := 0 to |playerData|
      invariant out == PlayerRows(playerData[..i], useConsensus)
    {
      MapSeqStep(playerData, RowOfEntry(useConsensus), i);
      out := out + [PlayerRowOf(playerData[i].0, playerData[i].1, useConsensus)];
    }
    assert playerData[..|playerData|] == playerData;
  }

  /** `create_yahoo_players_csv` up to writing the file: the rows it
      writes, or `None` where `float` or `int` raises. */
  method CreateYahooPlayers(projections: seq<ProjectionRow>, useConsensus: bool, parseFloat: string -> Option<real>)
    returns (rows: Option<seq<YahooPlayerRow>>)
    ensures rows == YahooPlayers(projections, useConsensus, parseFloat)
  {
    var playerData := GroupProjections(projections, parseFloat);
    if playerData.None? {
      return None;
    }
    var withConsensus := AddConsensus(playerData.value);
    var out := WritePlayerRows(withConsensus, useConsensus);
    rows := Some(out);
  }
}
