/**
 * The CSV side of the Daily Fantasy Fuel collector: the column check, the
 * derivation of a `PlayerProjection` from one CSV row, and the row loop.
 * Python's `float()` and the date formats are given as functions.
 */
module DailyFantasyFuel {
  import opened Wrappers
  import opened Seqs
  import opened Text
  import opened Base

  const SourceName := "Daily Fantasy Fuel"
  const DffConfidence := 0.8
  const RequiredColumns: seq<string> := ["Player", "Team", "Position"]

  /** The sports with an expected-column list: every sport but soccer. */
  predicate HasExpectedColumns(sport: SportType) {
    sport != Soccer
  }

  /** `_validate_csv_columns`; `None` is a reader without field names. */
  function ValidateCsvColumns(fieldnames: Option<seq<string>>, sport: SportType): (r: bool)
    ensures fieldnames.None? || fieldnames == Some([]) ==> !r
    ensures fieldnames.Some? && fieldnames.value != [] && !HasExpectedColumns(sport) ==> r
    ensures fieldnames.Some? && fieldnames.value != [] && HasExpectedColumns(sport) ==>
      (r <==> "Player" in fieldnames.value && "Team" in fieldnames.value && "Position" in fieldnames.value)
  {
    if fieldnames.None? || fieldnames.value == [] then false
    else if !HasExpectedColumns(sport) then true
    else forall col :: col in RequiredColumns ==> col in fieldnames.value
  }

  // ---------------------------------------------------------------------
  // _parse_csv_row

  /** A CSV row whose every cell is present, as `csv.DictReader` yields it
      for a line that has at least as many cells as the header. */
  type Row = map<string, string>

  /** What the row parser is given besides the row: the requested game
      date, Python's `float()` (`None` where it raises), the three date
      formats tried in order (`None` where none fits) and the clock. */
  datatype RowContext = RowContext(
    gameDate: Option<string>,
    parseFloat: string -> Option<real>,
    parseDate: string -> Option<string>,
    now: string)

  /** `row.get(column, "").strip()`. */
  function Field(row: Row, column: string): string {
    Strip(if column in row then row[column] else "")
  }

  /** The salary field: `None` when empty or when `int()` rejects it once
      every "$" and "," is removed. */
  function ParseSalary(s: string): Option<int> {
    if s == "" then None else ParseInt(RemoveChar(RemoveChar(s, '$'), ','))
  }

  /** A salary written as "$" and digits is read as the number. */
  lemma ParseSalaryOfDollars(n: nat)
    ensures ParseSalary("$" + NatToString(n)) == Some(n)
  {
    var d := NatToString(n);
    assert ("$" + d)[1..] == d;
    assert "$" + d == ['$'] + d;
    RemoveCharAbsent(d, '$');
    assert RemoveChar("$" + d, '$') == d;
    RemoveCharAbsent(d, ',');
    ParseIntOfDigits(d);
    DigitsValueOfNat(n);
  }

  /** The points field: `None` when empty or when `float()` rejects it. */
  function ParsePoints(s: string, ctx: RowContext): Option<real> {
    if s == "" then None else ctx.parseFloat(s)
  }

  /** `projected_points / salary` when `projected_points and salary and
      salary > 0`; Python's truthiness rules out a zero either way. */
  function ValueOf(points: Option<real>, salary: Option<int>): (r: Option<real>)
    ensures r.Some? <==> points.Some? && points.value != 0.0 && salary.Some? && salary.value > 0
  {
    if points.Some? && points.value != 0.0 && salary.Some? && salary.value != 0 && salary.value > 0 then
      Some(points.value / salary.value as real)
    else None
  }

  /** The value is points per salary dollar. */
  lemma ValueTimesSalary(points: Option<real>, salary: Option<int>)
    requires ValueOf(points, salary).Some?
    ensures ValueOf(points, salary).value * salary.value as real == points.value
  {
    DivTimes(points.value, salary.value as real);
  }

  /** `f"dff_{player_name.lower().replace(' ', '_').replace('.', '')}"`. */
  function PlayerId(name: string): string {
    "dff_" + RemoveChar(ReplaceChar(Lower(name), ' ', '_'), '.')
  }

  /** The id is "dff_" followed by a slug with no period, no space and no
      upper-case letter. */
  lemma PlayerIdSlug(name: string)
    ensures PlayerId(name)[..4] == "dff_"
    ensures forall i :: 4 <= i < |PlayerId(name)| ==>
      PlayerId(name)[i] != '.' && PlayerId(name)[i] != ' ' && !IsUpper(PlayerId(name)[i])
  {
    var lowered := ReplaceChar(Lower(name), ' ', '_');
    var slug := RemoveChar(lowered, '.');
    assert PlayerId(name) == "dff_" + slug;
    forall i | 4 <= i < |PlayerId(name)|
      ensures PlayerId(name)[i] != '.' && PlayerId(name)[i] != ' ' && !IsUpper(PlayerId(name)[i])
    {
      var c := slug[i - 4];
      assert PlayerId(name)[i] == c;
      assert c in slug;
      assert c in lowered;
      var j :| 0 <= j < |lowered| && lowered[j] == c;
    }
  }

  /** The game date: the first date format that reads the field, else the
      requested date. */
  function GameDate(s: string, ctx: RowContext): Option<string> {
    if s != "" && ctx.parseDate(s).Some? then ctx.parseDate(s) else ctx.gameDate
  }

  /** The stripped text of the columns the row parser reads. */
  datatype RowFields = RowFields(
    player: string, team: string, opponent: string, position: string,
    salary: string, points: string, gameDate: string, injuryStatus: string)

  function ReadFields(row: Row): RowFields {
    RowFields(
      Field(row, "Player"), Field(row, "Team"), Field(row, "Opponent"), Field(row, "Position"),
      Field(row, "Salary"), Field(row, "Projected_Points"), Field(row, "Game_Date"),
      Field(row, "Injury_Status"))
  }

  /** The record the constructor is called with. */
  function RecordOf(f: RowFields, ctx: RowContext): PlayerProjection {
    var salary := ParseSalary(f.salary);
    var points := ParsePoints(f.points, ctx);
    PlayerProjection(
      PlayerId(f.player), f.player, f.team, f.opponent, f.position,
      salary, points, ValueOf(points, salary),
      GameDate(f.gameDate, ctx), None,
      if f.injuryStatus == "" then None else Some(f.injuryStatus), None,
      Some(SourceName), Some(ctx.now), Some(DffConfidence))
  }

  /** `_parse_csv_row` on the fields read from the row: `None` without a
      player name, and when `__post_init__` rejects the record (the
      exception is caught). */
  function ParseFields(f: RowFields, ctx: RowContext): Option<PlayerProjection> {
    if f.player == "" then None
    else
      match Validate(RecordOf(f, ctx))
      case Ok(p) => Some(p)
      case Err(_) => None
  }

  /** `_parse_csv_row`. */
  function ParseCsvRow(row: Row, ctx: RowContext): Option<PlayerProjection> {
    ParseFields(ReadFields(row), ctx)
  }

  predicate NegativePoints(points: Option<real>) {
    points.Some? && points.value < 0.0
  }

  /** A row yields a record exactly when it names a player and its points
      are not negative, and the record it yields is a valid one built from
      its fields. */
  lemma ParseFieldsSpec(f: RowFields, ctx: RowContext)
    ensures ParseFields(f, ctx).None? <==> f.player == "" || NegativePoints(ParsePoints(f.points, ctx))
    ensures ParseFields(f, ctx).Some? ==> ParseFields(f, ctx) == Some(RecordOf(f, ctx))
    ensures ParseFields(f, ctx).Some? ==> ValidProjection(RecordOf(f, ctx))
  {
    RecordValidity(RecordOf(f, ctx));
  }

  /** The record of a row: the stripped player name and its slug id, the
      salary and points as read, the source name and confidence 0.8, and a
      value exactly when the points and the salary are non-zero and the
      salary is positive. */
  lemma RecordOfSpec(f: RowFields, ctx: RowContext)
    ensures RecordOf(f, ctx).playerName == f.player
    ensures RecordOf(f, ctx).playerId == PlayerId(f.player)
    ensures RecordOf(f, ctx).salary == ParseSalary(f.salary)
    ensures RecordOf(f, ctx).projectedPoints == ParsePoints(f.points, ctx)
    ensures RecordOf(f, ctx).source == Some(SourceName)
    ensures RecordOf(f, ctx).confidence == Some(DffConfidence)
    ensures RecordOf(f, ctx).projectedValue.Some? <==>
      && RecordOf(f, ctx).projectedPoints.Some? && RecordOf(f, ctx).projectedPoints.value != 0.0
      && RecordOf(f, ctx).salary.Some? && RecordOf(f, ctx).salary.value > 0
  {
  }

  /** With confidence 0.8, only negative points make a record invalid. */
  lemma RecordValidity(rec: PlayerProjection)
    requires rec.confidence == Some(DffConfidence)
    ensures ValidProjection(rec) <==> !NegativePoints(rec.projectedPoints)
  {
  }

  // ---------------------------------------------------------------------
  // _parse_csv_content

  /** The records of the rows that yield one, in row order. */
  function ParsedRows(rows: seq<Row>, ctx: RowContext): seq<PlayerProjection> {
    Present(rows, (row: Row) => ParseCsvRow(row, ctx))
  }

  /** The row loop of `_parse_csv_content`.  The column check only chooses
      a warning, so the rows are parsed whatever it says. */
  method ParseCsvContent(fieldnames: Option<seq<string>>, rows: seq<Row>, sport: SportType, ctx: RowContext)
    returns (projections: seq<PlayerProjection>)
    ensures projections == ParsedRows(rows, ctx)
  {
    var columnsOk := ValidateCsvColumns(fieldnames, sport);
    projections := [];
    for i := 0 to |rows|
      invariant projections == ParsedRows(rows[..i], ctx)
    {
      PresentStep(rows, i, (row: Row) => ParseCsvRow(row, ctx));
      var projection := ParseCsvRow(rows[i], ctx);
      if projection.Some? {
        projections := projections + [projection.value];
      }
    }
    assert rows[..|rows|] == rows;
  }

  /** Every record comes from a row and every row that yields a record
      contributes it, so there are never more records than rows. */
  lemma ParsedRowsSpec(rows: seq<Row>, ctx: RowContext)
    ensures |ParsedRows(rows, ctx)| <= |rows|
    ensures forall i :: 0 <= i < |ParsedRows(rows, ctx)| ==>
      exists j :: 0 <= j < |rows| && ParseCsvRow(rows[j], ctx) == Some(ParsedRows(rows, ctx)[i])
    ensures forall j :: 0 <= j < |rows| && ParseCsvRow(rows[j], ctx).Some? ==>
      ParseCsvRow(rows[j], ctx).value in ParsedRows(rows, ctx)
  {
    PresentSpec(rows, (row: Row) => ParseCsvRow(row, ctx));
  }

  /** A record a row yields is valid and is marked as a Daily Fantasy Fuel
      record with confidence 0.8. */
  lemma ParsedRowValid(row: Row, ctx: RowContext)
    requires ParseCsvRow(row, ctx).Some?
    ensures ValidProjection(ParseCsvRow(row, ctx).value)
    ensures ParseCsvRow(row, ctx).value.source == Some(SourceName)
    ensures ParseCsvRow(row, ctx).value.confidence == Some(DffConfidence)
  {
    ParseFieldsSpec(ReadFields(row), ctx);
    RecordOfSpec(ReadFields(row), ctx);
  }

  /** Every record of `_parse_csv_content` is valid and is marked as a
      Daily Fantasy Fuel record with confidence 0.8. */
  lemma ParsedRowsValid(rows: seq<Row>, ctx: RowContext)
    ensures forall i :: 0 <= i < |ParsedRows(rows, ctx)| ==>
      && ValidProjection(ParsedRows(rows, ctx)[i])
      && ParsedRows(rows, ctx)[i].source == Some(SourceName)
      && ParsedRows(rows, ctx)[i].confidence == Some(DffConfidence)
  {
    var r := ParsedRows(rows, ctx);
    ParsedRowsSpec(rows, ctx);
    forall i | 0 <= i < |r|
      ensures ValidProjection(r[i]) && r[i].source == Some(SourceName) && r[i].confidence == Some(DffConfidence)
    {
      var j :| 0 <= j < |rows| && ParseCsvRow(rows[j], ctx) == Some(r[i]);
      ParsedRowValid(rows[j], ctx);
    }
  }
}
