/**
 * The contest logic of the Yahoo DFS collector: the checks of a
 * `YahooContest`, the entry-limit defaults and labels, the contest-type
 * priority, the filters of `collect_contests` and the statistics
 * histogram.  The regular-expression searches over page text are given as
 * their results.
 */
module YahooDfs {
  import opened Wrappers
  import opened Seqs
  import opened Text
  import opened Base

  /** `YahooContest`.  The contest date and the timestamp are kept as text. */
  datatype YahooContest = YahooContest(
    contestId: string,
    contestName: string,
    sport: SportType,
    contestDate: string,
    entryFee: real,
    totalPrizePool: real,
    maxEntries: int,
    maxEntriesPerUser: int,
    contestType: string,
    entryLimitType: string,
    guaranteed: bool,
    qualifier: bool,
    satellite: bool,
    gpp: bool,
    source: string,
    lastUpdated: Option<string>)

  const NegativeFeeError := "Entry fee cannot be negative"
  const NegativePoolError := "Total prize pool cannot be negative"
  const MaxEntriesError := "Max entries must be positive"
  const MaxEntriesPerUserError := "Max entries per user must be positive"

  predicate ValidContest(c: YahooContest) {
    c.entryFee >= 0.0 && c.totalPrizePool >= 0.0 && c.maxEntries > 0 && c.maxEntriesPerUser > 0
  }

  /** `__post_init__`: the contest itself, or the first check that fails. */
  function ValidateContest(c: YahooContest): (r: Result<YahooContest, string>)
    ensures r.Ok? <==> ValidContest(c)
    ensures r.Ok? ==> r.value == c
    ensures c.entryFee < 0.0 ==> r == Err(NegativeFeeError)
    ensures c.entryFee >= 0.0 && c.totalPrizePool < 0.0 ==> r == Err(NegativePoolError)
    ensures c.entryFee >= 0.0 && c.totalPrizePool >= 0.0 && c.maxEntries <= 0 ==> r == Err(MaxEntriesError)
    ensures c.entryFee >= 0.0 && c.totalPrizePool >= 0.0 && c.maxEntries > 0 && c.maxEntriesPerUser <= 0
      ==> r == Err(MaxEntriesPerUserError)
  {
    if c.entryFee < 0.0 then Err(NegativeFeeError)
    else if c.totalPrizePool < 0.0 then Err(NegativePoolError)
    else if c.maxEntries <= 0 then Err(MaxEntriesError)
    else if c.maxEntriesPerUser <= 0 then Err(MaxEntriesPerUserError)
    else Ok(c)
  }

  // ---------------------------------------------------------------------
  // _extract_entry_limits

  const DefaultMaxEntries := 1000
  const DefaultMaxEntriesPerUser := 1

  /** A pattern that matched and captured a positive number.  Each limit
      pattern captures `\d+`, so a match is a natural number. */
  predicate IsPositiveLimit(m: Option<nat>) {
    m.Some? && m.value > 0
  }

  /** The limits for the numbers `found` captured by the limit patterns, in
      pattern order (`None` where a pattern did not match): the first
      positive one for both limits, or the defaults (1000, 1). */
  function EntryLimits(found: seq<Option<nat>>): (r: (int, int))
    ensures r.0 >= 1 && r.1 >= 1
    ensures (forall j :: 0 <= j < |found| ==> !IsPositiveLimit(found[j])) <==>
      r == (DefaultMaxEntries, DefaultMaxEntriesPerUser)
    ensures (exists j :: 0 <= j < |found| && IsPositiveLimit(found[j])) ==>
      && r.0 == r.1
      && exists i :: 0 <= i < |found| && found[i] == Some(r.0) && (forall j :: 0 <= j < i ==> !IsPositiveLimit(found[j]))
  {
    var i := FindFirst(found, IsPositiveLimit);
    if i < 0 then (DefaultMaxEntries, DefaultMaxEntriesPerUser) else (found[i].value, found[i].value)
  }

  /** `_extract_entry_limits`: the loop over the patterns that stops at the
      first positive limit. */
  method ExtractEntryLimits(found: seq<Option<nat>>) returns (maxEntries: int, maxEntriesPerUser: int)
    ensures (maxEntries, maxEntriesPerUser) == EntryLimits(found)
  {
    maxEntries := DefaultMaxEntries;
    maxEntriesPerUser := DefaultMaxEntriesPerUser;
    var i := 0;
    while i < |found|
      invariant 0 <= i <= |found|
      invariant forall j :: 0 <= j < i ==> !IsPositiveLimit(found[j])
    {
      var match_ := found[i];
      if match_.Some? {
        var limit := match_.value;
        if limit > 0 {
          maxEntries := limit;
          maxEntriesPerUser := limit;
          return;
        }
      }
      i := i + 1;
    }
  }

  /** `_determine_entry_limit_type`. */
  function EntryLimitType(maxEntriesPerUser: int): (r: string)
    ensures r == "Single Entry" <==> maxEntriesPerUser == 1
    ensures r == "Multi Entry" <==> maxEntriesPerUser > 1
    ensures r == "Unknown" <==> maxEntriesPerUser < 1
  {
    if maxEntriesPerUser == 1 then "Single Entry"
    else if maxEntriesPerUser > 1 then "Multi Entry"
    else "Unknown"
  }

  /** Extracted limits are never "Unknown", and they are "Multi Entry"
      exactly when a limit above 1 was found first. */
  lemma ExtractedLimitType(found: seq<Option<nat>>)
    ensures EntryLimitType(EntryLimits(found).1) != "Unknown"
    ensures EntryLimitType(EntryLimits(found).1) == "Multi Entry" <==>
      var i := FindFirst(found, IsPositiveLimit); i >= 0 && found[i].value > 1
  {
  }

  /** A contest whose limits come from `_extract_entry_limits` and whose
      fee and prize pool, captured as digits, are not negative passes the
      checks of `__post_init__`. */
  lemma ExtractedContestValid(c: YahooContest, found: seq<Option<nat>>)
    requires c.entryFee >= 0.0 && c.totalPrizePool >= 0.0
    requires (c.maxEntries, c.maxEntriesPerUser) == EntryLimits(found)
    ensures ValidateContest(c) == Ok(c)
  {
  }

  // ---------------------------------------------------------------------
  // _determine_contest_type

  /** The alternatives of the "guaranteed", "qualifier" and "satellite"
      patterns; each is a plain word, so a search for the pattern is a
      search for any of its words. */
  const GuaranteedWords: seq<string> := ["guaranteed", "gtd", "gpp"]
  const QualifierWords: seq<string> := ["qualifier", "qual", "satellite"]
  const SatelliteWords: seq<string> := ["satellite", "sat"]

  predicate MentionsAny(text: string, words: seq<string>) {
    exists w :: w in words && Contains(text, w)
  }

  /** `_determine_contest_type`: the first of Guaranteed, Qualifier,
      Satellite whose pattern occurs in the lower-cased text, else
      Standard. */
  function ContestType(text: string): (r: string)
    ensures r in ["Guaranteed", "Qualifier", "Satellite", "Standard"]
    ensures r == "Guaranteed" <==> MentionsAny(Lower(text), GuaranteedWords)
    ensures r == "Qualifier" <==>
      !MentionsAny(Lower(text), GuaranteedWords) && MentionsAny(Lower(text), QualifierWords)
    ensures r == "Satellite" <==>
      !MentionsAny(Lower(text), GuaranteedWords) && !MentionsAny(Lower(text), QualifierWords) &&
      MentionsAny(Lower(text), SatelliteWords)
  {
    var lower := Lower(text);
    if MentionsAny(lower, GuaranteedWords) then "Guaranteed"
    else if MentionsAny(lower, QualifierWords) then "Qualifier"
    else if MentionsAny(lower, SatelliteWords) then "Satellite"
    else "Standard"
  }

  /** "satellite" is also a qualifier word, so a text that spells it out is
      never labelled Satellite: that label needs "sat" without
      "satellite". */
  lemma SatelliteSpelledOutIsQualifier(text: string)
    requires Contains(Lower(text), "satellite")
    ensures ContestType(text) in ["Guaranteed", "Qualifier"]
  {
    assert "satellite" in QualifierWords;
  }

  // ---------------------------------------------------------------------
  // collect_contests: the two filters

  /** `any(ct.lower() in contest.contest_type.lower() for ct in contest_types)`. */
  function MatchesType(contestTypes: seq<string>): YahooContest -> bool {
    (c: YahooContest) => exists ct :: ct in contestTypes && Contains(Lower(c.contestType), Lower(ct))
  }

  function IsMultiEntry(c: YahooContest): bool {
    c.maxEntriesPerUser > 1
  }

  /** The type filter, applied only when `contest_types` is non-empty. */
  function TypeFilter(contests: seq<YahooContest>, contestTypes: seq<string>): seq<YahooContest> {
    if contestTypes != [] then Filter(contests, MatchesType(contestTypes)) else contests
  }

  /** The contests `collect_contests` returns for the `contests` found on
      the page: the type filter, then the multi-entry filter. */
  function CollectContests(contests: seq<YahooContest>, contestTypes: seq<string>): seq<YahooContest> {
    Filter(TypeFilter(contests, contestTypes), IsMultiEntry)
  }

  /** What a returned contest must satisfy. */
  function Wanted(contestTypes: seq<string>): YahooContest -> bool {
    (c: YahooContest) => IsMultiEntry(c) && (contestTypes == [] || MatchesType(contestTypes)(c))
  }

  lemma CollectContestsIsFilter(contests: seq<YahooContest>, contestTypes: seq<string>)
    ensures CollectContests(contests, contestTypes) == Filter(contests, Wanted(contestTypes))
  {
    if contestTypes != [] {
      FilterFilter(contests, MatchesType(contestTypes), IsMultiEntry, Wanted(contestTypes));
    } else {
      FilterEquivalent(contests, IsMultiEntry, Wanted(contestTypes));
    }
  }

  /** `collect_contests` keeps, in page order, exactly the multi-entry
      contests whose type contains one of `contest_types` (any contest
      when none are given). */
  lemma CollectContestsSpec(contests: seq<YahooContest>, contestTypes: seq<string>)
    ensures CollectContests(contests, contestTypes) == Filter(contests, Wanted(contestTypes))
    ensures forall c :: c in CollectContests(contests, contestTypes) <==>
      c in contests && c.maxEntriesPerUser > 1 &&
      (contestTypes == [] || exists ct :: ct in contestTypes && Contains(Lower(c.contestType), Lower(ct)))
  {
    CollectContestsIsFilter(contests, contestTypes);
    FilterMembership(contests, Wanted(contestTypes));
  }

  /** A contest whose limits come from `_extract_entry_limits` survives the
      multi-entry filter exactly when the first positive limit found is
      above 1; the defaults (1000, 1) never do. */
  lemma MultiEntryNeedsFoundLimit(c: YahooContest, found: seq<Option<nat>>)
    requires (c.maxEntries, c.maxEntriesPerUser) == EntryLimits(found)
    ensures IsMultiEntry(c) <==>
      var i := FindFirst(found, IsPositiveLimit); i >= 0 && found[i].value > 1
  {
  }

  // ---------------------------------------------------------------------
  // get_contest_statistics

  /** The statistics dictionary; each counter is a (label, count) table in
      order of first appearance. */
  datatype ContestStatistics = ContestStatistics(
    totalContests: nat,
    totalPrizePool: real,
    averageEntryFee: real,
    contestTypes: seq<(string, nat)>,
    entryLimitTypes: seq<(string, nat)>,
    sports: seq<(string, nat)>)

  function ContestTypeOf(c: YahooContest): string { c.contestType }
  function EntryLimitTypeOf(c: YahooContest): string { c.entryLimitType }
  function SportOf(c: YahooContest): string { c.sport.Value() }

  function PrizePools(contests: seq<YahooContest>): (r: seq<real>)
    ensures |r| == |contests|
    ensures forall i :: 0 <= i < |r| ==> r[i] == contests[i].totalPrizePool
  {
    seq(|contests|, i requires 0 <= i < |contests| => contests[i].totalPrizePool)
  }

  function EntryFees(contests: seq<YahooContest>): (r: seq<real>)
    ensures |r| == |contests|
    ensures forall i :: 0 <= i < |r| ==> r[i] == contests[i].entryFee
  {
    seq(|contests|, i requires 0 <= i < |contests| => contests[i].entryFee)
  }

  /** What `get_contest_statistics` returns; `None` is the empty dict. */
  function Statistics(contests: seq<YahooContest>): (r: Option<ContestStatistics>)
    ensures r.None? <==> contests == []
  {
    if contests == [] then None
    else Some(ContestStatistics(
      |contests|,
      Sum(PrizePools(contests)),
      Sum(EntryFees(contests)) / |contests| as real,
      Histogram(contests, ContestTypeOf),
      Histogram(contests, EntryLimitTypeOf),
      Histogram(contests, SportOf)))
  }

  /** `get_contest_statistics`, with its three counting loops. */
  method GetContestStatistics(contests: seq<YahooContest>) returns (stats: Option<ContestStatistics>)
    ensures stats == Statistics(contests)
  {
    if |contests| == 0 {
      return None;
    }
    var contestTypes: seq<(string, nat)> := [];
    for i := 0 to |contests|
      invariant contestTypes == Histogram(contests[..i], ContestTypeOf)
    {
      assert contests[..i + 1][..i] == contests[..i];
      contestTypes := Bump(contestTypes, contests[i].contestType);
    }
    var entryLimitTypes: seq<(string, nat)> := [];
    for i := 0 to |contests|
      invariant entryLimitTypes == Histogram(contests[..i], EntryLimitTypeOf)
    {
      assert contests[..i + 1][..i] == contests[..i];
      entryLimitTypes := Bump(entryLimitTypes, contests[i].entryLimitType);
    }
    var sports: seq<(string, nat)> := [];
    for i := 0 to |contests|
      invariant sports == Histogram(contests[..i], SportOf)
    {
      assert contests[..i + 1][..i] == contests[..i];
      sports := Bump(sports, contests[i].sport.Value());
    }
    assert contests[..|contests|] == contests;
    stats := Some(ContestStatistics(
      |contests|,
      Sum(PrizePools(contests)),
      Sum(EntryFees(contests)) / |contests| as real,
      contestTypes, entryLimitTypes, sports));
  }

  /** A counter over `key` has one entry per distinct label, in order of
      first appearance, counts exactly the contests with that label, and
      its counts add up to the number of contests. */
  predicate CounterOf(contests: seq<YahooContest>, key: YahooContest -> string, h: seq<(string, nat)>) {
    && CountTotal(h) == |contests|
    && Keys(h, KeyOfGroup) == Dedup(Keys(contests, key))
    && forall j :: 0 <= j < |h| ==> h[j].1 == |Select(contests, key, h[j].0)| > 0
  }

  lemma HistogramIsCounter(contests: seq<YahooContest>, key: YahooContest -> string)
    ensures CounterOf(contests, key, Histogram(contests, key))
  {
    HistogramTotal(contests, key);
    HistogramCounts(contests, key);
  }

  /** The statistics of a non-empty list: its length, and three counters
      (contest type, entry-limit type, sport) whose counts each add up to
      that length. */
  lemma StatisticsCounts(contests: seq<YahooContest>)
    requires contests != []
    ensures var s := Statistics(contests).value;
      && s.totalContests == |contests|
      && CounterOf(contests, ContestTypeOf, s.contestTypes)
      && CounterOf(contests, EntryLimitTypeOf, s.entryLimitTypes)
      && CounterOf(contests, SportOf, s.sports)
  {
    HistogramIsCounter(contests, ContestTypeOf);
    HistogramIsCounter(contests, EntryLimitTypeOf);
    HistogramIsCounter(contests, SportOf);
  }

  /** The average entry fee times the number of contests is the total of
      the entry fees. */
  lemma AverageEntryFee(contests: seq<YahooContest>)
    requires contests != []
    ensures Statistics(contests).value.averageEntryFee * |contests| as real == Sum(EntryFees(contests))
  {
    DivTimes(Sum(EntryFees(contests)), |contests| as real);
  }
}
