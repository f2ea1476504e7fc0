# A verified model of the fantasy DFS data core

This project models, in Dafny, the in-memory logic of a daily-fantasy-sports
(DFS) data pipeline. The pipeline collects contests and player projections
from several sources, reconciles player names across them, computes a weighted
consensus projection per player, and prepares the inputs of a lineup
optimizer. The modelled parts are:

- **Player-name matching** (`player_matching.dfy`, module `PlayerMatching`).
  This is `PlayerNameMatcher` and covers:
  - the name canonicaliser;
  - the four-step ordered fuzzy match;
  - the best-of-list selector;
  - the per-contest roster cache, a class whose map field is replaced,
    looked up and cleared.
- **Projection consensus** (`consensus.dfy`, module `Consensus`).
  - `ProjectionConsensus` is a class holding the source-weight table. The
    table is re-normalised to sum 1 on construction and on every update.
    The class also provides the weighted-average consensus, the most
    trusted contributing source, and the stable ranking of sources.
  - `ProjectionAggregator` builds the per-player records and decorates a
    name with its roster ID.
- **Projection records** (`base.dfy`, module `Base`): the checks of
  `PlayerProjection`, and the grouping and averaging body of
  `get_consensus_projections`.
- **Yahoo contests** (`yahoo_dfs.dfy`, module `YahooDfs`):
  - contest validation;
  - the entry-limit defaults and labels;
  - the contest-type priority;
  - the type and multi-entry filters;
  - the statistics counters.
- **Daily Fantasy Fuel CSV** (`daily_fantasy_fuel.dfy`, module
  `DailyFantasyFuel`): the column check, the field derivation of one CSV row,
  and the row loop.
- **Optimizer input** (`lineup_optimizer.dfy`, module `LineupOptimizer`):
  the three loops of `create_yahoo_players_csv`. They group projections per
  player, average them, and write one row per player.
- **Pipeline** (`pipeline.dfy`, module `Pipeline`): the entry-fee filter of
  `collect_contests` and the greedy placeholder lineup builder.

There are three support modules:

- `wrappers.dfy` holds `Option` and `Result`.
- `text.dfy` holds the Python string built-ins used, over ASCII:
  `strip`, `lower`, `split`, `" ".join`, `title`, `replace` and `int()`.
- `seqs.dfy` holds the generic sequence facts.
  - Filters, grouping into an insertion-ordered dict of lists, counters,
    "first maximum" scans and a stable descending sort.
  - The lemmas that tie each of them to an independent definition.

A Python dict whose order matters is a sequence of (key, value) pairs in
insertion order. The roster cache, whose order never matters, is a `map`.
Loops of the source are methods with loop invariants. Each one is proved
equal to a specification function, and the properties are proved about that
function.

Some behaviours of the code are easy to miss. The model keeps them as the
code has them.

- Ties in `rank_sources_by_quality` keep their input order, because
  `sorted(..., reverse=True)` is stable. Sources are not ordered by name.
- `_format_player_name_with_id` matches names with `_names_match`, not with
  `fuzzy_match`. `_names_match` only lower-cases and strips. It does not
  collapse whitespace, has no period or suffix rule, and lets `""` match
  `""`. It is modelled as the separate predicate `Consensus.NamesMatch`, and
  `Consensus.NamesMatchAcceptsEmptyNames` proves that the two matchers
  disagree.
- The roster cache is keyed by the raw roster name, not by the normalised
  one.
- `find_best_match` returns `None` when no matching candidate has a ratio
  above 0. This is not the same as "no candidate passes the threshold".

## Model

| member | source | states |
|---|---|---|
| PlayerMatching.StandardizeNameIsStandard | src/data_collection/player_matching.py:19-25 | the canonical form of "" is ""; any canonical form has no leading or trailing whitespace, no two adjacent whitespace characters (each one a plain space) and no upper-case letter |
| PlayerMatching.StandardizeNameIdempotent | src/data_collection/player_matching.py:25 | canonicalising a canonical name changes nothing |
| PlayerMatching.StandardizeNameIsJoinedWords | src/data_collection/player_matching.py:25 | the regex-based canonical form equals the independent definition: the lower-cased words of the name joined by single spaces |
| PlayerMatching.FuzzyMatchEmpty | src/data_collection/player_matching.py:39-40 | an empty name never matches, for any threshold and any ratio |
| PlayerMatching.FuzzyMatchStandardEqual | src/data_collection/player_matching.py:42-47 | names with equal canonical forms match for every threshold; every non-empty name matches itself |
| PlayerMatching.FuzzyMatchIgnoresPeriods | src/data_collection/player_matching.py:50-54 | names whose canonical forms agree once every period is deleted match |
| PlayerMatching.FuzzyMatchIgnoresSuffix | src/data_collection/player_matching.py:56-60 | a canonical name followed by a space and jr/jr./sr/sr./ii/iii/iv matches the bare name |
| PlayerMatching.FuzzyMatchThresholdMonotone | src/data_collection/player_matching.py:45-64 | only the ratio step depends on the threshold, so lowering the threshold keeps every match |
| PlayerMatching.BestMatchIndexIsBest | src/data_collection/player_matching.py:78-93 | the selected index is -1 exactly when no matching candidate has a positive ratio; otherwise it is a matching candidate whose ratio is positive and maximal, and every earlier match scores strictly less |
| PlayerMatching.FindBestMatch | src/data_collection/player_matching.py:66-93 | the loop returns None for no candidates and exactly when no matching candidate scores above 0; otherwise it returns a candidate at an index that is the first of the best-scoring matches |
| PlayerMatching.IndexByName | src/data_collection/player_matching.py:97-99 | every key of the per-contest index is non-empty and maps to a player with that name |
| PlayerMatching.IndexByNameKeys | src/data_collection/player_matching.py:97-99 | a name is indexed exactly when it is non-empty and some player carries it |
| PlayerMatching.IndexByNameLastWins | src/data_collection/player_matching.py:97-99 | the last player with a given name is the one indexed |
| PlayerMatching.PlayerNameMatcher.constructor | src/data_collection/player_matching.py:16-17 | the cache starts empty |
| PlayerMatching.PlayerNameMatcher.CacheYahooPlayers | src/data_collection/player_matching.py:95-99 | the contest's entry is replaced in full by the name index of the players; lookups in other contests are unchanged; the cache invariant is kept |
| PlayerMatching.PlayerNameMatcher.GetYahooPlayer | src/data_collection/player_matching.py:101-103 | an unknown contest gives None; a found player carries the non-empty name it was looked up by |
| PlayerMatching.PlayerNameMatcher.ClearCache | src/data_collection/player_matching.py:105-110 | a non-empty id removes that contest only and leaves every other lookup unchanged; None or "" empties the cache |
| Consensus.NormalizeSumsToOne | src/data_collection/projection_consensus.py:53-55 | normalising keeps the sources in order; a positive total becomes exactly 1, and any other table is left as it is |
| Consensus.NormalizeIdempotent | src/data_collection/projection_consensus.py:53-55 | normalising twice is normalising once |
| Consensus.NormalizeProportions | src/data_collection/projection_consensus.py:55 | every normalised weight times the old total is the old weight, so the proportions are kept |
| Consensus.NormalizeBounds | src/data_collection/projection_consensus.py:53-55 | without negative weights, every normalised weight lies in [0, 1] |
| Consensus.InitialWeightsAreNormalized | src/data_collection/projection_consensus.py:44-55 | None or {} installs the five defaults (which already sum to 1); custom weights keep their sources in order; the table is normalised either way |
| Consensus.DefaultWeightsSumToOne | src/data_collection/projection_consensus.py:45-49 | the default weights 0.35, 0.30, 0.20, 0.10 and 0.05 sum to 1 |
| Consensus.Clamp | src/data_collection/projection_consensus.py:132 | the result lies in [0, 1], equals its input inside that range, and is 0 below it and 1 above it |
| Consensus.UpdatedWeightsKeepSources | src/data_collection/projection_consensus.py:131-136 | an update never changes the sources and keeps the table normalised; an unregistered source changes nothing |
| Consensus.UpdatedWeightsRescale | src/data_collection/projection_consensus.py:131-136 | for a registered source, with a positive new total, the table sums to 1 and each weight is its clamped value divided by the new total |
| Consensus.UpdatedWeightsBounds | src/data_collection/projection_consensus.py:131-136 | a normalised table without negative weights keeps every weight in [0, 1] |
| Consensus.BestProjectionOfTally | src/data_collection/projection_consensus.py:71-90 | the loop's totals decide the result: a zero total weight gives (None, 0.0); otherwise the first heaviest tallied source and the weighted sum over the total weight |
| Consensus.BestProjectionNone | src/data_collection/projection_consensus.py:67-83 | there is no best source exactly when the contributing weights sum to 0, and the consensus is then 0; this includes an empty map and a map with no registered non-None entry |
| Consensus.BestSourceIsHeaviest | src/data_collection/projection_consensus.py:88 | the best source is a registered source with a value; no contributor weighs more, and every contributor before it weighs less |
| Consensus.ConsensusBetween | src/data_collection/projection_consensus.py:75-85 | with non-negative weights, the consensus lies between any lower and upper bound of the contributing values |
| Consensus.AvailablePairsAreContributors | src/data_collection/projection_consensus.py:115-119 | the ranked pairs are exactly the registered, non-None sources, each with its weight |
| Consensus.ProjectionConsensus.constructor | src/data_collection/projection_consensus.py:36-55 | the table is the normalised custom or default table, and the class invariant (distinct sources, normalised) holds |
| Consensus.ProjectionConsensus.TallyContributions | src/data_collection/projection_consensus.py:71-80 | the loop yields the contributing sources in order, the sum of value times weight, and the sum of their weights |
| Consensus.ProjectionConsensus.GetBestProjection | src/data_collection/projection_consensus.py:57-90 | the method returns the best source and the consensus of the specification function |
| Consensus.ProjectionConsensus.GetConsensusProjection | src/data_collection/projection_consensus.py:92-103 | the result is the consensus component of get_best_projection |
| Consensus.ProjectionConsensus.RankSourcesByQuality | src/data_collection/projection_consensus.py:105-121 | the result is non-increasing in weight and a permutation of the contributing (source, weight) pairs; pairs of equal weight keep their input order |
| Consensus.ProjectionConsensus.UpdateSourceWeight | src/data_collection/projection_consensus.py:123-136 | the new table is the clamped and re-normalised update, the sources are unchanged, and the invariant is kept |
| Consensus.ProjectionConsensus.GetSourceWeights | src/data_collection/projection_consensus.py:138-140 | the copy has the table's sources and is a normalised dict |
| Consensus.ProjectionConsensus.ResetToDefaultWeights | src/data_collection/projection_consensus.py:142-144 | the table becomes the five defaults and the invariant holds |
| Consensus.NamesMatchIgnoresCaseAndEdges | src/data_collection/projection_consensus.py:238-244 | names equal after lower-casing and stripping match at every threshold |
| Consensus.NamesMatchAcceptsEmptyNames | src/data_collection/projection_consensus.py:224-248 | the aggregator's matcher accepts "" against "", and fuzzy_match rejects it |
| Consensus.IdLabel | src/data_collection/projection_consensus.py:212-219 | the label always ends with " - " followed by the title-cased name |
| Consensus.FormattedNameWithoutRoster | src/data_collection/projection_consensus.py:205-206 | without a roster, the name is returned unchanged |
| Consensus.FormattedNameWithoutMatch | src/data_collection/projection_consensus.py:209-222 | when no roster entry matches, the name is returned unchanged |
| Consensus.FormattedNameFirstMatch | src/data_collection/projection_consensus.py:209-219 | when entry k is the first match, the name becomes the ID label of entry k |
| Consensus.CountValuesCoversContributors | src/data_collection/projection_consensus.py:186 | projection_count is at least the number of contributors; it is larger exactly when an unregistered source has a value |
| Consensus.ProjectionAggregator.constructor | src/data_collection/projection_consensus.py:150-157 | the aggregator holds the given consensus engine |
| Consensus.ProjectionAggregator.AggregatePlayerProjections | src/data_collection/projection_consensus.py:159-189 | one record per input player, in input order and under the same name, holding the consensus and best source of get_best_projection, the ranking, the formatted name and the count of values |
| Consensus.ProjectionAggregator.AggregatePlayer | src/data_collection/projection_consensus.py:174-187 | the record of one player is the one the specification function builds |
| Consensus.ProjectionAggregator.FormatPlayerNameWithId | src/data_collection/projection_consensus.py:191-222 | the roster loop returns the specification function's formatted name |
| Base.Validate | src/data_collection/base.py:58-63 | a record passes exactly when its points, if given, are not negative and its confidence, if given, lies in [0, 1]; negative points are reported before a bad confidence |
| Base.ConsensusRecordFields | src/data_collection/base.py:315-339 | a consensus record has: the identity and game fields of the group's first projection; source "consensus"; points equal to the mean (None counted as 0); a salary and value exactly when the mean salary is positive, the salary being the mean rounded down and the value times the total salary being the total points; a confidence in (0, 1] that is 1 exactly when every collector contributed |
| Base.ConfidenceBounds | src/data_collection/base.py:339 | the confidence lies in (0, 1] and is 1 exactly when the group has at least as many members as there are collectors |
| Base.ConsensusRecordValid | src/data_collection/base.py:321-340 | the record built from valid projections passes the record checks, so building it never raises |
| Base.ConsensusProjectionsAreGroups | src/data_collection/base.py:301-343 | each output record is the consensus of all the projections sharing its (player_id, player_name) key, and that key has at least min_sources projections |
| Base.ConsensusProjectionsKeysDistinct | src/data_collection/base.py:302-312 | no two output records share a key |
| Base.ConsensusProjectionsCover | src/data_collection/base.py:313 | every key with at least min_sources projections has an output record |
| Base.GroupByPlayer | src/data_collection/base.py:302-308 | the nested loop groups every projection of every collector, in order, under its key |
| Base.GetConsensusProjections | src/data_collection/base.py:301-343 | the method returns the records of the specification function |
| YahooDfs.ValidateContest | src/data_collection/collectors/yahoo_dfs.py:47-56 | a contest passes exactly when its fee and prize pool are not negative and both entry limits are positive; the first failing check names the error |
| YahooDfs.EntryLimits | src/data_collection/collectors/yahoo_dfs.py:370-395 | both limits are at least 1; they are the defaults (1000, 1) exactly when no pattern found a positive number, and otherwise both equal the first positive number found |
| YahooDfs.ExtractEntryLimits | src/data_collection/collectors/yahoo_dfs.py:370-395 | the loop that stops at the first positive number returns those limits |
| YahooDfs.EntryLimitType | src/data_collection/collectors/yahoo_dfs.py:410-417 | 1 is "Single Entry", a value above 1 is "Multi Entry", anything else is "Unknown", each as an if-and-only-if |
| YahooDfs.ExtractedLimitType | src/data_collection/collectors/yahoo_dfs.py:380-417 | extracted limits are never "Unknown", and are "Multi Entry" exactly when the first positive number found is above 1 |
| YahooDfs.ExtractedContestValid | src/data_collection/collectors/yahoo_dfs.py:47-56 | a contest with extracted limits and non-negative amounts passes validation |
| YahooDfs.ContestType | src/data_collection/collectors/yahoo_dfs.py:397-408 | one of four labels, by priority Guaranteed, Qualifier, Satellite, Standard, each as an if-and-only-if on the pattern words found in the lower-cased text |
| YahooDfs.SatelliteSpelledOutIsQualifier | src/data_collection/collectors/yahoo_dfs.py:85-88 | a text containing "satellite" is never labelled Satellite, because that word is also a qualifier word |
| YahooDfs.CollectContestsSpec | src/data_collection/collectors/yahoo_dfs.py:143-156 | the kept contests, in page order, are exactly the multi-entry contests whose type contains one of the requested types case-insensitively (any type when none are requested) |
| YahooDfs.MultiEntryNeedsFoundLimit | src/data_collection/collectors/yahoo_dfs.py:153-156 | a contest with extracted limits passes the multi-entry filter exactly when the first positive number found is above 1 |
| YahooDfs.Statistics | src/data_collection/collectors/yahoo_dfs.py:460-463 | there are no statistics exactly for an empty list |
| YahooDfs.GetContestStatistics | src/data_collection/collectors/yahoo_dfs.py:460-496 | the three counting loops build the statistics of the specification function |
| YahooDfs.StatisticsCounts | src/data_collection/collectors/yahoo_dfs.py:465-494 | total_contests is the list length; each of the three counters has one entry per distinct label in first-appearance order, counts exactly the contests with that label, and its counts sum to the length |
| YahooDfs.AverageEntryFee | src/data_collection/collectors/yahoo_dfs.py:468 | the average fee times the number of contests is the total fee |
| DailyFantasyFuel.ValidateCsvColumns | src/data_collection/collectors/daily_fantasy_fuel.py:270-283 | missing or empty field names fail; a sport without an expected-column list passes; otherwise the check passes exactly when Player, Team and Position are present |
| DailyFantasyFuel.ParseSalaryOfDollars | src/data_collection/collectors/daily_fantasy_fuel.py:300-305 | a salary written as "$" and digits is read as its number |
| DailyFantasyFuel.ValueOf | src/data_collection/collectors/daily_fantasy_fuel.py:318-321 | a value exists exactly when the points are non-zero and the salary is positive |
| DailyFantasyFuel.ValueTimesSalary | src/data_collection/collectors/daily_fantasy_fuel.py:321 | the value times the salary gives back the points |
| DailyFantasyFuel.PlayerIdSlug | src/data_collection/collectors/daily_fantasy_fuel.py:345 | the id is "dff_" followed by a slug with no period, no space and no upper-case letter |
| DailyFantasyFuel.ParseFieldsSpec | src/data_collection/collectors/daily_fantasy_fuel.py:285-364 | a row yields a record exactly when it names a player and its points are not negative; the record yielded is the valid record built from its fields |
| DailyFantasyFuel.RecordOfSpec | src/data_collection/collectors/daily_fantasy_fuel.py:344-358 | the record carries the stripped name and its slug id, the salary and points as parsed, the source name, confidence 0.8, and a value exactly when the points are non-zero and the salary is positive |
| DailyFantasyFuel.RecordValidity | src/data_collection/collectors/daily_fantasy_fuel.py:344-358 | with confidence 0.8, only negative points make the record invalid |
| DailyFantasyFuel.ParseCsvContent | src/data_collection/collectors/daily_fantasy_fuel.py:237-265 | the row loop returns the records of the rows that yield one, in order |
| DailyFantasyFuel.ParsedRowsSpec | src/data_collection/collectors/daily_fantasy_fuel.py:256-263 | there are never more records than rows; every record comes from a row, and every row that yields a record contributes it |
| DailyFantasyFuel.ParsedRowValid | src/data_collection/collectors/daily_fantasy_fuel.py:344-364 | a record a row yields is valid, with source "Daily Fantasy Fuel" and confidence 0.8 |
| DailyFantasyFuel.ParsedRowsValid | src/data_collection/collectors/daily_fantasy_fuel.py:256-263 | every record of the row loop is valid, with source "Daily Fantasy Fuel" and confidence 0.8 |
| LineupOptimizer.NewEntry | src/data_collection/lineup_optimizer.py:52-61 | a first row creates an entry exactly when its salary and, if given, its fppg parse |
| LineupOptimizer.BuildTableIsGroup | src/data_collection/lineup_optimizer.py:44-63 | the grouping raises exactly when a projection, or the salary or fppg of a player's first row, does not parse; otherwise it has one entry per distinct name in first-appearance order, holding all that player's projections in order and the other fields of its first row |
| LineupOptimizer.MeanBounds | src/data_collection/lineup_optimizer.py:66-70 | a player's consensus lies between any lower and upper bound of its projections |
| LineupOptimizer.WithConsensus | src/data_collection/lineup_optimizer.py:66-70 | each entry gains the mean of its projections, and nothing else changes |
| LineupOptimizer.SplitNameSpec | src/data_collection/lineup_optimizer.py:84-90 | a name of two or more words splits into its first word and a last name whose words are exactly the rest; any other name is kept whole as the first name, with an empty last name |
| LineupOptimizer.Game | src/data_collection/lineup_optimizer.py:93 | the game is non-empty exactly when team and opponent both are, and is then team, "@", opponent |
| LineupOptimizer.YahooPlayersSpec | src/data_collection/lineup_optimizer.py:44-112 | the function raises exactly when a conversion fails; otherwise row j belongs to the j-th distinct player name, with its split name, the position, team, game and salary of its first row, the mean of all its projections as consensus, and FPPG equal to that consensus or to the first row's fppg |
| LineupOptimizer.AddProjectionRow | src/data_collection/lineup_optimizer.py:47-63 | one turn of the grouping loop is the specification step |
| LineupOptimizer.GroupProjections | src/data_collection/lineup_optimizer.py:44-63 | the grouping loop builds the specification table, or raises where it does |
| LineupOptimizer.AddConsensus | src/data_collection/lineup_optimizer.py:65-70 | the consensus loop adds the mean to every entry |
| LineupOptimizer.WritePlayerRows | src/data_collection/lineup_optimizer.py:82-112 | the writing loop produces one row per entry, in table order |
| LineupOptimizer.CreateYahooPlayers | src/data_collection/lineup_optimizer.py:32-112 | the three loops together produce the rows of the specification function |
| Pipeline.CollectContestsSpec | src/data_collection/pipeline.py:84-108 | with the call corrected, the kept contests are, in page order, exactly the multi-entry contests whose entry fee is at most max_entry_fee |
| Pipeline.AsWrittenFindsNothing | src/data_collection/pipeline.py:84-108 | as written, the collector call raises, the exception is caught, and the result is always empty |
| Pipeline.AsWrittenDropsQualifyingContest | src/data_collection/pipeline.py:86 | a one-dollar contest with 150 entries per user is lost as written and kept when the call is corrected |
| Pipeline.FillSlotsStep | src/data_collection/pipeline.py:366-385 | each slot takes the first projection, in input order, of the slot's position whose name is unused; a slot with none is skipped |
| Pipeline.FillSlotsSpec | src/data_collection/pipeline.py:363-385 | a lineup has at most one player per slot; each player fills a slot of its own position with a projection as given; no name appears twice |
| Pipeline.LineupIdsDistinct | src/data_collection/pipeline.py:353 | different lineups of a contest get different ids |
| Pipeline.PlaceholderLineupsSpec | src/data_collection/pipeline.py:351-389 | exactly num_lineups lineups; lineup i has id "{contest_id}_{i+1}", the contest's id, its name (or "Unknown") and its fee (or 0.0), at most 9 greedily chosen players, and totals equal to the sums of their salaries and projections |
| Pipeline.FillSlot | src/data_collection/pipeline.py:366-385 | one turn of the slot loop extends the players, used names and totals to those of one more slot |
| Pipeline.FillLineup | src/data_collection/pipeline.py:362-385 | the slot loop yields the greedy players and the sums of their salaries and projections |
| Pipeline.GeneratePlaceholderLineups | src/data_collection/pipeline.py:337-389 | the lineup loop returns the lineups of the specification function |

## Left out

- `difflib.SequenceMatcher(...).ratio()` is a parameter of type `RatioFn`, known only to lie in [0, 1]. So no concrete similarity outcome is stated.
- Python strings are modelled over ASCII only. Whitespace is what `str.isspace` accepts among ASCII characters, and `lower`, `title` and `split` work on ASCII letters.
- The regular-expression searches of the Yahoo collector are not run. The entry-limit patterns are given as the numbers they captured, in pattern order. The contest-type patterns, which are plain alternatives of words, are substring searches for those words.
- Page parsing and its helpers are not part of this model. This covers `_extract_contests_from_page`, the container search, the id, name, fee and prize extraction, and `_find_csv_download_links`. All HTTP, HTML and async plumbing is also left out, including `collect_projections`, `collect_from_all_sources` and the retry loop. These all do I/O.
- `get_consensus_projections` receives the collected projections as its input: one entry per collector, an empty list for a collector that failed.
- `datetime.now()` is the parameter `now`, and dates are kept as text. The three date formats of the CSV row parser are one given function.
- `float()` is a given function `parseFloat` that returns `None` where Python raises. NaN and infinities are not modelled.
- Floating point is exact `real` arithmetic throughout. In particular the weight totals and the default weights summing to exactly 1 are exact, not approximate.
- Base.ConsensusRecordFields: states the points and the value as exact reals. The `round(..., 2)` of the points and the `round(..., 4)` of the value are not modelled, so the stated equalities hold before rounding only.
- DailyFantasyFuel.ValueOf: states the value before `round(..., 4)`, which is not modelled.
- LineupOptimizer.YahooPlayersSpec: states FPPG and consensus before `round(..., 1)`, which is not modelled. The md5 `ID` column is not produced.
- LineupOptimizer.YahooPlayersSpec: every row is taken to hold all nine columns as text. A missing column, which raises `KeyError`, and a `None` projection or salary cell, which makes `float()` or `int()` raise `TypeError`, are not modelled.
- DailyFantasyFuel.ParseCsvRow: rows are maps from column to text. A short CSV line, for which `csv.DictReader` fills the missing cells with `None`, makes `.strip()` raise, and the row is then skipped. The model cannot represent such a row, so `DailyFantasyFuel.ParseFieldsSpec` says nothing about it.
- CSV reading and writing, file output, `print` and logging are not modelled. This covers `load_projections_from_csv`, the CSV reader behind the row loop, and `save_lineups_to_csv`.
- The external lineup optimizer is not part of this model: `optimize_lineups`, `create_yahoo_single_game_optimizer` and `convert_yahoo_to_fanduel_single_game_csv`.
- The random placeholder projection generators of the pipeline are randomness and are left out, as is the run orchestration.
- The builder's own `player_projections` grouping dict is never read afterwards, so it is not modelled. Its `contest` is read through `getattr` with defaults, which is a record of optional fields.
- In `collect_contests` of the Yahoo collector, the unsupported-sport error and the page fetch are left out. The model starts from the contests found on the page.
- Consensus.ProjectionConsensus.constructor: requires custom weights to have distinct sources. A Python dict cannot hold a key twice, so this is not a restriction of the source.
- Consensus.IdLabel: reads a missing `yahoo_player_id` or `game_id` as "unknown". When the key is present but holds `None`, Python's `.get(..., 'unknown')` returns `None` and the label contains the text "None"; the model does not produce that text.
- Consensus.ProjectionConsensus.constructor: when the custom weights total 0 or less, Python keeps the caller's own dict, and `update_source_weight` then changes that dict in place. The model holds the weights as a value, so this sharing with the caller is not modelled.

## Findings

| source | as written | input that shows it | evidently intended | confidence | as-written member | corrected member |
|---|---|---|---|---|---|---|
| src/data_collection/pipeline.py:86 | `collect_contests` calls the Yahoo collector with `multi_entry_only=True`. That collector (src/data_collection/collectors/yahoo_dfs.py:105-110) takes no such keyword, so the call raises `TypeError`. The `except Exception` branch catches it and returns `[]`, so no contest is ever collected. | one contest with entry fee 1.0 and 150 entries per user, with max_entry_fee 1.0 | call the collector without the extra keyword, because it already keeps only multi-entry contests, then filter by fee | high; not executed | Pipeline.AsWrittenDropsQualifyingContest | Pipeline.CollectContestsSpec |
