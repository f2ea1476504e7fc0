/**
 * `PlayerNameMatcher`: the name canonicaliser, the ordered fuzzy-match
 * predicate, the best-of-list selector and the per-contest roster cache.
 *
 * `difflib.SequenceMatcher(None, a, b).ratio()` is not modelled; it is the
 * parameter `ratio`, of which only `0 <= ratio(a, b) <= 1` is known.
 */
module PlayerMatching {
  import opened Wrappers
  import opened Text
  import opened Seqs

  /** A similarity ratio in [0, 1], standing for `SequenceMatcher.ratio`. */
  type RatioFn = f: (string, string) -> real | forall a: string, b: string :: 0.0 <= f(a, b) <= 1.0
    witness (a: string, b: string) => 0.0

  /** The default `threshold` of `fuzzy_match` and `find_best_match`. */
  const DefaultThreshold: real := 0.8

  // ---------------------------------------------------------------------
  // standardize_name

  /** `re.sub(r'\s+', ' ', s)`: every maximal run of whitespace becomes one space. */
  function Collapse(s: string): string
    decreases |s|
  {
    if s == [] then []
    else if IsSpace(s[0]) then [' '] + Collapse(TrimLeft(s))
    else [s[0]] + Collapse(s[1..])
  }

  /** `standardize_name`: trim, collapse whitespace runs, lower-case. */
  function StandardizeName(name: string): string {
    if name == "" then "" else Lower(Collapse(Strip(name)))
  }

  /** The shape every standardized name has. */
  ghost predicate IsStandard(t: string) {
    && NoUpper(t)
    && OnlyPlainSpaces(t)
    && (t != [] ==> !IsSpace(t[0]) && !IsSpace(t[|t| - 1]))
    && NoDoubleSpace(t)
  }

  /** No two adjacent characters of `t` are both whitespace. */
  ghost predicate NoDoubleSpace(t: string) {
    forall i, j :: 0 <= i < j < |t| && j == i + 1 ==> !IsSpace(t[i]) || !IsSpace(t[j])
  }

  /** Every whitespace character of `t` is a plain space. */
  ghost predicate OnlyPlainSpaces(t: string) {
    forall i :: 0 <= i < |t| && IsSpace(t[i]) ==> t[i] == ' '
  }

  lemma ConsShape(c: char, r: string)
    requires OnlyPlainSpaces(r) && NoDoubleSpace(r)
    requires IsSpace(c) ==> c == ' '
    requires IsSpace(c) && r != [] ==> !IsSpace(r[0])
    ensures OnlyPlainSpaces([c] + r) && NoDoubleSpace([c] + r)
  {
    var t := [c] + r;
    forall i | 0 <= i < |t| && IsSpace(t[i]) ensures t[i] == ' ' {
      if i > 0 {
        assert t[i] == r[i - 1];
      }
    }
    forall i, j | 0 <= i < j < |t| && j == i + 1 ensures !IsSpace(t[i]) || !IsSpace(t[j]) {
      if i > 0 {
        assert t[i] == r[i - 1] && t[j] == r[j - 1];
      }
    }
  }

  lemma {:induction false} CollapseShape(s: string)
    ensures Collapse(s) == [] <==> s == []
    ensures s != [] ==> (IsSpace(Collapse(s)[0]) <==> IsSpace(s[0]))
    ensures s != [] ==> (IsSpace(Collapse(s)[|Collapse(s)| - 1]) <==> IsSpace(s[|s| - 1]))
    ensures OnlyPlainSpaces(Collapse(s)) && NoDoubleSpace(Collapse(s))
    decreases |s|
  {
    if s != [] {
      var t := if IsSpace(s[0]) then TrimLeft(s) else s[1..];
      var c := if IsSpace(s[0]) then ' ' else s[0];
      assert Collapse(s) == [c] + Collapse(t);
      CollapseShape(t);
      ConsShape(c, Collapse(t));
      if t != [] {
        assert t[|t| - 1] == s[|s| - 1];
      }
    }
  }

  /** `standardize_name` yields "" for "", and otherwise a string with no
      leading or trailing whitespace, no run of two whitespace characters
      (every whitespace character is a plain space) and no upper-case letter. */
  lemma StandardizeNameIsStandard(name: string)
    ensures StandardizeName("") == ""
    ensures IsStandard(StandardizeName(name))
  {
    if name != "" {
      var c := Collapse(Strip(name));
      CollapseShape(Strip(name));
      var r := Lower(c);
      assert forall i :: 0 <= i < |r| ==> (IsSpace(r[i]) <==> IsSpace(c[i]));
    }
  }

  lemma TailShape(t: string)
    requires t != [] && OnlyPlainSpaces(t) && NoDoubleSpace(t)
    ensures OnlyPlainSpaces(t[1..]) && NoDoubleSpace(t[1..])
    ensures |t| >= 2 && IsSpace(t[0]) ==> !IsSpace(t[1])
  {
    var u := t[1..];
    forall i, j | 0 <= i < j < |u| && j == i + 1 ensures !IsSpace(u[i]) || !IsSpace(u[j]) {
      assert u[i] == t[i + 1] && u[j] == t[j + 1];
    }
    if |t| >= 2 {
      assert t[0] == t[0] && t[1] == t[1];
    }
  }

  lemma {:induction false} CollapseOfStandard(t: string)
    requires OnlyPlainSpaces(t) && NoDoubleSpace(t)
    requires t != [] ==> !IsSpace(t[|t| - 1])
    ensures Collapse(t) == t
  {
    if t != [] {
      var u := t[1..];
      TailShape(t);
      if IsSpace(t[0]) {
        assert u != [] && !IsSpace(u[0]);
        assert TrimLeft(u) == u;
      }
      assert Collapse(t) == [t[0]] + Collapse(u);
      CollapseOfStandard(u);
    }
  }

  /** A non-empty standardized name is its own standard form. */
  lemma StandardIsFixed(t: string)
    requires IsStandard(t)
    ensures StandardizeName(t) == t
  {
    if t != "" {
      assert TrimLeft(t) == t;
      assert Strip(t) == t;
      CollapseOfStandard(t);
      LowerOfNoUpper(t);
    }
  }

  /** `standardize_name` is idempotent. */
  lemma StandardizeNameIdempotent(name: string)
    ensures StandardizeName(StandardizeName(name)) == StandardizeName(name)
  {
    StandardizeNameIsStandard(name);
    StandardIsFixed(StandardizeName(name));
  }

  // An independent definition: the lower-cased name is the words of the
  // name joined by single spaces (Python's `" ".join(name.split()).lower()`).

  lemma {:induction false} TrimLeftOfSpaces(sp: string, y: string)
    requires forall i :: 0 <= i < |sp| ==> IsSpace(sp[i])
    requires y == [] || !IsSpace(y[0])
    ensures TrimLeft(sp + y) == y
  {
    if sp != [] {
      assert (sp + y)[1..] == sp[1..] + y;
      TrimLeftOfSpaces(sp[1..], y);
    } else {
      assert sp + y == y;
    }
  }

  lemma {:induction false} TrimRightAppend(a: string, b: string)
    requires TrimRight(b) != []
    ensures TrimRight(a + b) == a + TrimRight(b)
  {
    if IsSpace(b[|b| - 1]) {
      assert (a + b)[..|a + b| - 1] == a + b[..|b| - 1];
      TrimRightAppend(a, b[..|b| - 1]);
    }
  }

  lemma {:induction false} TrimRightOfTrailingSpaces(w: string, rest: string)
    requires w != [] && !IsSpace(w[|w| - 1])
    requires forall i :: 0 <= i < |rest| ==> IsSpace(rest[i])
    ensures TrimRight(w + rest) == w
  {
    if rest == [] {
      assert w + rest == w;
    } else {
      assert (w + rest)[..|w + rest| - 1] == w + rest[..|rest| - 1];
      TrimRightOfTrailingSpaces(w, rest[..|rest| - 1]);
    }
  }

  lemma {:induction false} CollapseOfWordPrefix(w: string, x: string)
    requires NoSpace(w)
    ensures Collapse(w + x) == w + Collapse(x)
  {
    if w != [] {
      assert (w + x)[0] == w[0] && (w + x)[1..] == w[1..] + x;
      CollapseOfWordPrefix(w[1..], x);
    } else {
      assert w + x == x;
    }
  }

  lemma WordsSkipsLeadingSpace(s: string)
    ensures Words(s) == Words(TrimLeft(s))
  {
    var t := TrimLeft(s);
    assert t == [] || !IsSpace(t[0]);
    assert TrimLeft(t) == t;
  }

  lemma JoinSpaceCons(w: string, ws: seq<string>)
    requires ws != []
    ensures JoinSpace([w] + ws) == w + ([' '] + JoinSpace(ws))
  {
    assert ([w] + ws)[1..] == ws;
    assert w + " " + JoinSpace(ws) == w + ([' '] + JoinSpace(ws));
  }

  lemma LeadingSpaces(s: string) returns (sp: string)
    ensures s == sp + TrimLeft(s)
    ensures forall i :: 0 <= i < |sp| ==> IsSpace(sp[i])
  {
    sp := s[..|s| - |TrimLeft(s)|];
  }

  /** One word, a whitespace run, then the rest: the inductive step below. */
  lemma CollapseJoinStep(w: string, sp: string, u: string)
    requires w != [] && NoSpace(w)
    requires sp != [] && forall i :: 0 <= i < |sp| ==> IsSpace(sp[i])
    requires u != [] && !IsSpace(u[0])
    requires Collapse(TrimRight(u)) == JoinSpace(Words(u))
    ensures Collapse(TrimRight(w + (sp + u))) == JoinSpace([w] + Words(u))
  {
    assert TrimLeft(u) == u;
    assert Words(u) != [];
    var v := TrimRight(u);
    assert v != [] && v[0] == u[0];
    TrimRightAppend(sp, u);
    TrimRightAppend(w, sp + u);
    CollapseOfWordPrefix(w, sp + v);
    TrimLeftOfSpaces(sp, v);
    assert Collapse(sp + v) == [' '] + Collapse(v);
    JoinSpaceCons(w, Words(u));
  }

  lemma {:induction false} CollapseTrimRightIsJoin(s: string)
    requires s == [] || !IsSpace(s[0])
    ensures Collapse(TrimRight(s)) == JoinSpace(Words(s))
    decreases |s|
  {
    if s != [] {
      var w := TakeWord(s);
      var rest := s[|w|..];
      assert s == w + rest;
      assert TrimLeft(s) == s;
      assert Words(s) == [w] + Words(rest);
      WordsSkipsLeadingSpace(rest);
      var u := TrimLeft(rest);
      if u == [] {
        TrimRightOfTrailingSpaces(w, rest);
        CollapseOfStandard(w);
      } else {
        var sp := LeadingSpaces(rest);
        assert sp != [] by {
          assert IsSpace(s[|w|]) && rest[0] == s[|w|];
        }
        CollapseTrimRightIsJoin(u);
        CollapseJoinStep(w, sp, u);
      }
    }
  }

  /** `standardize_name(n)` equals `" ".join(n.split()).lower()`: the words
      of the name, in order, joined by single spaces and lower-cased. */
  lemma StandardizeNameIsJoinedWords(name: string)
    ensures StandardizeName(name) == Lower(JoinSpace(Words(name)))
  {
    if name != "" {
      WordsSkipsLeadingSpace(name);
      var t := TrimLeft(name);
      CollapseTrimRightIsJoin(t);
    }
  }

  // ---------------------------------------------------------------------
  // fuzzy_match

  /** The generational suffixes of `r'\s+(jr\.?|sr\.?|ii|iii|iv)$'`. */
  const Suffixes: set<string> := {"jr", "jr.", "sr", "sr.", "ii", "iii", "iv"}

  /** `s` ends with whitespace followed by a generational suffix of length
      `n`; every suffix has length 2 or 3, and at most one length fits. */
  predicate EndsWithSuffixOfLength(s: string, n: nat) {
    n < |s| && IsSpace(s[|s| - n - 1]) && s[|s| - n..] in Suffixes
  }

  /** `re.sub(r'\s+(jr\.?|sr\.?|ii|iii|iv)$', '', s)` on a string without a
      trailing newline (as every standardized name is): the suffix and the
      whole whitespace run before it are removed. */
  function StripSuffix(s: string): string {
    if EndsWithSuffixOfLength(s, 3) then TrimRight(s[..|s| - 3])
    else if EndsWithSuffixOfLength(s, 2) then TrimRight(s[..|s| - 2])
    else s
  }

  /** `fuzzy_match`: the four tests, tried in order. */
  predicate FuzzyMatch(yahooName: string, projectionName: string, threshold: real, ratio: RatioFn) {
    if yahooName == "" || projectionName == "" then false
    else
      var a, b := StandardizeName(yahooName), StandardizeName(projectionName);
      || a == b
      || RemoveChar(a, '.') == RemoveChar(b, '.')
      || StripSuffix(a) == StripSuffix(b)
      || ratio(a, b) >= threshold
  }

  /** An empty name never matches, whatever the threshold. */
  lemma FuzzyMatchEmpty(a: string, b: string, threshold: real, ratio: RatioFn)
    requires a == "" || b == ""
    ensures !FuzzyMatch(a, b, threshold, ratio)
  {
  }

  /** Names with equal standard forms match, whatever the threshold; in
      particular every non-empty name matches itself. */
  lemma FuzzyMatchStandardEqual(a: string, b: string, threshold: real, ratio: RatioFn)
    requires a != "" && b != ""
    requires StandardizeName(a) == StandardizeName(b)
    ensures FuzzyMatch(a, b, threshold, ratio)
    ensures FuzzyMatch(a, a, threshold, ratio)
  {
  }

  /** Only the last test depends on the threshold: lowering it keeps a match. */
  lemma FuzzyMatchThresholdMonotone(a: string, b: string, t1: real, t2: real, ratio: RatioFn)
    requires FuzzyMatch(a, b, t1, ratio)
    requires t2 <= t1
    ensures FuzzyMatch(a, b, t2, ratio)
  {
  }

  /** Standard forms equal once every period is deleted match. */
  lemma FuzzyMatchIgnoresPeriods(a: string, b: string, threshold: real, ratio: RatioFn)
    requires a != "" && b != ""
    requires RemoveChar(StandardizeName(a), '.') == RemoveChar(StandardizeName(b), '.')
    ensures FuzzyMatch(a, b, threshold, ratio)
  {
  }

  lemma StripAppendedSuffix(t: string, suffix: string)
    requires suffix in Suffixes
    requires t != [] && !IsSpace(t[|t| - 1])
    ensures StripSuffix(t + " " + suffix) == t
  {
    var s := t + " " + suffix;
    var n := |suffix|;
    assert n == 2 || n == 3;
    assert s[|s| - n..] == suffix && s[|s| - n - 1] == ' ';
    assert s[..|s| - n] == t + " ";
    TrimRightOfTrailingSpaces(t, " ");
    if n == 2 {
      assert s[|s| - 3..] == [' '] + suffix;
      assert !EndsWithSuffixOfLength(s, 3);
    }
  }

  lemma AppendedSuffixIsStandard(t: string, suffix: string)
    requires suffix in Suffixes
    requires IsStandard(t) && t != []
    ensures IsStandard(t + " " + suffix)
  {
    var s := t + " " + suffix;
    assert forall i :: 0 <= i < |suffix| ==> !IsSpace(suffix[i]) && !IsUpper(suffix[i]);
    assert forall i :: |t| < i < |s| ==> s[i] == suffix[i - |t| - 1];
    assert forall i :: 0 <= i < |t| ==> s[i] == t[i];
  }

  /** A name followed by a generational suffix matches the bare name, e.g.
      "john smith jr." and "John  Smith". */
  lemma FuzzyMatchIgnoresSuffix(name: string, suffix: string, threshold: real, ratio: RatioFn)
    requires suffix in Suffixes
    requires StandardizeName(name) != ""
    requires StripSuffix(StandardizeName(name)) == StandardizeName(name)
    ensures FuzzyMatch(StandardizeName(name) + " " + suffix, name, threshold, ratio)
  {
    var t := StandardizeName(name);
    StandardizeNameIsStandard(name);
    AppendedSuffixIsStandard(t, suffix);
    StandardIsFixed(t + " " + suffix);
    StripAppendedSuffix(t, suffix);
    StandardIsFixed(t);
  }

  // ---------------------------------------------------------------------
  // find_best_match

  /** The ratio `find_best_match` ranks a candidate by. */
  function Score(yahooName: string, candidate: string, ratio: RatioFn): real {
    ratio(StandardizeName(yahooName), StandardizeName(candidate))
  }

  /** Candidate `k` is the one `find_best_match` returns: it matches, its
      score is positive and maximal among matches, and every earlier
      match scores strictly less. */
  ghost predicate IsBestAt(yahooName: string, cands: seq<string>, threshold: real, ratio: RatioFn, k: int) {
    && 0 <= k < |cands|
    && FuzzyMatch(yahooName, cands[k], threshold, ratio)
    && Score(yahooName, cands[k], ratio) > 0.0
    && (forall j :: 0 <= j < |cands| && FuzzyMatch(yahooName, cands[j], threshold, ratio) ==>
          Score(yahooName, cands[j], ratio) <= Score(yahooName, cands[k], ratio))
    && (forall j :: 0 <= j < k && FuzzyMatch(yahooName, cands[j], threshold, ratio) ==>
          Score(yahooName, cands[j], ratio) < Score(yahooName, cands[k], ratio))
  }

  /** `fuzzy_match` against `yahooName`, as a test on candidates. */
  function Matcher(yahooName: string, threshold: real, ratio: RatioFn): string -> bool {
    c => FuzzyMatch(yahooName, c, threshold, ratio)
  }

  /** The ratio against `yahooName`, as a score on candidates. */
  function Scorer(yahooName: string, ratio: RatioFn): string -> real {
    c => Score(yahooName, c, ratio)
  }

  /** The index of the candidate `find_best_match` returns, or -1. */
  ghost function BestMatchIndex(yahooName: string, cands: seq<string>, threshold: real, ratio: RatioFn): int {
    ScanBest(cands, Matcher(yahooName, threshold, ratio), Scorer(yahooName, ratio))
  }

  /** `find_best_match` returns nothing exactly when no matching candidate
      scores above 0, and otherwise the first of the best-scoring matches. */
  lemma BestMatchIndexIsBest(yahooName: string, cands: seq<string>, threshold: real, ratio: RatioFn)
    ensures BestMatchIndex(yahooName, cands, threshold, ratio) == -1 <==>
      forall j :: 0 <= j < |cands| && FuzzyMatch(yahooName, cands[j], threshold, ratio) ==>
        Score(yahooName, cands[j], ratio) <= 0.0
    ensures BestMatchIndex(yahooName, cands, threshold, ratio) != -1 ==>
      IsBestAt(yahooName, cands, threshold, ratio, BestMatchIndex(yahooName, cands, threshold, ratio))
  {
    ScanBestIsFirstMaximum(cands, Matcher(yahooName, threshold, ratio), Scorer(yahooName, ratio));
  }

  /** `find_best_match`: the highest-scoring matching candidate, the first
      one on equal scores; `None` when no matching candidate scores above 0. */
  method FindBestMatch(yahooName: string, candidateNames: seq<string>, threshold: real, ratio: RatioFn)
    returns (best: Option<string>)
    ensures candidateNames == [] ==> best == None
    ensures best.None? <==>
      forall j :: 0 <= j < |candidateNames| && FuzzyMatch(yahooName, candidateNames[j], threshold, ratio) ==>
        Score(yahooName, candidateNames[j], ratio) <= 0.0
    ensures best.Some? ==>
      exists k :: 0 <= k < |candidateNames| && candidateNames[k] == best.value &&
        IsBestAt(yahooName, candidateNames, threshold, ratio, k)
  {
    if candidateNames == [] {
      return None;
    }
    ghost var ok, sc := Matcher(yahooName, threshold, ratio), Scorer(yahooName, ratio);
    best := None;
    var bestScore := 0.0;
    ghost var bestIndex := -1;
    for i := 0 to |candidateNames|
      invariant bestIndex == ScanBest(candidateNames[..i], ok, sc)
      invariant best == if bestIndex < 0 then None else Some(candidateNames[bestIndex])
      invariant bestScore == if bestIndex < 0 then 0.0 else sc(candidateNames[bestIndex])
    {
      var candidate := candidateNames[i];
      assert candidateNames[..i + 1][..i] == candidateNames[..i];
      if FuzzyMatch(yahooName, candidate, threshold, ratio) {
        var score := ratio(StandardizeName(yahooName), StandardizeName(candidate));
        if score > bestScore {
          bestScore := score;
          best := Some(candidate);
          bestIndex := i;
        }
      }
    }
    assert candidateNames[..|candidateNames|] == candidateNames;
    BestMatchIndexIsBest(yahooName, candidateNames, threshold, ratio);
  }

  // ---------------------------------------------------------------------
  // The per-contest roster cache

  /** A roster player from the contest platform; a missing `"name"` is "". */
  datatype RosterPlayer = RosterPlayer(
    name: string,
    fullYahooId: Option<string>,
    yahooPlayerId: Option<string>,
    gameId: Option<string>,
    position: string,
    team: string,
    salary: int)

  /** `{p.get("name", ""): p for p in players if p.get("name")}`. */
  function IndexByName(players: seq<RosterPlayer>): (m: map<string, RosterPlayer>)
    ensures forall k :: k in m ==> k != "" && m[k].name == k
  {
    if players == [] then map[]
    else
      var m := IndexByName(players[..|players| - 1]);
      var p := players[|players| - 1];
      if p.name != "" then m[p.name := p] else m
  }

  /** A name is indexed exactly when some player carries it and it is not "". */
  lemma {:induction false} IndexByNameKeys(players: seq<RosterPlayer>, name: string)
    ensures name in IndexByName(players) <==>
      name != "" && exists i :: 0 <= i < |players| && players[i].name == name
  {
    if players != [] {
      var n := |players| - 1;
      IndexByNameKeys(players[..n], name);
      if name != "" && players[n].name != name && exists i :: 0 <= i < |players| && players[i].name == name {
        var i :| 0 <= i < |players| && players[i].name == name;
        assert i < n && players[..n][i].name == name;
      }
    }
  }

  /** A later player with the same name overwrites an earlier one. */
  lemma {:induction false} IndexByNameLastWins(players: seq<RosterPlayer>, i: int)
    requires 0 <= i < |players| && players[i].name != ""
    requires forall j :: i < j < |players| ==> players[j].name != players[i].name
    ensures players[i].name in IndexByName(players)
    ensures IndexByName(players)[players[i].name] == players[i]
  {
    var n := |players| - 1;
    if i < n {
      IndexByNameLastWins(players[..n], i);
    }
  }

  /** `PlayerNameMatcher` with its `yahoo_players_cache`. */
  class PlayerNameMatcher {
    var yahooPlayersCache: map<string, map<string, RosterPlayer>>

    /** Every cached player is filed under its own, non-empty, name. */
    ghost predicate Valid()
      reads this
    {
      forall c, k :: c in yahooPlayersCache && k in yahooPlayersCache[c] ==>
        k != "" && yahooPlayersCache[c][k].name == k
    }

    constructor()
      ensures Valid() && yahooPlayersCache == map[]
    {
      yahooPlayersCache := map[];
    }

    /** `cache_yahoo_players`: replaces the whole entry of `contestId`. */
    method CacheYahooPlayers(contestId: string, players: seq<RosterPlayer>)
      requires Valid()
      modifies this
      ensures Valid()
      ensures yahooPlayersCache == old(yahooPlayersCache)[contestId := IndexByName(players)]
      ensures forall name ::
        GetYahooPlayer(contestId, name) ==
          if name in IndexByName(players) then Some(IndexByName(players)[name]) else None
      ensures forall c, name :: c != contestId ==> GetYahooPlayer(c, name) == old(GetYahooPlayer(c, name))
    {
      yahooPlayersCache := yahooPlayersCache[contestId := IndexByName(players)];
    }

    /** `get_yahoo_player`: `None` for an unknown contest or name; a found
        player carries the name it was looked up by. */
    function GetYahooPlayer(contestId: string, name: string): (r: Option<RosterPlayer>)
      reads this
      ensures contestId !in yahooPlayersCache ==> r.None?
      ensures Valid() && r.Some? ==> r.value.name == name && name != ""
    {
      if contestId in yahooPlayersCache && name in yahooPlayersCache[contestId]
      then Some(yahooPlayersCache[contestId][name])
      else None
    }

    /** `clear_cache`: a truthy id drops that contest only; `None` or ""
        empties the whole cache. */
    method ClearCache(contestId: Option<string>)
      requires Valid()
      modifies this
      ensures Valid()
      ensures contestId.Some? && contestId.value != "" ==>
        yahooPlayersCache == old(yahooPlayersCache) - {contestId.value}
      ensures contestId.Some? && contestId.value != "" ==>
        forall c, name :: c != contestId.value ==> GetYahooPlayer(c, name) == old(GetYahooPlayer(c, name))
      ensures contestId.None? || contestId.value == "" ==> yahooPlayersCache == map[]
    {
      if contestId.Some? && contestId.value != "" {
        yahooPlayersCache := yahooPlayersCache - {contestId.value};
      } else {
        yahooPlayersCache := map[];
      }
    }
  }
}
