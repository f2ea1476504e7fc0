/**
 * `ProjectionConsensus` and `ProjectionAggregator`: a table of source
 * weights kept normalised to sum 1, the weighted-average consensus with its
 * most trusted contributing source, the stable ranking of sources by
 * weight, and the per-player aggregation that decorates a name with its
 * roster ID.
 *
 * A Python dict is a sequence of (key, value) pairs in insertion order.
 * `difflib.SequenceMatcher(None, a, b).ratio()` is the parameter `ratio`.
 */
module Consensus {
  import opened Wrappers
  import opened Text
  import opened Seqs
  import opened PlayerMatching

  /** `Dict[str, float]`: source name to weight. */
  type Weights = seq<(string, real)>

  /** `Dict[str, Optional[float]]`: one player's projection by source. */
  type Projections = seq<(string, Option<real>)>

  /** What makes a sequence of pairs a dict: no key twice. */
  ghost predicate DistinctKeys<V>(kvs: seq<(string, V)>) {
    forall i, j :: 0 <= i < j < |kvs| ==> kvs[i].0 != kvs[j].0
  }

  /** The keys, in order. */
  function SourcesOf<V>(kvs: seq<(string, V)>): (r: seq<string>)
    ensures |r| == |kvs|
    ensures forall i :: 0 <= i < |kvs| ==> r[i] == kvs[i].0
  {
    if kvs == [] then [] else SourcesOf(kvs[..|kvs| - 1]) + [kvs[|kvs| - 1].0]
  }

  /** `d.get(k)`. */
  function Lookup<V>(kvs: seq<(string, V)>, k: string): (r: Option<V>)
    ensures r.None? <==> forall i :: 0 <= i < |kvs| ==> kvs[i].0 != k
    ensures r.Some? ==> exists i :: 0 <= i < |kvs| && kvs[i] == (k, r.value)
  {
    if kvs == [] then None
    else if kvs[0].0 == k then Some(kvs[0].1)
    else Lookup(kvs[1..], k)
  }

  /** In a dict, looking up the key at position `i` finds the value there. */
  lemma {:induction false} LookupAt<V>(kvs: seq<(string, V)>, i: int)
    requires DistinctKeys(kvs) && 0 <= i < |kvs|
    ensures Lookup(kvs, kvs[i].0) == Some(kvs[i].1)
  {
    if i > 0 {
      assert kvs[1..][i - 1] == kvs[i];
      LookupAt(kvs[1..], i - 1);
    }
  }

  // ---------------------------------------------------------------------
  // The weight table

  /** `sum(weights.values())`. */
  function Total(w: Weights): real {
    if w == [] then 0.0 else Total(w[..|w| - 1]) + w[|w| - 1].1
  }

  /** `{k: v / t for k, v in weights.items()}`. */
  function DivideBy(w: Weights, t: real): (r: Weights)
    requires t != 0.0
    ensures |r| == |w|
    ensures forall i :: 0 <= i < |w| ==> r[i] == (w[i].0, w[i].1 / t)
  {
    seq(|w|, i requires 0 <= i < |w| => (w[i].0, w[i].1 / t))
  }

  /** The weights divided by their total when it is positive. */
  function Normalize(w: Weights): Weights {
    if Total(w) > 0.0 then DivideBy(w, Total(w)) else w
  }

  /** The table invariant: a positive total is exactly 1. */
  ghost predicate Normalized(w: Weights) {
    Total(w) > 0.0 ==> Total(w) == 1.0
  }

  lemma {:induction false} TotalDivideBy(w: Weights, t: real)
    requires t != 0.0
    ensures Total(DivideBy(w, t)) == Total(w) / t
  {
    if w != [] {
      var n := |w| - 1;
      assert DivideBy(w, t)[..n] == DivideBy(w[..n], t);
      TotalDivideBy(w[..n], t);
    }
  }

  lemma DivideByKeepsSources(w: Weights, t: real)
    requires t != 0.0
    ensures SourcesOf(DivideBy(w, t)) == SourcesOf(w)
  {
  }

  lemma DivideByOne(w: Weights)
    ensures DivideBy(w, 1.0) == w
  {
  }

  /** Normalising keeps the sources in order; a positive total becomes
      exactly 1, and any other table is left alone. */
  lemma NormalizeSumsToOne(w: Weights)
    ensures SourcesOf(Normalize(w)) == SourcesOf(w)
    ensures Normalized(Normalize(w))
    ensures Total(w) > 0.0 ==> Total(Normalize(w)) == 1.0
    ensures Total(w) <= 0.0 ==> Normalize(w) == w
  {
    if Total(w) > 0.0 {
      DivideByKeepsSources(w, Total(w));
      NormalizeTotal(w);
    }
  }

  /** Normalising a normalised table changes nothing. */
  lemma NormalizeIdempotent(w: Weights)
    ensures Normalize(Normalize(w)) == Normalize(w)
  {
    if Total(w) > 0.0 {
      NormalizeTotal(w);
      DivideByOne(Normalize(w));
    }
  }

  lemma NormalizeTotal(w: Weights)
    requires Total(w) > 0.0
    ensures Total(Normalize(w)) == 1.0
  {
    TotalDivideBy(w, Total(w));
    SelfQuotient(Total(w));
  }

  /** Normalising divides every weight by the total: their proportions
      are kept. */
  lemma NormalizeProportions(w: Weights)
    requires Total(w) > 0.0
    ensures forall i :: 0 <= i < |w| ==> Normalize(w)[i].1 * Total(w) == w[i].1
  {
    DivideByProportions(w, Total(w));
  }

  /** Each weight divided by `t`, times `t`, is the weight again. */
  lemma DivideByProportions(w: Weights, t: real)
    requires t != 0.0
    ensures forall i :: 0 <= i < |w| ==> DivideBy(w, t)[i].1 * t == w[i].1
  {
    forall i | 0 <= i < |w|
      ensures DivideBy(w, t)[i].1 * t == w[i].1
    {
      QuotientTimes(DivideBy(w, t)[i].1, w[i].1, t);
    }
  }

  lemma SelfQuotient(t: real)
    requires t != 0.0
    ensures t / t == 1.0
  {
  }

  /** Stated on the very terms of a goal, so that the solver need not
      search for the product. */
  lemma QuotientTimes(x: real, v: real, t: real)
    requires t != 0.0 && x == v / t
    ensures x * t == v
  {
  }

  /** A weight of a table with no negative weight is at most the total. */
  lemma {:induction false} WeightAtMostTotal(w: Weights, i: int)
    requires forall j :: 0 <= j < |w| ==> w[j].1 >= 0.0
    requires 0 <= i < |w|
    ensures 0.0 <= w[i].1 <= Total(w)
  {
    var n := |w| - 1;
    if i < n {
      assert w[..n][i] == w[i];
      WeightAtMostTotal(w[..n], i);
      TotalNonNegative(w[..n]);
    } else {
      TotalNonNegative(w[..n]);
    }
  }

  lemma {:induction false} TotalNonNegative(w: Weights)
    requires forall j :: 0 <= j < |w| ==> w[j].1 >= 0.0
    ensures Total(w) >= 0.0
  {
    if w != [] {
      TotalNonNegative(w[..|w| - 1]);
    }
  }

  /** Without negative weights, every normalised weight lies in [0, 1]. */
  lemma NormalizeBounds(w: Weights)
    requires forall j :: 0 <= j < |w| ==> w[j].1 >= 0.0
    ensures forall j :: 0 <= j < |w| ==> 0.0 <= Normalize(w)[j].1
    ensures Total(w) > 0.0 ==> forall j :: 0 <= j < |w| ==> Normalize(w)[j].1 <= 1.0
  {
    forall j | 0 <= j < |w|
      ensures Total(w) > 0.0 ==> Normalize(w)[j].1 <= 1.0
    {
      WeightAtMostTotal(w, j);
    }
  }

  /** The five default sources and their weights. */
  const DefaultWeights: Weights := [
    ("dailyfantasyfuel", 0.35),
    ("rotowire", 0.30),
    ("yahoo", 0.20),
    ("fantasypros", 0.10),
    ("numberfire", 0.05)]

  /** `source_weights or {defaults}`, normalised. */
  function InitialWeights(sourceWeights: Option<Weights>): Weights {
    Normalize(if sourceWeights.None? || sourceWeights.value == [] then DefaultWeights else sourceWeights.value)
  }

  /** Without custom weights, or with an empty dict, the table holds the
      five defaults, which already sum to 1; a custom table keeps its
      sources in order; either way the result is normalised. */
  lemma InitialWeightsAreNormalized(sourceWeights: Option<Weights>)
    ensures sourceWeights.None? || sourceWeights.value == [] ==> InitialWeights(sourceWeights) == DefaultWeights
    ensures sourceWeights.Some? && sourceWeights.value != [] ==>
      SourcesOf(InitialWeights(sourceWeights)) == SourcesOf(sourceWeights.value)
    ensures Normalized(InitialWeights(sourceWeights))
  {
    DefaultWeightsSumToOne();
    DivideByOne(DefaultWeights);
    if sourceWeights.Some? {
      NormalizeSumsToOne(sourceWeights.value);
    }
    NormalizeSumsToOne(DefaultWeights);
  }

  lemma DefaultWeightsSumToOne()
    ensures Total(DefaultWeights) == 1.0
  {
    var d := DefaultWeights;
    assert d[..1][..0] == [];
    assert d[..2][..1] == d[..1];
    assert d[..3][..2] == d[..2];
    assert d[..4][..3] == d[..3];
    assert d[..4] == d[..|d| - 1];
    assert Total(d[..1]) == 0.35;
    assert Total(d[..2]) == 0.65;
    assert Total(d[..3]) == 0.85;
    assert Total(d[..4]) == 0.95;
  }

  lemma DefaultWeightsAreDistinct()
    ensures DistinctKeys(DefaultWeights)
  {
  }

  /** `max(0.0, min(1.0, x))`. */
  function Clamp(x: real): (r: real)
    ensures 0.0 <= r <= 1.0
    ensures 0.0 <= x <= 1.0 ==> r == x
    ensures x < 0.0 ==> r == 0.0
    ensures x > 1.0 ==> r == 1.0
  {
    var m := if 1.0 < x then 1.0 else x;
    if 0.0 < m then m else 0.0
  }

  /** `weights[k] = v` for a key `k` already in the dict. */
  function SetValue(w: Weights, k: string, v: real): (r: Weights)
    ensures |r| == |w|
    ensures forall i :: 0 <= i < |w| ==> r[i] == (w[i].0, if w[i].0 == k then v else w[i].1)
  {
    seq(|w|, i requires 0 <= i < |w| => (w[i].0, if w[i].0 == k then v else w[i].1))
  }

  /** The table after `update_source_weight(source, newWeight)`. */
  function UpdatedWeights(w: Weights, source: string, newWeight: real): Weights {
    if Lookup(w, source).Some? then Normalize(SetValue(w, source, Clamp(newWeight))) else w
  }

  /** An unregistered source changes nothing; the sources never change,
      and the table stays normalised. */
  lemma UpdatedWeightsKeepSources(w: Weights, source: string, newWeight: real)
    requires Normalized(w)
    ensures SourcesOf(UpdatedWeights(w, source, newWeight)) == SourcesOf(w)
    ensures Normalized(UpdatedWeights(w, source, newWeight))
    ensures Lookup(w, source).None? ==> UpdatedWeights(w, source, newWeight) == w
  {
    var s := SetValue(w, source, Clamp(newWeight));
    assert SourcesOf(s) == SourcesOf(w);
    NormalizeSumsToOne(s);
  }

  /** A registered source gets its clamped weight (`SetValue`), and then
      every weight is divided by the new total when that is positive, which
      makes the table sum to 1 again. */
  lemma UpdatedWeightsRescale(w: Weights, source: string, newWeight: real)
    requires Lookup(w, source).Some?
    requires Total(SetValue(w, source, Clamp(newWeight))) > 0.0
    ensures Total(UpdatedWeights(w, source, newWeight)) == 1.0
    ensures forall i :: 0 <= i < |w| ==>
      UpdatedWeights(w, source, newWeight)[i] ==
        (w[i].0, SetValue(w, source, Clamp(newWeight))[i].1 / Total(SetValue(w, source, Clamp(newWeight))))
  {
    var s := SetValue(w, source, Clamp(newWeight));
    NormalizeTotal(s);
  }

  /** A normalised table without negative weights has every weight in [0, 1]. */
  lemma NormalizedBounds(w: Weights)
    requires Normalized(w)
    requires forall j :: 0 <= j < |w| ==> w[j].1 >= 0.0
    ensures forall j :: 0 <= j < |w| ==> 0.0 <= w[j].1 <= 1.0
  {
    forall j | 0 <= j < |w|
      ensures w[j].1 <= 1.0
    {
      WeightAtMostTotal(w, j);
    }
  }

  /** A table without negative weights keeps every weight in [0, 1]. */
  lemma UpdatedWeightsBounds(w: Weights, source: string, newWeight: real)
    requires Normalized(w)
    requires forall j :: 0 <= j < |w| ==> w[j].1 >= 0.0
    ensures forall j :: 0 <= j < |w| ==> 0.0 <= UpdatedWeights(w, source, newWeight)[j].1 <= 1.0
  {
    UpdatedWeightsKeepSources(w, source, newWeight);
    var s := SetValue(w, source, Clamp(newWeight));
    if Lookup(w, source).None? {
      NormalizedBounds(w);
    } else {
      NormalizeSumsToOne(s);
      NormalizeBounds(s);
      NormalizedBounds(Normalize(s));
    }
  }

  // ---------------------------------------------------------------------
  // get_best_projection

  /** `source in weights and projection is not None`. */
  function Contributes(w: Weights): ((string, Option<real>)) -> bool {
    (e: (string, Option<real>)) => e.1.Some? && Lookup(w, e.0).Some?
  }

  /** `weights.get(source, 0)`. */
  function WeightOf(w: Weights): string -> real {
    s => Lookup(w, s).GetOr(0.0)
  }

  /** The entries the consensus uses, in input order. */
  function Contributors(w: Weights, projs: Projections): Projections {
    Filter(projs, Contributes(w))
  }

  /** The sum of the weights of `es`. */
  function WeightSum(w: Weights, es: Projections): real {
    if es == [] then 0.0 else WeightSum(w, es[..|es| - 1]) + WeightOf(w)(es[|es| - 1].0)
  }

  /** `projection * weight` of one entry. */
  function Contribution(w: Weights, e: (string, Option<real>)): real {
    e.1.GetOr(0.0) * WeightOf(w)(e.0)
  }

  /** The sum of value times weight over `es`. */
  function WeightedSum(w: Weights, es: Projections): real {
    if es == [] then 0.0
    else WeightedSum(w, es[..|es| - 1]) + Contribution(w, es[|es| - 1])
  }

  /** What `get_best_projection` returns: `(None, 0.0)` for no entries or a
      zero contributing weight; otherwise the heaviest contributing source,
      the first on ties, and the weighted average of the contributions. */
  function BestProjection(w: Weights, projs: Projections): (Option<string>, real) {
    if projs == [] then (None, 0.0)
    else
      var es := Contributors(w, projs);
      var total := WeightSum(w, es);
      if total == 0.0 then (None, 0.0)
      else
        var sources := SourcesOf(es);
        (Some(sources[FirstMax(sources, WeightOf(w))]), WeightedSum(w, es) / total)
  }

  /** One more entry of the loop over `projs`. */
  lemma ContributorsStep(w: Weights, projs: Projections, i: nat)
    requires i < |projs|
    ensures Contributors(w, projs[..i + 1]) ==
      Contributors(w, projs[..i]) + (if Contributes(w)(projs[i]) then [projs[i]] else [])
  {
    assert projs[..i + 1][..i] == projs[..i];
  }

  /** Appending an entry adds its source, its weight and its weighted value. */
  lemma SumsAppend(w: Weights, es: Projections, e: (string, Option<real>))
    ensures SourcesOf(es + [e]) == SourcesOf(es) + [e.0]
    ensures WeightSum(w, es + [e]) == WeightSum(w, es) + WeightOf(w)(e.0)
    ensures WeightedSum(w, es + [e]) == WeightedSum(w, es) + Contribution(w, e)
  {
    assert (es + [e])[..|es|] == es;
  }

  /** What the loop of `get_best_projection` accumulates over `projs`:
      the contributing sources, the weighted sum and the total weight. */
  function Tally(w: Weights, projs: Projections): (seq<string>, real, real) {
    var es := Contributors(w, projs);
    (SourcesOf(es), WeightedSum(w, es), WeightSum(w, es))
  }

  /** One turn of the loop, stated on the terms the loop computes: an entry
      with a value and a registered source adds its source, its value times
      its weight and its weight; any other entry changes nothing. */
  lemma TallyStep(w: Weights, projs: Projections, i: nat, weight: Option<real>, projection: Option<real>)
    requires i < |projs| && weight == Lookup(w, projs[i].0) && projection == projs[i].1
    ensures weight.Some? && projection.Some? ==>
      Tally(w, projs[..i + 1]).0 == Tally(w, projs[..i]).0 + [projs[i].0]
    ensures weight.Some? && projection.Some? ==>
      Tally(w, projs[..i + 1]).1 == Tally(w, projs[..i]).1 + projection.value * weight.value
    ensures weight.Some? && projection.Some? ==>
      Tally(w, projs[..i + 1]).2 == Tally(w, projs[..i]).2 + weight.value
    ensures !(weight.Some? && projection.Some?) ==>
      Tally(w, projs[..i + 1]) == Tally(w, projs[..i])
  {
    var es := Contributors(w, projs[..i]);
    ContributorsStep(w, projs, i);
    if weight.Some? && projection.Some? {
      assert Contributes(w)(projs[i]);
      assert Contributors(w, projs[..i + 1]) == es + [projs[i]];
      SumsAppend(w, es, projs[i]);
      ContributionOfEntry(w, projs[i], weight, projection);
    } else {
      assert es + [] == es;
    }
  }

  /** The contribution of an entry is its value times its weight. */
  lemma ContributionOfEntry(w: Weights, e: (string, Option<real>), weight: Option<real>, projection: Option<real>)
    requires weight == Lookup(w, e.0) && projection == e.1
    requires weight.Some? && projection.Some?
    ensures Contribution(w, e) == projection.value * weight.value
  {
    assert WeightOf(w)(e.0) == weight.value;
    SameProduct(projection.value, weight.value, e.1.GetOr(0.0), WeightOf(w)(e.0));
  }

  /** The tally of the whole list decides the result of `get_best_projection`. */
  lemma BestProjectionOfTally(w: Weights, projs: Projections)
    requires projs != []
    ensures Tally(w, projs).2 == 0.0 ==> BestProjection(w, projs) == (None, 0.0)
    ensures Tally(w, projs).2 != 0.0 ==>
      var (sources, weightedSum, totalWeight) := Tally(w, projs);
      sources != [] && BestProjection(w, projs) == (Some(sources[FirstMax(sources, WeightOf(w))]), weightedSum / totalWeight)
  {
  }

  /** Stated on the very terms of a goal, so that the solver need not
      search for the product. */
  lemma SameProduct(a: real, b: real, c: real, d: real)
    requires a == c && b == d
    ensures a * b == c * d
  {
  }

  /** There is no best source exactly when the contributing weights sum to
      0, in particular for no entries and for no contributing entry; the
      consensus is then 0. */
  lemma BestProjectionNone(w: Weights, projs: Projections)
    ensures BestProjection(w, projs).0.None? <==> WeightSum(w, Contributors(w, projs)) == 0.0
    ensures BestProjection(w, projs).0.None? ==> BestProjection(w, projs).1 == 0.0
    ensures projs == [] ==> BestProjection(w, projs) == (None, 0.0)
    ensures (forall j :: 0 <= j < |projs| ==> !Contributes(w)(projs[j])) ==> BestProjection(w, projs) == (None, 0.0)
  {
    var es := Contributors(w, projs);
    if projs == [] {
      assert es == [];
    }
  }

  /** The best source is a registered source with a value, no contributing
      source weighs more, and every contributor before it weighs less. */
  lemma BestSourceIsHeaviest(w: Weights, projs: Projections)
    requires BestProjection(w, projs).0.Some?
    ensures var s := BestProjection(w, projs).0.value;
      && (exists j :: 0 <= j < |projs| && projs[j].0 == s && Contributes(w)(projs[j]))
      && (forall j :: 0 <= j < |projs| && Contributes(w)(projs[j]) ==> WeightOf(w)(projs[j].0) <= WeightOf(w)(s))
    ensures var s := BestProjection(w, projs).0.value;
      var es := Contributors(w, projs);
      exists k :: 0 <= k < |es| && es[k].0 == s &&
        forall j :: 0 <= j < k ==> WeightOf(w)(es[j].0) < WeightOf(w)(s)
  {
    var es := Contributors(w, projs);
    var sources := SourcesOf(es);
    var k := FirstMax(sources, WeightOf(w));
    var s := sources[k];
    assert BestProjection(w, projs).0 == Some(s);
    assert es[k].0 == s && Contributes(w)(es[k]);
    assert es[k] in projs;
    var i :| 0 <= i < |projs| && projs[i] == es[k];
    assert projs[i].0 == s && Contributes(w)(projs[i]);
    forall j | 0 <= j < |projs| && Contributes(w)(projs[j])
      ensures WeightOf(w)(projs[j].0) <= WeightOf(w)(s)
    {
      var m :| 0 <= m < |es| && es[m] == projs[j];
      assert sources[m] == projs[j].0;
    }
    forall j | 0 <= j < k
      ensures WeightOf(w)(es[j].0) < WeightOf(w)(s)
    {
      assert sources[j] == es[j].0;
    }
  }

  /** With weights in [lo, hi] bounds on the values, the weighted sum lies
      between lo and hi times the weight sum. */
  lemma {:induction false} WeightedSumBounds(w: Weights, es: Projections, lo: real, hi: real)
    requires forall j :: 0 <= j < |w| ==> w[j].1 >= 0.0
    requires forall k :: 0 <= k < |es| ==> lo <= es[k].1.GetOr(0.0) <= hi
    ensures Between(lo, hi, WeightSum(w, es), WeightedSum(w, es))
  {
    if es != [] {
      var n := |es| - 1;
      var c, x := WeightOf(w)(es[n].0), es[n].1.GetOr(0.0);
      assert forall k :: 0 <= k < n ==> es[..n][k] == es[k];
      WeightedSumBounds(w, es[..n], lo, hi);
      WeightOfNonNegative(w, es[n].0);
      BoundsStep(lo, hi, WeightSum(w, es[..n]), WeightedSum(w, es[..n]), c, x, WeightSum(w, es), WeightedSum(w, es));
    } else {
      ZeroBounds(lo, hi, WeightSum(w, es), WeightedSum(w, es));
    }
  }

  /** `sum` lies between `lo` and `hi` times `total`. */
  ghost predicate Between(lo: real, hi: real, total: real, sum: real) {
    lo * total <= sum <= hi * total
  }

  lemma ZeroBounds(lo: real, hi: real, total: real, sum: real)
    requires total == 0.0 && sum == 0.0
    ensures Between(lo, hi, total, sum)
  {
  }

  lemma WeightOfNonNegative(w: Weights, s: string)
    requires forall j :: 0 <= j < |w| ==> w[j].1 >= 0.0
    ensures WeightOf(w)(s) >= 0.0
  {
  }

  lemma BoundsStep(lo: real, hi: real, a: real, sa: real, c: real, x: real, total: real, sum: real)
    requires Between(lo, hi, a, sa)
    requires c >= 0.0 && lo <= x <= hi
    requires total == a + c && sum == sa + x * c
    ensures Between(lo, hi, total, sum)
  {
    assert lo * c <= x * c <= hi * c;
    assert lo * total == lo * a + lo * c;
    assert hi * total == hi * a + hi * c;
  }

  lemma {:induction false} WeightSumNonNegative(w: Weights, es: Projections)
    requires forall j :: 0 <= j < |w| ==> w[j].1 >= 0.0
    ensures WeightSum(w, es) >= 0.0
  {
    if es != [] {
      WeightSumNonNegative(w, es[..|es| - 1]);
      WeightOfNonNegative(w, es[|es| - 1].0);
    }
  }

  /** With no negative weight, the consensus lies between the smallest and
      the largest contributing value. */
  lemma ConsensusBetween(w: Weights, projs: Projections, lo: real, hi: real)
    requires forall j :: 0 <= j < |w| ==> w[j].1 >= 0.0
    requires forall j :: 0 <= j < |projs| && Contributes(w)(projs[j]) ==> lo <= projs[j].1.value <= hi
    requires BestProjection(w, projs).0.Some?
    ensures lo <= BestProjection(w, projs).1 <= hi
  {
    var es := Contributors(w, projs);
    forall k | 0 <= k < |es|
      ensures lo <= es[k].1.GetOr(0.0) <= hi
    {
      assert es[k] in projs;
    }
    WeightedSumBounds(w, es, lo, hi);
    WeightSumNonNegative(w, es);
    QuotientBetween(WeightedSum(w, es), WeightSum(w, es), lo, hi);
  }

  lemma QuotientBetween(s: real, t: real, lo: real, hi: real)
    requires t >= 0.0 && t != 0.0
    requires Between(lo, hi, t, s)
    ensures lo <= s / t <= hi
  {
    assert s / t * t == s;
  }

  // ---------------------------------------------------------------------
  // rank_sources_by_quality

  /** `(source, weights.get(source, 0))` for each contributing entry. */
  function AvailablePairs(w: Weights, projs: Projections): (r: seq<(string, real)>)
    ensures |r| == |Contributors(w, projs)|
  {
    var es := Contributors(w, projs);
    seq(|es|, i requires 0 <= i < |es| => (es[i].0, WeightOf(w)(es[i].0)))
  }

  function PairWeight(e: (string, real)): real {
    e.1
  }

  /** The pairs are exactly the contributing sources with their weights. */
  lemma AvailablePairsAreContributors(w: Weights, projs: Projections)
    ensures forall j :: 0 <= j < |projs| && Contributes(w)(projs[j]) ==>
      (projs[j].0, WeightOf(w)(projs[j].0)) in AvailablePairs(w, projs)
    ensures forall k :: 0 <= k < |AvailablePairs(w, projs)| ==>
      exists j :: 0 <= j < |projs| && Contributes(w)(projs[j]) &&
        AvailablePairs(w, projs)[k] == (projs[j].0, WeightOf(w)(projs[j].0))
  {
    var es := Contributors(w, projs);
    var ps := AvailablePairs(w, projs);
    forall j | 0 <= j < |projs| && Contributes(w)(projs[j])
      ensures (projs[j].0, WeightOf(w)(projs[j].0)) in ps
    {
      var m :| 0 <= m < |es| && es[m] == projs[j];
      assert ps[m] == (projs[j].0, WeightOf(w)(projs[j].0));
    }
    forall k | 0 <= k < |ps|
      ensures exists j :: 0 <= j < |projs| && Contributes(w)(projs[j]) && ps[k] == (projs[j].0, WeightOf(w)(projs[j].0))
    {
      assert es[k] in projs;
    }
  }

  // ---------------------------------------------------------------------
  // The weight table as an object

  /** `ProjectionConsensus` with its `source_weights` table. */
  class ProjectionConsensus {
    var sourceWeights: Weights

    ghost predicate Valid()
      reads this
    {
      DistinctKeys(sourceWeights) && Normalized(sourceWeights)
    }

    /** `__init__`: the custom table, or the defaults for None or an empty
        dict, normalised when the total is positive. */
    constructor(sourceWeights: Option<Weights>)
      requires sourceWeights.Some? ==> DistinctKeys(sourceWeights.value)
      ensures Valid()
      ensures this.sourceWeights == InitialWeights(sourceWeights)
    {
      var weights := if sourceWeights.None? || sourceWeights.value == [] then DefaultWeights else sourceWeights.value;
      var totalWeight := Total(weights);
      if totalWeight > 0.0 {
        weights := DivideBy(weights, totalWeight);
      }
      this.sourceWeights := weights;
      InitialWeightsAreNormalized(sourceWeights);
      DefaultWeightsAreDistinct();
    }

    /** The loop of `get_best_projection`: the sources that have a value
        and a weight, the sum of value times weight and the sum of the
        weights. */
    method TallyContributions(playerProjections: Projections) returns (availableSources: seq<string>, weightedSum: real, totalWeight: real)
      ensures (availableSources, weightedSum, totalWeight) == Tally(sourceWeights, playerProjections)
    {
      weightedSum, totalWeight := 0.0, 0.0;
      availableSources := [];
      var w := sourceWeights;
      for i := 0 to |playerProjections|
        invariant (availableSources, weightedSum, totalWeight) == Tally(w, playerProjections[..i])
      {
        var source := playerProjections[i].0;
        var projection := playerProjections[i].1;
        var weight := Lookup(w, source);
        TallyStep(w, playerProjections, i, weight, projection);
        if weight.Some? && projection.Some? {
          weightedSum := weightedSum + projection.value * weight.value;
          totalWeight := totalWeight + weight.value;
          availableSources := availableSources + [source];
        }
      }
      assert playerProjections[..|playerProjections|] == playerProjections;
    }

    /** `get_best_projection`. */
    method GetBestProjection(playerProjections: Projections) returns (bestSource: Option<string>, consensus: real)
      ensures (bestSource, consensus) == BestProjection(sourceWeights, playerProjections)
    {
      if playerProjections == [] {
        return None, 0.0;
      }
      var availableSources, weightedSum, totalWeight := TallyContributions(playerProjections);
      BestProjectionOfTally(sourceWeights, playerProjections);
      if totalWeight == 0.0 {
        return None, 0.0;
      }
      consensus := weightedSum / totalWeight;
      bestSource := Some(availableSources[FirstMax(availableSources, WeightOf(sourceWeights))]);
    }

    /** `get_consensus_projection`: the consensus of `get_best_projection`. */
    method GetConsensusProjection(playerProjections: Projections) returns (consensus: real)
      ensures consensus == BestProjection(sourceWeights, playerProjections).1
    {
      var _, value := GetBestProjection(playerProjections);
      return value;
    }

    /** `rank_sources_by_quality`: the contributing sources with their
        weights, heaviest first, equal weights in input order. */
    function RankSourcesByQuality(playerProjections: Projections): (r: seq<(string, real)>)
      reads this
      ensures SortedDesc(r, PairWeight)
      ensures multiset(r) == multiset(AvailablePairs(sourceWeights, playerProjections))
      ensures forall v ::
        Filter(r, KeyIs(PairWeight, v)) == Filter(AvailablePairs(sourceWeights, playerProjections), KeyIs(PairWeight, v))
    {
      SortDescIsStableSort(AvailablePairs(sourceWeights, playerProjections), PairWeight);
      SortDesc(AvailablePairs(sourceWeights, playerProjections), PairWeight)
    }

    /** `update_source_weight`. */
    method UpdateSourceWeight(source: string, newWeight: real)
      requires Valid()
      modifies this
      ensures Valid()
      ensures sourceWeights == UpdatedWeights(old(sourceWeights), source, newWeight)
      ensures SourcesOf(sourceWeights) == SourcesOf(old(sourceWeights))
    {
      ghost var w := sourceWeights;
      UpdatedWeightsKeepSources(w, source, newWeight);
      if Lookup(sourceWeights, source).Some? {
        sourceWeights := SetValue(sourceWeights, source, Clamp(newWeight));
        var totalWeight := Total(sourceWeights);
        if totalWeight > 0.0 {
          sourceWeights := DivideBy(sourceWeights, totalWeight);
        }
      }
      forall i, j | 0 <= i < j < |sourceWeights|
        ensures sourceWeights[i].0 != sourceWeights[j].0
      {
        assert SourcesOf(sourceWeights)[i] == w[i].0;
        assert SourcesOf(sourceWeights)[j] == w[j].0;
      }
    }

    /** `get_source_weights`: the table, which is a dict that sums to 1
        when its total is positive. */
    function GetSourceWeights(): (r: Weights)
      reads this
      ensures Valid() ==> DistinctKeys(r) && Normalized(r)
      ensures SourcesOf(r) == SourcesOf(sourceWeights)
    {
      sourceWeights
    }

    /** `reset_to_default_weights`: the five defaults. */
    method ResetToDefaultWeights()
      modifies this
      ensures Valid()
      ensures sourceWeights == DefaultWeights
    {
      sourceWeights := InitialWeights(None);
      InitialWeightsAreNormalized(None);
      DefaultWeightsAreDistinct();
    }
  }

  // ---------------------------------------------------------------------
  // ProjectionAggregator

  /** The default `threshold` of `_names_match`. */
  const NamesMatchThreshold: real := 0.8

  /** `_names_match`: the lower-cased, stripped names are equal, or their
      ratio reaches the threshold.  Unlike `FuzzyMatch` there is no
      whitespace collapse, no period or suffix rule, and "" matches "". */
  predicate NamesMatch(name1: string, name2: string, threshold: real, ratio: RatioFn) {
    var norm1, norm2 := Strip(Lower(name1)), Strip(Lower(name2));
    norm1 == norm2 || ratio(norm1, norm2) >= threshold
  }

  /** Names that differ only in case and surrounding whitespace match, for
      every threshold. */
  lemma NamesMatchIgnoresCaseAndEdges(name1: string, name2: string, threshold: real, ratio: RatioFn)
    requires Strip(Lower(name1)) == Strip(Lower(name2))
    ensures NamesMatch(name1, name2, threshold, ratio)
  {
  }

  /** The two matchers disagree on empty names: `_names_match` accepts
      two of them, `fuzzy_match` rejects them. */
  lemma NamesMatchAcceptsEmptyNames(threshold: real, ratio: RatioFn)
    ensures NamesMatch("", "", threshold, ratio)
    ensures !FuzzyMatch("", "", threshold, ratio)
  {
  }

  /** The roster label of a matched player: the full ID when it is
      non-empty, else `{game_id}${yahoo_player_id}` with "unknown" for a
      missing part, then " - " and the title-cased name. */
  function IdLabel(player: RosterPlayer, playerName: string): (r: string)
    ensures EndsWith(r, " - " + Title(playerName))
  {
    var id :=
      if player.fullYahooId.Some? && player.fullYahooId.value != "" then player.fullYahooId.value
      else player.gameId.GetOr("unknown") + "$" + player.yahooPlayerId.GetOr("unknown");
    assert (id + " - " + Title(playerName))[|id|..] == " - " + Title(playerName);
    id + " - " + Title(playerName)
  }

  /** `_names_match(player_name, yahoo_name)`, as a test on roster entries. */
  function RosterMatcher(playerName: string, ratio: RatioFn): ((string, RosterPlayer)) -> bool {
    (e: (string, RosterPlayer)) => NamesMatch(playerName, e.0, NamesMatchThreshold, ratio)
  }

  /** What `_format_player_name_with_id` returns. */
  function FormattedName(playerName: string, yahooPlayers: Option<seq<(string, RosterPlayer)>>, ratio: RatioFn): string {
    if yahooPlayers.None? || yahooPlayers.value == [] then playerName
    else
      var k := FindFirst(yahooPlayers.value, RosterMatcher(playerName, ratio));
      if k < 0 then playerName else IdLabel(yahooPlayers.value[k].1, playerName)
  }

  /** Without a roster the name is unchanged. */
  lemma FormattedNameWithoutRoster(playerName: string, ratio: RatioFn)
    ensures FormattedName(playerName, None, ratio) == playerName
  {
  }

  /** Without a matching roster entry the name is unchanged. */
  lemma FormattedNameWithoutMatch(playerName: string, roster: seq<(string, RosterPlayer)>, ratio: RatioFn)
    requires forall i :: 0 <= i < |roster| ==> !NamesMatch(playerName, roster[i].0, NamesMatchThreshold, ratio)
    ensures FormattedName(playerName, Some(roster), ratio) == playerName
  {
    var m := RosterMatcher(playerName, ratio);
    assert forall i :: 0 <= i < |roster| ==> !m(roster[i]);
  }

  /** With a matching roster entry the name is the label of the first one. */
  lemma FormattedNameFirstMatch(playerName: string, roster: seq<(string, RosterPlayer)>, k: int, ratio: RatioFn)
    requires 0 <= k < |roster| && NamesMatch(playerName, roster[k].0, NamesMatchThreshold, ratio)
    requires forall i :: 0 <= i < k ==> !NamesMatch(playerName, roster[i].0, NamesMatchThreshold, ratio)
    ensures FormattedName(playerName, Some(roster), ratio) == IdLabel(roster[k].1, playerName)
  {
    var m := RosterMatcher(playerName, ratio);
    assert forall i :: 0 <= i < k ==> !m(roster[i]);
    FindFirstAt(roster, m, k);
    var idLabel := IdLabel(roster[k].1, playerName);
    assert FormattedName(playerName, Some(roster), ratio) == idLabel by {
      assert roster != [] && FindFirst(roster, m) == k;
    }
  }

  /** `len([p for p in projections.values() if p is not None])`. */
  function CountValues(projs: Projections): nat {
    |Filter(projs, HasValue)|
  }

  function HasValue(e: (string, Option<real>)): bool {
    e.1.Some?
  }

  /** The count takes in every value, including those of unregistered
      sources, so it is never below the number of contributors, and above
      it exactly when some unregistered source has a value. */
  lemma CountValuesCoversContributors(w: Weights, projs: Projections)
    ensures |Contributors(w, projs)| <= CountValues(projs)
    ensures (exists j :: 0 <= j < |projs| && projs[j].1.Some? && Lookup(w, projs[j].0).None?) ==>
      |Contributors(w, projs)| < CountValues(projs)
    ensures (forall j :: 0 <= j < |projs| && projs[j].1.Some? ==> Lookup(w, projs[j].0).Some?) ==>
      |Contributors(w, projs)| == CountValues(projs)
  {
    FilterLengthMonotone(projs, Contributes(w), HasValue);
  }

  /** One entry of `aggregate_player_projections`. */
  datatype PlayerAggregate = PlayerAggregate(
    formattedName: string,
    consensusProjection: real,
    bestSource: Option<string>,
    sourceRankings: seq<(string, real)>,
    allProjections: Projections,
    projectionCount: nat)

  /** The record `aggregate_player_projections` builds for one player
      under the weight table `w`. */
  function Aggregate(w: Weights, name: string, projs: Projections,
                     yahooPlayers: Option<seq<(string, RosterPlayer)>>, ratio: RatioFn): PlayerAggregate
  {
    PlayerAggregate(
      FormattedName(name, yahooPlayers, ratio),
      BestProjection(w, projs).1,
      BestProjection(w, projs).0,
      SortDesc(AvailablePairs(w, projs), PairWeight),
      projs,
      CountValues(projs))
  }

  /** The entry of one player of the input. */
  function AggregateEntry(w: Weights, yahooPlayers: Option<seq<(string, RosterPlayer)>>, ratio: RatioFn)
    : ((string, Projections)) -> (string, PlayerAggregate)
  {
    (e: (string, Projections)) => (e.0, Aggregate(w, e.0, e.1, yahooPlayers, ratio))
  }

  /** `ProjectionAggregator`, holding the consensus engine it consults. */
  class ProjectionAggregator {
    const consensus: ProjectionConsensus

    constructor(consensus: ProjectionConsensus)
      ensures this.consensus == consensus
    {
      this.consensus := consensus;
    }

    /** `aggregate_player_projections`: one record per player, in input
        order, built from the consensus, the ranking and the roster label. */
    method AggregatePlayerProjections(allProjections: seq<(string, Projections)>,
                                      yahooPlayers: Option<seq<(string, RosterPlayer)>>, ratio: RatioFn)
      returns (aggregated: seq<(string, PlayerAggregate)>)
      ensures |aggregated| == |allProjections|
      ensures forall i :: 0 <= i < |allProjections| ==>
        aggregated[i] == (allProjections[i].0,
          Aggregate(consensus.sourceWeights, allProjections[i].0, allProjections[i].1, yahooPlayers, ratio))
    {
      aggregated := [];
      ghost var f := AggregateEntry(consensus.sourceWeights, yahooPlayers, ratio);
      for i := 0 to |allProjections|
        invariant aggregated == MapSeq(allProjections[..i], f)
      {
        var playerName := allProjections[i].0;
        var record := AggregatePlayer(playerName, allProjections[i].1, yahooPlayers, ratio);
        MapSeqStep(allProjections, f, i);
        aggregated := aggregated + [(playerName, record)];
      }
      assert allProjections[..|allProjections|] == allProjections;
      forall i | 0 <= i < |allProjections|
        ensures aggregated[i] == f(allProjections[i])
      {
        MapSeqAt(allProjections, f, i);
      }
    }

    /** The body of the loop of `aggregate_player_projections`: the record
        of one player. */
    method AggregatePlayer(playerName: string, projections: Projections,
                           yahooPlayers: Option<seq<(string, RosterPlayer)>>, ratio: RatioFn)
      returns (record: PlayerAggregate)
      ensures record == Aggregate(consensus.sourceWeights, playerName, projections, yahooPlayers, ratio)
    {
      var bestSource, consensusValue := consensus.GetBestProjection(projections);
      var sourceRankings := consensus.RankSourcesByQuality(projections);
      var formattedName := FormatPlayerNameWithId(playerName, yahooPlayers, ratio);
      var count := |Filter(projections, HasValue)|;
      record := PlayerAggregate(formattedName, consensusValue, bestSource, sourceRankings, projections, count);
    }

    /** `_format_player_name_with_id`. */
    method FormatPlayerNameWithId(playerName: string, yahooPlayers: Option<seq<(string, RosterPlayer)>>, ratio: RatioFn)
      returns (r: string)
      ensures r == FormattedName(playerName, yahooPlayers, ratio)
    {
      if yahooPlayers.None? || yahooPlayers.value == [] {
        return playerName;
      }
      var players := yahooPlayers.value;
      ghost var m := RosterMatcher(playerName, ratio);
      for i := 0 to |players|
        invariant FindFirst(players[..i], m) == -1
      {
        var (yahooName, yahooData) := players[i];
        assert players[..i + 1][..i] == players[..i];
        if NamesMatch(playerName, yahooName, NamesMatchThreshold, ratio) {
          FindFirstExtend(players, i + 1, m);
          var fullYahooId := yahooData.fullYahooId;
          if fullYahooId.Some? && fullYahooId.value != "" {
            return fullYahooId.value + " - " + Title(playerName);
          } else {
            var playerId := yahooData.yahooPlayerId.GetOr("unknown");
            var gameId := yahooData.gameId.GetOr("unknown");
            return gameId + "$" + playerId + " - " + Title(playerName);
          }
        }
      }
      assert players[..|players|] == players;
      return playerName;
    }
  }
}
