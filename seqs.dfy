/**
 * Sequence helpers for the list comprehensions and the "group by key,
 * first appearance first" dictionaries of the modelled code.  Every
 * function is defined by peeling off the LAST element, so that a loop that
 * appends one element at a time keeps `acc == F(xs[..i])` as its invariant.
 */
module Seqs {
  import opened Wrappers

  /** `[x for x in s if p(x)]`. */
  function Filter<T>(s: seq<T>, p: T -> bool): (r: seq<T>)
    ensures |r| <= |s|
    ensures forall i :: 0 <= i < |r| ==> r[i] in s
    ensures forall i :: 0 <= i < |s| && p(s[i]) ==> s[i] in r
    ensures forall i :: 0 <= i < |r| ==> p(r[i])
  {
    if s == [] then []
    else Filter(s[..|s| - 1], p) + (if p(s[|s| - 1]) then [s[|s| - 1]] else [])
  }

  lemma {:induction false} FilterAppend<T>(a: seq<T>, b: seq<T>, p: T -> bool)
    ensures Filter(a + b, p) == Filter(a, p) + Filter(b, p)
  {
    if b != [] {
      assert (a + b)[..|a + b| - 1] == a + b[..|b| - 1];
      FilterAppend(a, b[..|b| - 1], p);
    } else {
      assert a + b == a;
    }
  }

  lemma {:induction false} FilterAll<T>(s: seq<T>, p: T -> bool)
    requires forall i :: 0 <= i < |s| ==> p(s[i])
    ensures Filter(s, p) == s
  {
    if s != [] {
      FilterAll(s[..|s| - 1], p);
    }
  }

  /** The distinct elements of `ks`, in order of first appearance: the key
      order of a Python dict filled by `if k not in d: d[k] = ...`. */
  function Dedup<K(==)>(ks: seq<K>): (r: seq<K>)
    ensures forall i, j :: 0 <= i < j < |r| ==> r[i] != r[j]
    ensures |r| <= |ks|
  {
    if ks == [] then []
    else
      var d := Dedup(ks[..|ks| - 1]);
      if ks[|ks| - 1] in d then d else d + [ks[|ks| - 1]]
  }

  /** `Dedup` keeps every element and adds none. */
  lemma {:induction false} DedupContains<K>(ks: seq<K>, k: K)
    ensures k in Dedup(ks) <==> k in ks
  {
    if ks != [] {
      var n := |ks| - 1;
      DedupContains(ks[..n], k);
      assert ks == ks[..n] + [ks[n]];
    }
  }

  /** The elements of `xs` whose key is `k`, in order: the list a grouping
      loop appends to under key `k`. */
  function Select<T, K(==)>(xs: seq<T>, key: T -> K, k: K): (r: seq<T>)
    ensures |r| <= |xs|
    ensures forall i :: 0 <= i < |r| ==> key(r[i]) == k
    ensures forall i :: 0 <= i < |xs| && key(xs[i]) == k ==> xs[i] in r
  {
    if xs == [] then []
    else Select(xs[..|xs| - 1], key, k) + (if key(xs[|xs| - 1]) == k then [xs[|xs| - 1]] else [])
  }

  function Keys<T, K>(xs: seq<T>, key: T -> K): (r: seq<K>)
    ensures |r| == |xs|
    ensures forall i :: 0 <= i < |xs| ==> r[i] == key(xs[i])
  {
    if xs == [] then [] else Keys(xs[..|xs| - 1], key) + [key(xs[|xs| - 1])]
  }

  /** A key that occurs in `xs` selects a non-empty group. */
  lemma {:induction false} SelectNonEmpty<T, K>(xs: seq<T>, key: T -> K, k: K)
    requires k in Keys(xs, key)
    ensures Select(xs, key, k) != []
    ensures Select(xs, key, k)[0] == xs[FirstIndex(xs, key, k)]
  {
    var n := |xs| - 1;
    assert Keys(xs, key) == Keys(xs[..n], key) + [key(xs[n])];
    if k in Keys(xs[..n], key) {
      SelectNonEmpty(xs[..n], key, k);
      var i, j := FirstIndex(xs, key, k), FirstIndex(xs[..n], key, k);
      assert xs[..n][j] == xs[j];
      assert i == j;
    } else {
      SelectEmpty(xs[..n], key, k);
    }
  }

  lemma {:induction false} SelectEmpty<T, K>(xs: seq<T>, key: T -> K, k: K)
    requires k !in Keys(xs, key)
    ensures Select(xs, key, k) == []
  {
    if xs != [] {
      assert Keys(xs, key)[|xs| - 1] == key(xs[|xs| - 1]);
      SelectEmpty(xs[..|xs| - 1], key, k);
    }
  }

  /** The index of the first element of `xs` with key `k`. */
  function FirstIndex<T, K(==)>(xs: seq<T>, key: T -> K, k: K): (i: nat)
    requires k in Keys(xs, key)
    ensures i < |xs| && key(xs[i]) == k
    ensures forall j :: 0 <= j < i ==> key(xs[j]) != k
  {
    if key(xs[0]) == k then 0
    else
      assert Keys(xs, key)[1..] == Keys(xs[1..], key) by {
        KeysTail(xs, key);
      }
      1 + FirstIndex(xs[1..], key, k)
  }

  // ---------------------------------------------------------------------
  // Grouping: `if k not in d: d[k] = []` then `d[k].append(x)`, the dict
  // kept as (key, list) pairs in insertion order

  /** The entries of a (key, list) table whose key is `k`. */
  function HasKey<K(==), V>(k: K): ((K, V)) -> bool {
    (g: (K, V)) => g.0 == k
  }

  function KeyOfGroup<K, V>(g: (K, V)): K {
    g.0
  }

  /** `d.setdefault(k, []).append(x)`: a new entry `(k, [x])` at the end
      for a new key, otherwise `x` appended to the list of `k`. */
  function AddToGroup<T, K(==)>(groups: seq<(K, seq<T>)>, k: K, x: T): seq<(K, seq<T>)> {
    var j := FindFirst(groups, HasKey(k));
    if j < 0 then groups + [(k, [x])] else groups[j := (k, groups[j].1 + [x])]
  }

  /** The table the grouping loop has built after adding every element of
      `xs` in order. */
  function Group<T, K(==)>(xs: seq<T>, key: T -> K): seq<(K, seq<T>)> {
    if xs == [] then []
    else AddToGroup(Group(xs[..|xs| - 1], key), key(xs[|xs| - 1]), xs[|xs| - 1])
  }

  /** One more element: the loop's next step. */
  lemma GroupAppend<T, K>(xs: seq<T>, x: T, key: T -> K)
    ensures Group(xs + [x], key) == AddToGroup(Group(xs, key), key(x), x)
  {
    assert (xs + [x])[..|xs|] == xs;
  }

  /** The grouping table holds one entry per distinct key, in order of first
      appearance, and the list of each key holds exactly the elements with
      that key, in input order. */
  lemma {:induction false} GroupIsSelect<T, K>(xs: seq<T>, key: T -> K)
    ensures Keys(Group(xs, key), KeyOfGroup) == Dedup(Keys(xs, key))
    ensures forall j :: 0 <= j < |Group(xs, key)| ==> Group(xs, key)[j].1 == Select(xs, key, Group(xs, key)[j].0)
  {
    if xs != [] {
      var n := |xs| - 1;
      var p, x := xs[..n], xs[n];
      assert xs == p + [x];
      GroupIsSelect(p, key);
      var g := Group(p, key);
      KeysSnoc(p, x, key);
      DedupSnoc(Keys(p, key), key(x));
      var j := FindFirst(g, HasKey(key(x)));
      if j < 0 {
        NewKeyKeys(p, x, key, g);
        NewKeySelect(p, x, key, g);
      } else {
        assert g[j].0 == key(x);
        OldKeyKeys(p, x, key, g, j);
        OldKeySelect(p, x, key, g, j);
      }
    }
  }

  /** Each key occurs once in the table. */
  lemma GroupKeysDistinct<T, K>(xs: seq<T>, key: T -> K)
    ensures forall i, j :: 0 <= i < j < |Group(xs, key)| ==> Group(xs, key)[i].0 != Group(xs, key)[j].0
  {
    var g := Group(xs, key);
    GroupIsSelect(xs, key);
    forall i, j | 0 <= i < j < |g|
      ensures g[i].0 != g[j].0
    {
      assert Keys(g, KeyOfGroup)[i] == g[i].0 && Keys(g, KeyOfGroup)[j] == g[j].0;
    }
  }

  /** Entry `j` of the table: a key of `xs` whose list is non-empty, holds
      exactly the elements with that key and starts with the first of them. */
  lemma GroupEntry<T, K>(xs: seq<T>, key: T -> K, j: nat)
    requires j < |Group(xs, key)|
    ensures Group(xs, key)[j].0 in Keys(xs, key)
    ensures Group(xs, key)[j].1 == Select(xs, key, Group(xs, key)[j].0)
    ensures Group(xs, key)[j].1 != []
    ensures Group(xs, key)[j].1[0] == xs[FirstIndex(xs, key, Group(xs, key)[j].0)]
  {
    var g := Group(xs, key);
    GroupIsSelect(xs, key);
    assert Keys(g, KeyOfGroup)[j] == g[j].0;
    DedupContains(Keys(xs, key), g[j].0);
    SelectNonEmpty(xs, key, g[j].0);
  }

  /** Filtering a table with distinct keys leaves distinct keys. */
  lemma {:induction false} FilterKeysDistinct<K, V>(s: seq<(K, V)>, p: ((K, V)) -> bool)
    requires forall i, j :: 0 <= i < j < |s| ==> s[i].0 != s[j].0
    ensures forall i, j :: 0 <= i < j < |Filter(s, p)| ==> Filter(s, p)[i].0 != Filter(s, p)[j].0
  {
    if s != [] {
      var n := |s| - 1;
      var f := Filter(s[..n], p);
      assert forall i, j :: 0 <= i < j < n ==> s[..n][i].0 != s[..n][j].0;
      FilterKeysDistinct(s[..n], p);
      if p(s[n]) {
        var r := Filter(s, p);
        assert r == f + [s[n]];
        forall i, j | 0 <= i < j < |r|
          ensures r[i].0 != r[j].0
        {
          assert r[i] == f[i];
          if j == |f| {
            var k :| 0 <= k < n && s[..n][k] == f[i];
            assert s[k] == f[i];
          } else {
            assert r[j] == f[j];
          }
        }
      } else {
        assert Filter(s, p) == f;
      }
    }
  }

  // ---------------------------------------------------------------------
  // Counting: `d[k] = d.get(k, 0) + 1`, the dict kept as (key, count)
  // pairs in insertion order

  /** One more occurrence of `k`: a new entry `(k, 1)` at the end for a new
      key, otherwise the count of `k` raised by one. */
  function Bump<K(==)>(h: seq<(K, nat)>, k: K): seq<(K, nat)> {
    var j := FindFirst(h, HasKey(k));
    if j < 0 then h + [(k, 1)] else h[j := (k, h[j].1 + 1)]
  }

  /** The counter table the counting loop has built after counting the key
      of every element of `xs` in order. */
  function Histogram<T, K(==)>(xs: seq<T>, key: T -> K): seq<(K, nat)> {
    if xs == [] then []
    else Bump(Histogram(xs[..|xs| - 1], key), key(xs[|xs| - 1]))
  }

  /** The sum of the counts of a counter table. */
  function CountTotal<K>(h: seq<(K, nat)>): nat {
    if h == [] then 0 else CountTotal(h[..|h| - 1]) + h[|h| - 1].1
  }

  /** Two tables with the same keys, position by position, find a key at
      the same position. */
  lemma FindFirstSameKeys<K, V, W>(a: seq<(K, V)>, b: seq<(K, W)>, k: K)
    requires |a| == |b| && forall j :: 0 <= j < |a| ==> a[j].0 == b[j].0
    ensures FindFirst(a, HasKey(k)) == FindFirst(b, HasKey(k))
  {
    var i, i' := FindFirst(a, HasKey(k)), FindFirst(b, HasKey(k));
    assert forall j :: 0 <= j < |a| ==> (HasKey(k)(a[j]) <==> HasKey(k)(b[j]));
    if i >= 0 && i' >= 0 {
      assert !(i < i') && !(i' < i);
    }
  }

  /** The counter table is the grouping table with each list replaced by
      its length. */
  lemma {:induction false} HistogramIsGroup<T, K>(xs: seq<T>, key: T -> K)
    ensures |Histogram(xs, key)| == |Group(xs, key)|
    ensures forall j :: 0 <= j < |Group(xs, key)| ==>
      Histogram(xs, key)[j] == (Group(xs, key)[j].0, |Group(xs, key)[j].1|)
  {
    if xs != [] {
      var n := |xs| - 1;
      HistogramIsGroup(xs[..n], key);
      BumpMatchesAdd(Histogram(xs[..n], key), Group(xs[..n], key), key(xs[n]), xs[n]);
    }
  }

  /** One counting step matches one grouping step. */
  lemma BumpMatchesAdd<T, K>(h: seq<(K, nat)>, g: seq<(K, seq<T>)>, k: K, x: T)
    requires |h| == |g|
    requires forall j :: 0 <= j < |g| ==> h[j] == (g[j].0, |g[j].1|)
    ensures |Bump(h, k)| == |AddToGroup(g, k, x)|
    ensures forall j :: 0 <= j < |AddToGroup(g, k, x)| ==>
      Bump(h, k)[j] == (AddToGroup(g, k, x)[j].0, |AddToGroup(g, k, x)[j].1|)
  {
    FindFirstSameKeys(h, g, k);
  }

  /** One entry per distinct key, in order of first appearance, each
      counting exactly the elements with that key. */
  lemma HistogramCounts<T, K>(xs: seq<T>, key: T -> K)
    ensures Keys(Histogram(xs, key), KeyOfGroup) == Dedup(Keys(xs, key))
    ensures forall j :: 0 <= j < |Histogram(xs, key)| ==>
      Histogram(xs, key)[j].1 == |Select(xs, key, Histogram(xs, key)[j].0)| > 0
  {
    var h, g := Histogram(xs, key), Group(xs, key);
    HistogramIsGroup(xs, key);
    GroupIsSelect(xs, key);
    assert Keys(h, KeyOfGroup) == Keys(g, KeyOfGroup);
    forall j | 0 <= j < |h|
      ensures h[j].1 == |Select(xs, key, h[j].0)| > 0
    {
      GroupEntry(xs, key, j);
    }
  }

  lemma {:induction false} CountTotalUpdate<K>(h: seq<(K, nat)>, j: nat, e: (K, nat))
    requires j < |h|
    ensures CountTotal(h[j := e]) == CountTotal(h) - h[j].1 + e.1
  {
    var n := |h| - 1;
    if j < n {
      assert h[j := e][..n] == h[..n][j := e];
      CountTotalUpdate(h[..n], j, e);
    } else {
      assert h[j := e][..n] == h[..n];
    }
  }

  /** Every element is counted once: the counts add up to `|xs|`. */
  lemma {:induction false} HistogramTotal<T, K>(xs: seq<T>, key: T -> K)
    ensures CountTotal(Histogram(xs, key)) == |xs|
  {
    if xs != [] {
      var n := |xs| - 1;
      var h := Histogram(xs[..n], key);
      HistogramTotal(xs[..n], key);
      var j := FindFirst(h, HasKey(key(xs[n])));
      if j < 0 {
        assert (h + [(key(xs[n]), 1)])[..|h|] == h;
      } else {
        CountTotalUpdate(h, j, (key(xs[n]), h[j].1 + 1));
      }
    }
  }

  /** Two filters in a row are one filter by both tests. */
  lemma {:induction false} FilterFilter<T>(s: seq<T>, p: T -> bool, q: T -> bool, both: T -> bool)
    requires forall x :: both(x) <==> p(x) && q(x)
    ensures Filter(Filter(s, p), q) == Filter(s, both)
  {
    if s != [] {
      var n := |s| - 1;
      var x := s[n];
      FilterFilter(s[..n], p, q, both);
      assert Filter(s, both) == Filter(s[..n], both) + if both(x) then [x] else [];
      if p(x) {
        assert Filter(s, p) == Filter(s[..n], p) + [x];
        FilterAppend(Filter(s[..n], p), [x], q);
        assert [x][..0] == [];
        assert Filter([x], q) == if q(x) then [x] else [];
      } else {
        assert Filter(s, p) == Filter(s[..n], p);
      }
    }
  }

  // ---------------------------------------------------------------------
  // `for x in xs: y = f(x); if y: out.append(y)`

  /** `[x]` for `Some(x)`, `[]` for `None`. */
  function Listed<T>(o: Option<T>): seq<T> {
    if o.Some? then [o.value] else []
  }

  /** The present results of `f` on `xs`, in order. */
  function Present<T, U>(xs: seq<T>, f: T -> Option<U>): (r: seq<U>)
    ensures |r| <= |xs|
  {
    if xs == [] then [] else Present(xs[..|xs| - 1], f) + Listed(f(xs[|xs| - 1]))
  }

  lemma PresentStep<T, U>(xs: seq<T>, i: nat, f: T -> Option<U>)
    requires i < |xs|
    ensures Present(xs[..i + 1], f) == Present(xs[..i], f) + Listed(f(xs[i]))
  {
    assert xs[..i + 1][..i] == xs[..i];
  }

  /** Every result comes from an element, and every element with a result
      contributes it. */
  lemma {:induction false} PresentSpec<T, U>(xs: seq<T>, f: T -> Option<U>)
    ensures forall i :: 0 <= i < |Present(xs, f)| ==>
      exists j :: 0 <= j < |xs| && f(xs[j]) == Some(Present(xs, f)[i])
    ensures forall j :: 0 <= j < |xs| && f(xs[j]).Some? ==> f(xs[j]).value in Present(xs, f)
  {
    if xs != [] {
      var n := |xs| - 1;
      var p := xs[..n];
      PresentSpec(p, f);
      assert forall j :: 0 <= j < n ==> p[j] == xs[j];
      var r, rp := Present(xs, f), Present(p, f);
      assert r == rp + Listed(f(xs[n]));
      assert forall i :: 0 <= i < |rp| ==> r[i] == rp[i];
      forall i | 0 <= i < |r|
        ensures exists j :: 0 <= j < |xs| && f(xs[j]) == Some(r[i])
      {
        if i < |rp| {
          var j :| 0 <= j < |p| && f(p[j]) == Some(rp[i]);
          assert f(xs[j]) == Some(r[i]);
        } else {
          assert f(xs[n]) == Some(r[i]);
        }
      }
      forall j | 0 <= j < |xs| && f(xs[j]).Some?
        ensures f(xs[j]).value in r
      {
        if j == n {
          assert r[|rp|] == f(xs[n]).value;
        } else {
          assert f(p[j]).value in rp;
        }
      }
    } else {
      assert Present(xs, f) == [];
    }
  }

  /** Every element's key has an entry. */
  lemma GroupCovers<T, K>(xs: seq<T>, key: T -> K, i: nat)
    requires i < |xs|
    ensures exists j :: 0 <= j < |Group(xs, key)| && Group(xs, key)[j].0 == key(xs[i])
  {
    var g := Group(xs, key);
    var ks := Keys(g, KeyOfGroup);
    GroupKeysAreDedup(xs, key);
    assert Keys(xs, key)[i] == key(xs[i]);
    DedupContains(Keys(xs, key), key(xs[i]));
    assert key(xs[i]) in ks;
    var j :| 0 <= j < |ks| && ks[j] == key(xs[i]);
    assert g[j].0 == key(xs[i]);
  }

  /** The keys of the table, in order, are the distinct keys of `xs` in
      order of first appearance. */
  lemma GroupKeysAreDedup<T, K>(xs: seq<T>, key: T -> K)
    ensures Keys(Group(xs, key), KeyOfGroup) == Dedup(Keys(xs, key))
  {
    GroupIsSelect(xs, key);
  }

  lemma NewKeyKeys<T, K>(p: seq<T>, x: T, key: T -> K, g: seq<(K, seq<T>)>)
    requires Keys(g, KeyOfGroup) == Dedup(Keys(p, key))
    requires forall j :: 0 <= j < |g| ==> g[j].0 != key(x)
    ensures key(x) !in Keys(p, key)
    ensures Keys(g + [(key(x), [x])], KeyOfGroup) == Dedup(Keys(p + [x], key))
  {
    var k := key(x);
    var d := Dedup(Keys(p, key));
    assert k !in d;
    DedupContains(Keys(p, key), k);
    KeysSnoc(p, x, key);
    DedupSnoc(Keys(p, key), k);
    KeysSnoc(g, (k, [x]), KeyOfGroup);
  }

  lemma NewKeySelect<T, K>(p: seq<T>, x: T, key: T -> K, g: seq<(K, seq<T>)>)
    requires key(x) !in Keys(p, key)
    requires forall j :: 0 <= j < |g| ==> g[j].1 == Select(p, key, g[j].0)
    requires forall j :: 0 <= j < |g| ==> g[j].0 != key(x)
    ensures forall j :: 0 <= j < |g| + 1 ==> (g + [(key(x), [x])])[j].1 == Select(p + [x], key, (g + [(key(x), [x])])[j].0)
  {
    var k := key(x);
    var h := g + [(k, [x])];
    forall j | 0 <= j < |h|
      ensures h[j].1 == Select(p + [x], key, h[j].0)
    {
      if j < |g| {
        assert h[j] == g[j];
        SelectSnoc(p, x, key, g[j].0);
      } else {
        SelectEmpty(p, key, k);
        SelectSnoc(p, x, key, k);
      }
    }
  }

  lemma OldKeyKeys<T, K>(p: seq<T>, x: T, key: T -> K, g: seq<(K, seq<T>)>, j: nat)
    requires Keys(g, KeyOfGroup) == Dedup(Keys(p, key))
    requires j < |g| && g[j].0 == key(x)
    ensures Keys(g[j := (key(x), g[j].1 + [x])], KeyOfGroup) == Dedup(Keys(p + [x], key))
  {
    var k := key(x);
    var h := g[j := (k, g[j].1 + [x])];
    var ks := Keys(g, KeyOfGroup);
    assert ks[j] == k;
    assert k in Dedup(Keys(p, key));
    KeysSnoc(p, x, key);
    DedupSnoc(Keys(p, key), k);
    forall i | 0 <= i < |h|
      ensures Keys(h, KeyOfGroup)[i] == ks[i]
    {
      if i == j {
        assert h[i].0 == k;
      } else {
        assert h[i] == g[i];
      }
    }
    assert Keys(h, KeyOfGroup) == ks;
  }

  lemma OldKeySelect<T, K>(p: seq<T>, x: T, key: T -> K, g: seq<(K, seq<T>)>, j: nat)
    requires Keys(g, KeyOfGroup) == Dedup(Keys(p, key))
    requires forall i :: 0 <= i < |g| ==> g[i].1 == Select(p, key, g[i].0)
    requires j < |g| && g[j].0 == key(x)
    ensures forall i :: 0 <= i < |g| ==> g[j := (key(x), g[j].1 + [x])][i].1 == Select(p + [x], key, g[i].0)
  {
    var h := g[j := (key(x), g[j].1 + [x])];
    forall i | 0 <= i < |g|
      ensures h[i].1 == Select(p + [x], key, g[i].0)
    {
      SelectSnoc(p, x, key, g[i].0);
      if i != j {
        assert Keys(g, KeyOfGroup)[i] == g[i].0 && Keys(g, KeyOfGroup)[j] == g[j].0;
      }
    }
  }

  /** One more element of `xs` after the fixed prefix `a`. */
  lemma PrefixStep<T>(a: seq<T>, xs: seq<T>, j: nat)
    requires j < |xs|
    ensures a + xs[..j + 1] == (a + xs[..j]) + [xs[j]]
  {
    assert xs[..j + 1] == xs[..j] + [xs[j]];
  }

  lemma KeysSnoc<T, K>(xs: seq<T>, x: T, key: T -> K)
    ensures Keys(xs + [x], key) == Keys(xs, key) + [key(x)]
  {
    assert (xs + [x])[..|xs|] == xs;
  }

  lemma DedupSnoc<K>(ks: seq<K>, k: K)
    ensures Dedup(ks + [k]) == if k in Dedup(ks) then Dedup(ks) else Dedup(ks) + [k]
  {
    assert (ks + [k])[..|ks|] == ks;
  }

  lemma SelectSnoc<T, K>(xs: seq<T>, x: T, key: T -> K, c: K)
    ensures Select(xs + [x], key, c) == Select(xs, key, c) + (if key(x) == c then [x] else [])
  {
    assert (xs + [x])[..|xs|] == xs;
  }

  lemma KeysTail<T, K>(xs: seq<T>, key: T -> K)
    requires xs != []
    ensures Keys(xs, key)[1..] == Keys(xs[1..], key)
  {
  }

  function Sum(s: seq<real>): real {
    if s == [] then 0.0 else Sum(s[..|s| - 1]) + s[|s| - 1]
  }

  lemma {:induction false} SumAppend(a: seq<real>, b: seq<real>)
    ensures Sum(a + b) == Sum(a) + Sum(b)
  {
    if b != [] {
      assert (a + b)[..|a + b| - 1] == a + b[..|b| - 1];
      SumAppend(a, b[..|b| - 1]);
    } else {
      assert a + b == a;
    }
  }

  lemma {:induction false} SumNonNegative(s: seq<real>)
    requires forall i :: 0 <= i < |s| ==> s[i] >= 0.0
    ensures Sum(s) >= 0.0
  {
    if s != [] {
      SumNonNegative(s[..|s| - 1]);
    }
  }

  /** The index the scan
        best, best_score = None, 0.0
        for x in xs:
          if ok(x) and score(x) > best_score: best, best_score = x, score(x)
      ends on, or -1 when it never takes an element. */
  function ScanBest<T>(xs: seq<T>, ok: T -> bool, score: T -> real): (k: int)
    ensures -1 <= k < |xs|
  {
    if xs == [] then -1
    else
      var n := |xs| - 1;
      var b := ScanBest(xs[..n], ok, score);
      var bestScore := if b < 0 then 0.0 else score(xs[b]);
      if ok(xs[n]) && score(xs[n]) > bestScore then n else b
  }

  /** The scan takes nothing exactly when no accepted element scores above
      0; otherwise it ends on an accepted element with a positive score that
      no accepted element beats and every earlier accepted element scores
      strictly less than: the first maximum. */
  lemma {:induction false} ScanBestIsFirstMaximum<T>(xs: seq<T>, ok: T -> bool, score: T -> real)
    ensures ScanBest(xs, ok, score) == -1 <==>
      forall j :: 0 <= j < |xs| && ok(xs[j]) ==> score(xs[j]) <= 0.0
    ensures var k := ScanBest(xs, ok, score);
      k >= 0 ==>
        && ok(xs[k]) && score(xs[k]) > 0.0
        && (forall j :: 0 <= j < |xs| && ok(xs[j]) ==> score(xs[j]) <= score(xs[k]))
        && (forall j :: 0 <= j < k && ok(xs[j]) ==> score(xs[j]) < score(xs[k]))
  {
    if xs != [] {
      var n := |xs| - 1;
      var p := xs[..n];
      ScanBestIsFirstMaximum(p, ok, score);
      assert forall j :: 0 <= j < n ==> p[j] == xs[j];
    }
  }

  lemma FilterCons<T>(x: T, s: seq<T>, p: T -> bool)
    ensures Filter([x] + s, p) == (if p(x) then [x] else []) + Filter(s, p)
  {
    assert Filter([x], p) == (if p(x) then [x] else []) by {
      assert [x][..0] == [];
    }
    FilterAppend([x], s, p);
  }

  /** Tests that agree on `s` keep the same elements. */
  lemma {:induction false} FilterEquivalent<T>(s: seq<T>, p: T -> bool, q: T -> bool)
    requires forall i :: 0 <= i < |s| ==> (p(s[i]) <==> q(s[i]))
    ensures Filter(s, p) == Filter(s, q)
  {
    if s != [] {
      var n := |s| - 1;
      assert forall i :: 0 <= i < n ==> s[..n][i] == s[i];
      FilterEquivalent(s[..n], p, q);
    }
  }

  /** An element is kept exactly when it is in `s` and passes the test. */
  lemma FilterMembership<T>(s: seq<T>, p: T -> bool)
    ensures forall x :: x in Filter(s, p) <==> x in s && p(x)
  {
    var r := Filter(s, p);
    forall x | x in r ensures x in s && p(x) {
      var i :| 0 <= i < |r| && r[i] == x;
    }
    forall x | x in s && p(x) ensures x in r {
      var i :| 0 <= i < |s| && s[i] == x;
    }
  }

  /** Filtering by a weaker test keeps at least as many elements, strictly
      more when it accepts something the stronger one rejects, and the same
      ones when the tests agree on `s`. */
  lemma {:induction false} FilterLengthMonotone<T>(s: seq<T>, p: T -> bool, q: T -> bool)
    requires forall i :: 0 <= i < |s| && p(s[i]) ==> q(s[i])
    ensures |Filter(s, p)| <= |Filter(s, q)|
    ensures (exists i :: 0 <= i < |s| && q(s[i]) && !p(s[i])) ==> |Filter(s, p)| < |Filter(s, q)|
    ensures (forall i :: 0 <= i < |s| && q(s[i]) ==> p(s[i])) ==> Filter(s, p) == Filter(s, q)
  {
    if s != [] {
      var n := |s| - 1;
      FilterLengthMonotone(s[..n], p, q);
      assert forall i :: 0 <= i < n ==> s[..n][i] == s[i];
    }
  }

  /** `max(xs, key=key)` as an index: the first element with the largest key. */
  function FirstMax<T>(xs: seq<T>, key: T -> real): (k: nat)
    requires xs != []
    ensures k < |xs|
    ensures forall j :: 0 <= j < |xs| ==> key(xs[j]) <= key(xs[k])
    ensures forall j :: 0 <= j < k ==> key(xs[j]) < key(xs[k])
  {
    var n := |xs| - 1;
    if n == 0 then 0
    else
      var b := FirstMax(xs[..n], key);
      assert forall j :: 0 <= j < n ==> xs[..n][j] == xs[j];
      if key(xs[n]) > key(xs[b]) then n else b
  }

  /** The index of the first element satisfying `p`, or -1. */
  function FindFirst<T>(xs: seq<T>, p: T -> bool): (k: int)
    ensures -1 <= k < |xs|
    ensures k == -1 <==> forall j :: 0 <= j < |xs| ==> !p(xs[j])
    ensures k >= 0 ==> p(xs[k]) && forall j :: 0 <= j < k ==> !p(xs[j])
  {
    if xs == [] then -1
    else
      var n := |xs| - 1;
      var k := FindFirst(xs[..n], p);
      assert forall j :: 0 <= j < n ==> xs[..n][j] == xs[j];
      if k >= 0 then k else if p(xs[n]) then n else -1
  }

  /** `[f(x) for x in xs]`. */
  function MapSeq<T, U>(xs: seq<T>, f: T -> U): (r: seq<U>)
    ensures |r| == |xs|
  {
    if xs == [] then [] else MapSeq(xs[..|xs| - 1], f) + [f(xs[|xs| - 1])]
  }

  lemma {:induction false} MapSeqAt<T, U>(xs: seq<T>, f: T -> U, j: nat)
    requires j < |xs|
    ensures MapSeq(xs, f)[j] == f(xs[j])
  {
    var n := |xs| - 1;
    if j < n {
      MapSeqAt(xs[..n], f, j);
    }
  }

  lemma MapSeqStep<T, U>(xs: seq<T>, f: T -> U, i: nat)
    requires i < |xs|
    ensures MapSeq(xs[..i + 1], f) == MapSeq(xs[..i], f) + [f(xs[i])]
  {
    assert xs[..i + 1][..i] == xs[..i];
  }

  /** `[x for x in s if p(x)][0]`, when the list is non-empty, is the
      first element satisfying `p`. */
  lemma {:induction false} FilterFirst<T>(s: seq<T>, p: T -> bool)
    ensures Filter(s, p) != [] <==> FindFirst(s, p) >= 0
    ensures Filter(s, p) != [] ==> Filter(s, p)[0] == s[FindFirst(s, p)]
  {
    if s != [] {
      var n := |s| - 1;
      FilterFirst(s[..n], p);
      assert forall j :: 0 <= j < n ==> s[..n][j] == s[j];
    }
  }

  /** The first position that passes is the one `FindFirst` returns. */
  lemma FindFirstAt<T>(xs: seq<T>, p: T -> bool, k: int)
    requires 0 <= k < |xs| && p(xs[k])
    requires forall j :: 0 <= j < k ==> !p(xs[j])
    ensures FindFirst(xs, p) == k
  {
    var f := FindFirst(xs, p);
    assert !(f < k) && !(k < f);
  }

  lemma {:induction false} FindFirstExtend<T>(xs: seq<T>, i: nat, p: T -> bool)
    requires i <= |xs| && FindFirst(xs[..i], p) >= 0
    ensures FindFirst(xs, p) == FindFirst(xs[..i], p)
  {
    if i < |xs| {
      var n := |xs| - 1;
      assert xs[..n][..i] == xs[..i];
      FindFirstExtend(xs[..n], i, p);
    } else {
      assert xs[..i] == xs;
    }
  }

  // ---------------------------------------------------------------------
  // sorted(xs, key=key, reverse=True)

  predicate SortedDesc<T>(ys: seq<T>, key: T -> real) {
    forall i, j :: 0 <= i < j < |ys| ==> key(ys[i]) >= key(ys[j])
  }

  /** The elements whose key is `v`. */
  function KeyIs<T>(key: T -> real, v: real): T -> bool {
    y => key(y) == v
  }

  /** Inserts `x` into a list sorted by descending key, before every element
      whose key is not larger than its own. */
  function InsertDesc<T>(x: T, ys: seq<T>, key: T -> real): (r: seq<T>)
    ensures |r| == |ys| + 1
    ensures r[0] == x || (ys != [] && r[0] == ys[0])
  {
    if ys == [] || key(x) >= key(ys[0]) then [x] + ys
    else [ys[0]] + InsertDesc(x, ys[1..], key)
  }

  /** A stable sort by descending key: equal keys keep their input order. */
  function SortDesc<T>(xs: seq<T>, key: T -> real): (r: seq<T>)
    ensures |r| == |xs|
  {
    if xs == [] then [] else InsertDesc(xs[0], SortDesc(xs[1..], key), key)
  }

  lemma {:induction false} InsertDescSorted<T>(x: T, ys: seq<T>, key: T -> real)
    requires SortedDesc(ys, key)
    ensures SortedDesc(InsertDesc(x, ys, key), key)
  {
    if ys != [] && key(x) < key(ys[0]) {
      var rest := InsertDesc(x, ys[1..], key);
      InsertDescSorted(x, ys[1..], key);
      var r := [ys[0]] + rest;
      forall i, j | 0 <= i < j < |r|
        ensures key(r[i]) >= key(r[j])
      {
        if i == 0 {
          assert key(rest[0]) <= key(ys[0]);
          assert key(rest[j - 1]) <= key(rest[0]);
        } else {
          assert r[i] == rest[i - 1] && r[j] == rest[j - 1];
        }
      }
    }
  }

  lemma {:induction false} InsertDescPermutes<T>(x: T, ys: seq<T>, key: T -> real)
    ensures multiset(InsertDesc(x, ys, key)) == multiset(ys) + multiset{x}
  {
    if ys != [] && key(x) >= key(ys[0]) {
    } else if ys != [] {
      InsertDescPermutes(x, ys[1..], key);
      assert ys == [ys[0]] + ys[1..];
    }
  }

  lemma {:induction false} InsertDescFilter<T>(x: T, ys: seq<T>, key: T -> real, v: real)
    requires SortedDesc(ys, key)
    ensures Filter(InsertDesc(x, ys, key), KeyIs(key, v)) ==
      (if key(x) == v then [x] else []) + Filter(ys, KeyIs(key, v))
  {
    if ys == [] || key(x) >= key(ys[0]) {
      FilterCons(x, ys, KeyIs(key, v));
    } else {
      InsertDescFilter(x, ys[1..], key, v);
      InsertDescFilterPast(x, ys, key, v);
    }
  }

  /** The step of `InsertDescFilter` where `x` moves past a heavier head. */
  lemma InsertDescFilterPast<T>(x: T, ys: seq<T>, key: T -> real, v: real)
    requires ys != [] && key(x) < key(ys[0])
    requires Filter(InsertDesc(x, ys[1..], key), KeyIs(key, v)) ==
      (if key(x) == v then [x] else []) + Filter(ys[1..], KeyIs(key, v))
    ensures Filter(InsertDesc(x, ys, key), KeyIs(key, v)) ==
      (if key(x) == v then [x] else []) + Filter(ys, KeyIs(key, v))
  {
    var p := KeyIs(key, v);
    var y := ys[0];
    FilterCons(y, InsertDesc(x, ys[1..], key), p);
    assert ys == [y] + ys[1..];
    FilterCons(y, ys[1..], p);
    SwapEmpty(if p(y) then [y] else [], if p(x) then [x] else [], Filter(ys[1..], p));
  }

  lemma SwapEmpty<T>(a: seq<T>, b: seq<T>, f: seq<T>)
    requires a == [] || b == []
    ensures a + (b + f) == b + (a + f)
  {
  }

  /** `SortDesc` sorts, by descending key, a permutation of its input, and
      the elements of any one key come out in their input order. */
  lemma {:induction false} SortDescIsStableSort<T>(xs: seq<T>, key: T -> real)
    ensures SortedDesc(SortDesc(xs, key), key)
    ensures multiset(SortDesc(xs, key)) == multiset(xs)
    ensures forall v :: Filter(SortDesc(xs, key), KeyIs(key, v)) == Filter(xs, KeyIs(key, v))
  {
    if xs != [] {
      var tail := SortDesc(xs[1..], key);
      SortDescIsStableSort(xs[1..], key);
      InsertDescSorted(xs[0], tail, key);
      InsertDescPermutes(xs[0], tail, key);
      assert xs == [xs[0]] + xs[1..];
      forall v
        ensures Filter(SortDesc(xs, key), KeyIs(key, v)) == Filter(xs, KeyIs(key, v))
      {
        InsertDescFilter(xs[0], tail, key, v);
        FilterCons(xs[0], xs[1..], KeyIs(key, v));
      }
    }
  }
}
