/**
 Percentile latencies: sort in place, then read six positions. Latencies are exact reals;
 percentiles are stated against counting, without reference to any sorting.
 */
module Percentiles {
  import opened Ints

  // ---------------------------------------------------------------- sorting

  function Insert(x: real, s: seq<real>): seq<real> {
    if s == [] || x <= s[0] then [x] + s else [s[0]] + Insert(x, s[1..])
  }

  function Sort(s: seq<real>): (r: seq<real>) {
    if s == [] then [] else Insert(s[0], Sort(s[1..]))
  }

  ghost predicate Sorted(s: seq<real>) {
    |s| < 2 || (s[0] <= s[1] && Sorted(s[1..]))
  }

  lemma {:induction false} SortedAt(s: seq<real>, i: nat, j: nat)
    requires Sorted(s) && i <= j < |s|
    ensures s[i] <= s[j]
  {
    if j == 0 {
    } else {
      SortedAt(s[1..], if i == 0 then 0 else i - 1, j - 1);
    }
  }

  lemma {:induction false} InsertSorted(x: real, s: seq<real>)
    requires Sorted(s)
    ensures Sorted(Insert(x, s))
  {
    if s == [] || x <= s[0] {
    } else {
      InsertSorted(x, s[1..]);
    }
  }

  lemma {:induction false} InsertKeeps(x: real, s: seq<real>)
    ensures multiset(Insert(x, s)) == multiset(s) + multiset{x} && |Insert(x, s)| == |s| + 1
  {
    if s == [] || x <= s[0] {
    } else {
      InsertKeeps(x, s[1..]);
      assert s == [s[0]] + s[1..];
    }
  }

  lemma {:induction false} InsertCommutes(x: real, y: real, s: seq<real>)
    ensures Insert(x, Insert(y, s)) == Insert(y, Insert(x, s))
  {
    if s == [] {
    } else {
      InsertCommutes(x, y, s[1..]);
    }
  }

  lemma {:induction false} SortSorts(s: seq<real>)
    ensures Sorted(Sort(s)) && multiset(Sort(s)) == multiset(s) && |Sort(s)| == |s|
  {
    if s == [] {
    } else {
      SortSorts(s[1..]);
      InsertSorted(s[0], Sort(s[1..]));
      InsertKeeps(s[0], Sort(s[1..]));
      assert s == [s[0]] + s[1..];
    }
  }

  lemma {:induction false} SortExtracts(a: seq<real>, x: real, b: seq<real>)
    ensures Sort(a + [x] + b) == Insert(x, Sort(a + b))
  {
    if a == [] {
      assert a + [x] + b == [x] + b && a + b == b;
    } else {
      assert (a + [x] + b)[1..] == a[1..] + [x] + b && (a + b)[1..] == a[1..] + b;
      SortExtracts(a[1..], x, b);
      InsertCommutes(a[0], x, Sort(a[1..] + b));
    }
  }

  /** The order in which observations arrive does not matter. */
  lemma {:induction false} SortOfPermutation(a: seq<real>, b: seq<real>)
    requires multiset(a) == multiset(b)
    ensures Sort(a) == Sort(b) && |a| == |b|
  {
    assert |a| == |multiset(a)| == |multiset(b)| == |b|;
    if a == [] {
    } else {
      assert a[0] in multiset(b);
      var k :| 0 <= k < |b| && b[k] == a[0];
      var b1, b2 := b[..k], b[k + 1..];
      assert b == b1 + [a[0]] + b2;
      RemoveOne(a, b1, b2);
      SortOfPermutation(a[1..], b1 + b2);
      SortExtracts(b1, a[0], b2);
    }
  }

  lemma RemoveOne(a: seq<real>, b1: seq<real>, b2: seq<real>)
    requires a != [] && multiset(a) == multiset(b1 + [a[0]] + b2)
    ensures multiset(a[1..]) == multiset(b1 + b2)
  {
    assert a == [a[0]] + a[1..];
    assert multiset(a) == multiset{a[0]} + multiset(a[1..]);
    assert multiset(b1 + [a[0]] + b2) == multiset{a[0]} + multiset(b1 + b2);
    assert multiset(a) - multiset{a[0]} == multiset(a[1..]);
    assert multiset(b1 + [a[0]] + b2) - multiset{a[0]} == multiset(b1 + b2);
  }

  // ---------------------------------------------------------------- nearest rank

  function CountBelow(s: seq<real>, v: real): nat {
    if s == [] then 0 else (if s[0] < v then 1 else 0) + CountBelow(s[1..], v)
  }

  function CountUpTo(s: seq<real>, v: real): nat {
    if s == [] then 0 else (if s[0] <= v then 1 else 0) + CountUpTo(s[1..], v)
  }

  /** The observation with at least ceil(p n) observations up to it and fewer than max(1, ceil(p n)) below it. */
  ghost predicate NearestRank(s: seq<real>, p: real, v: real) {
    var rank := Ceil(|s| as real * p);
    && v in s
    && CountUpTo(s, v) >= rank
    && CountBelow(s, v) < if rank > 1 then rank else 1
  }

  /** The position read by the code: ceil(n p), minus one when positive. */
  function Index(n: nat, p: real): int {
    var idx := Ceil(n as real * p);
    if idx > 0 then idx - 1 else idx
  }

  lemma IndexInRange(n: nat, p: real)
    requires n > 0 && 0.0 <= p <= 1.0
    ensures 0 <= Index(n, p) < n
  {
    MulMonotone(n as real, 0.0, p);
    MulMonotone(n as real, p, 1.0);
    var x := n as real * p;
    assert 0.0 <= x <= n as real;
    assert n + (-x).Floor >= 0 >= (-x).Floor;
  }

  lemma MulMonotone(n: real, p: real, q: real)
    requires n >= 0.0 && p <= q
    ensures n * p <= n * q
  {
  }

  lemma {:induction false} CountsSort(s: seq<real>, v: real)
    ensures CountBelow(Sort(s), v) == CountBelow(s, v) && CountUpTo(Sort(s), v) == CountUpTo(s, v)
  {
    if s == [] {
    } else {
      CountsSort(s[1..], v);
      CountsInsert(s[0], Sort(s[1..]), v);
    }
  }

  lemma {:induction false} CountsInsert(x: real, s: seq<real>, v: real)
    ensures CountBelow(Insert(x, s), v) == CountBelow(s, v) + if x < v then 1 else 0
    ensures CountUpTo(Insert(x, s), v) == CountUpTo(s, v) + if x <= v then 1 else 0
  {
    if s == [] || x <= s[0] {
    } else {
      CountsInsert(x, s[1..], v);
    }
  }

  lemma {:induction false} CountsSorted(s: seq<real>, k: nat)
    requires Sorted(s) && k < |s|
    ensures CountUpTo(s, s[k]) >= k + 1 && CountBelow(s, s[k]) <= k
  {
    if k == 0 {
      forall i | 0 <= i < |s| ensures s[0] <= s[i] { SortedAt(s, 0, i); }
      CountsNone(s, s[0]);
    } else {
      SortedAt(s, 0, k);
      CountsSorted(s[1..], k - 1);
    }
  }

  lemma {:induction false} CountsNone(s: seq<real>, v: real)
    requires forall i :: 0 <= i < |s| ==> v <= s[i]
    ensures CountBelow(s, v) == 0
  {
    if s == [] {
    } else {
      CountsNone(s[1..], v);
    }
  }

  /** The element of rank r (counted from 1, at least 1) of the sorted observations. */
  lemma RankFacts(s: seq<real>, k: nat)
    requires k < |s|
    ensures |Sort(s)| == |s| && Sort(s)[k] in s
    ensures CountUpTo(s, Sort(s)[k]) >= k + 1 && CountBelow(s, Sort(s)[k]) <= k
  {
    SortSorts(s);
    var v := Sort(s)[k];
    CountsSorted(Sort(s), k);
    CountsSort(s, v);
    assert v in multiset(Sort(s));
  }

  /** The value read is the nearest-rank order statistic. */
  lemma PercentileIsNearestRank(s: seq<real>, p: real)
    requires s != [] && 0.0 <= p <= 1.0
    ensures 0 <= Index(|s|, p) < |s| && NearestRank(s, p, Rank(s, p))
  {
    IndexInRange(|s|, p);
    RankFacts(s, Index(|s|, p));
  }

  lemma {:induction false} CountsOrdered(s: seq<real>, v: real, w: real)
    requires v < w
    ensures CountUpTo(s, v) <= CountBelow(s, w)
    ensures v in s ==> CountUpTo(s, v) >= 1
  {
    if s == [] {
    } else {
      CountsOrdered(s[1..], v, w);
    }
  }

  /** ... and the only one. */
  lemma NearestRankUnique(s: seq<real>, p: real, v: real, w: real)
    requires NearestRank(s, p, v) && NearestRank(s, p, w)
    ensures v == w
  {
    if v < w {
      CountsOrdered(s, v, w);
    } else if w < v {
      CountsOrdered(s, w, v);
    }
  }

  // ---------------------------------------------------------------- the table

  const PERCENTILES: seq<real> := [0.0, 0.5, 0.90, 0.95, 0.99, 1.0]

  /** The percentile table of a collection of observations; empty when there are none. */
  function Table(s: seq<real>): seq<(real, real)> {
    if s == [] then [] else TableOf(s, PERCENTILES)
  }

  function TableOf(s: seq<real>, ps: seq<real>): seq<(real, real)> {
    if ps == [] then []
    else [(ps[0], Rank(s, ps[0]))] + TableOf(s, ps[1..])
  }

  function Rank(s: seq<real>, p: real): real {
    if 0 <= Index(|s|, p) < |Sort(s)| then Sort(s)[Index(|s|, p)] else 0.0
  }

  lemma TableOfPermutation(a: seq<real>, b: seq<real>)
    requires multiset(a) == multiset(b)
    ensures Table(a) == Table(b)
  {
    SortOfPermutation(a, b);
    TableOfSameSort(a, b, PERCENTILES);
  }

  lemma {:induction false} TableOfSameSort(a: seq<real>, b: seq<real>, ps: seq<real>)
    requires Sort(a) == Sort(b) && |a| == |b|
    ensures TableOf(a, ps) == TableOf(b, ps)
  {
    if ps == [] {
    } else {
      TableOfSameSort(a, b, ps[1..]);
    }
  }

  lemma {:induction false} TableAt(s: seq<real>, ps: seq<real>, i: nat)
    requires i < |ps|
    ensures |TableOf(s, ps)| == |ps| && TableOf(s, ps)[i] == (ps[i], Rank(s, ps[i]))
  {
    if ps == [ps[0]] {
    } else {
      TableAt(s, ps[1..], if i > 0 then i - 1 else 0);
    }
  }

  /** Six rows in the order of the percentiles, each the nearest rank of its percentile, values never decreasing. */
  lemma TableIsCorrect(s: seq<real>)
    requires s != []
    ensures |Table(s)| == 6
    ensures Table(s)[0].0 == 0.0 && Table(s)[1].0 == 0.5 && Table(s)[2].0 == 0.9
    ensures Table(s)[3].0 == 0.95 && Table(s)[4].0 == 0.99 && Table(s)[5].0 == 1.0
    ensures forall i :: 0 <= i < 6 ==> NearestRank(s, Table(s)[i].0, Table(s)[i].1)
    ensures forall i, j :: 0 <= i < j < 6 ==> Table(s)[i].1 <= Table(s)[j].1
  {
    TableAt(s, PERCENTILES, 0);
    forall i | 0 <= i < 6
      ensures Table(s)[i] == (PERCENTILES[i], Rank(s, PERCENTILES[i]))
      ensures NearestRank(s, PERCENTILES[i], Rank(s, PERCENTILES[i]))
    {
      TableAt(s, PERCENTILES, i);
      PercentileIsNearestRank(s, PERCENTILES[i]);
    }
    forall i, j | 0 <= i < j < 6 ensures Table(s)[i].1 <= Table(s)[j].1 {
      RankMonotone(s, PERCENTILES[i], PERCENTILES[j]);
    }
  }

  lemma RankMonotone(s: seq<real>, p: real, q: real)
    requires s != [] && 0.0 <= p <= q <= 1.0
    ensures Rank(s, p) <= Rank(s, q)
  {
    IndexMonotone(|s|, p, q);
    IndexInRange(|s|, p);
    IndexInRange(|s|, q);
    SortSorts(s);
    SortedAt(Sort(s), Index(|s|, p), Index(|s|, q));
  }

  lemma IndexMonotone(n: nat, p: real, q: real)
    requires p <= q
    ensures Index(n, p) <= Index(n, q)
  {
    MulMonotone(n as real, p, q);
  }

  /** sort.Float64s, as a library routine: the slice ends up sorted, in place. */
  method SortFloat64s(a: array<real>)
    modifies a
    ensures a[..] == Sort(old(a[..]))
  {
    var s := Sort(a[..]);
    SortSorts(a[..]);
    forall i | 0 <= i < a.Length {
      a[i] := s[i];
    }
    assert a[..] == s;
  }

  /** BuildPercentileLatencies: sorts its argument in place and fills one row per percentile. */
  method BuildPercentileLatencies(latencies: array<real>) returns (res: seq<(real, real)>)
    modifies latencies
    ensures res == Table(old(latencies[..]))
    ensures latencies[..] == Sort(old(latencies[..]))
  {
    SortSorts(latencies[..]);
    if latencies.Length == 0 {
      return [];
    }
    var n := latencies.Length;
    ghost var was := latencies[..];
    SortFloat64s(latencies);
    res := [];
    for pi := 0 to |PERCENTILES|
      invariant res == TableOf(was, PERCENTILES[..pi])
      invariant latencies[..] == Sort(was)
    {
      var pv := PERCENTILES[pi];
      IndexInRange(n, pv);
      var idx := Index(n, pv);
      TableOfAppend(was, PERCENTILES[..pi], pv);
      assert PERCENTILES[..pi + 1] == PERCENTILES[..pi] + [pv];
      res := res + [(pv, latencies[idx])];
    }
    assert PERCENTILES[..|PERCENTILES|] == PERCENTILES;
  }

  lemma {:induction false} TableOfAppend(s: seq<real>, ps: seq<real>, p: real)
    ensures TableOf(s, ps + [p]) == TableOf(s, ps) + [(p, Rank(s, p))]
  {
    if ps == [] {
      assert ps + [p] == [p];
    } else {
      assert (ps + [p])[1..] == ps[1..] + [p];
      TableOfAppend(s, ps[1..], p);
    }
  }
}
