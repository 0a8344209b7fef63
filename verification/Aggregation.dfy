/** The per-run metric: three observe methods and the gathered result. */
module ResponseMetrics {
  import opened Ints
  import opened ErrorStats
  import opened Options
  import O = Observations

  /** Latency slices by key. Slices are arrays: report building sorts them in place. */
  type Slices = map<string, array<real>>

  ghost function Contents(m: Slices): O.Latencies
    reads m.Values
  {
    map k | k in m :: m[k][..]
  }

  /** No two keys share a slice. */
  ghost predicate Separate(m: Slices) {
    forall j, k :: j in m && k in m && j != k ==> m[j] != m[k]
  }

  datatype Result = Result(errors: seq<ResponseError>, latencies: Slices, bytes: Int64, total: int)

  /** What the classifiers say about an error: its HTTP code or 0, an HTTP/2 or connection error, its text. */
  datatype Cause = Cause(code: nat, http2: Option<string>, connection: Option<string>, text: string)

  /** HTTP code, then HTTP/2, then connection, then unknown. */
  function Classify(verb: string, url: string, now: int, seconds: real, c: Cause): (e: ResponseError)
    ensures e.verb == verb && e.url == url && e.timestamp == now && e.duration == seconds
    ensures e.code == c.code && (e.errorType == HTTP <==> c.code != 0)
    ensures e.errorType == HTTP2Protocol <==> c.code == 0 && c.http2.Some?
    ensures e.errorType == Connection <==> c.code == 0 && c.http2.None? && c.connection.Some?
    ensures match e.errorType
            case HTTP => e.message == ""
            case HTTP2Protocol => c.http2 == Some(e.message)
            case Connection => c.connection == Some(e.message)
            case Unknown => e.message == c.text
  {
    if c.code != 0 then ResponseError(verb, url, now, seconds, HTTP, c.code, "")
    else if c.http2.Some? then ResponseError(verb, url, now, seconds, HTTP2Protocol, 0, c.http2.value)
    else if c.connection.Some? then ResponseError(verb, url, now, seconds, Connection, 0, c.connection.value)
    else ResponseError(verb, url, now, seconds, Unknown, 0, c.text)
  }

  class ResponseMetric {
    var errors: seq<ResponseError>
    var receivedBytes: Int64
    var latenciesByURLs: O.Latencies

    ghost var history: seq<O.Observation>

    ghost predicate Valid()
      reads this
    {
      && errors == O.ErrorsOf(history)
      && receivedBytes == O.Bytes(history)
      && latenciesByURLs == O.Collect(history)
    }

    constructor ()
      ensures Valid() && history == []
    {
      errors, receivedBytes, latenciesByURLs, history := [], 0, map[], [];
    }

    method ObserveLatency(key: string, seconds: real)
      requires Valid()
      modifies this
      ensures Valid() && history == old(history) + [O.Latency(key, seconds)]
    {
      Append(history, O.Latency(key, seconds));
      if key !in latenciesByURLs {
        latenciesByURLs := latenciesByURLs[key := []];
      }
      latenciesByURLs := latenciesByURLs[key := latenciesByURLs[key] + [seconds]];
      history := history + [O.Latency(key, seconds)];
    }

    /** A nil error is ignored; of several classes that fit, the first in the order of Classify is recorded. */
    method ObserveFailure(verb: string, url: string, now: int, seconds: real, err: Option<Cause>)
      requires Valid()
      modifies this
      ensures Valid()
      ensures history == old(history)
                         + if err.None? then [] else [O.Failure(Classify(verb, url, now, seconds, err.value))]
    {
      if err.None? {
        return;
      }
      var cause, oerr := err.value, ResponseError(verb, url, now, seconds, Unknown, 0, "");
      if cause.code != 0 {
        oerr := oerr.(errorType := HTTP, code := cause.code);
      } else if cause.http2.Some? {
        oerr := oerr.(errorType := HTTP2Protocol, message := cause.http2.value);
      } else if cause.connection.Some? {
        oerr := oerr.(errorType := Connection, message := cause.connection.value);
      } else {
        oerr := oerr.(message := cause.text);
      }
      Append(history, O.Failure(oerr));
      errors := errors + [oerr];
      history := history + [O.Failure(oerr)];
    }

    method ObserveReceivedBytes(bytes: Int64)
      requires Valid()
      modifies this
      ensures Valid() && history == old(history) + [O.Received(bytes)]
    {
      Append(history, O.Received(bytes));
      receivedBytes := Add64(receivedBytes, bytes);
      history := history + [O.Received(bytes)];
    }

    static lemma Append(h: seq<O.Observation>, o: O.Observation)
      ensures O.ErrorsOf(h + [o]) == O.ErrorsOf(h) + if o.Failure? then [o.error] else []
      ensures O.Bytes(h + [o]) == Add64(O.Bytes(h), if o.Received? then o.bytes else 0)
      ensures O.Collect(h + [o])
           == if o.Latency? then O.Collect(h)[o.key := O.Get(O.Collect(h), o.key) + [o.seconds]] else O.Collect(h)
    {
      O.ErrorsAppend(h, o);
      O.BytesAppend(h, o);
      O.CollectAppend(h, o);
    }

    /** Gather copies the lists into fresh slices. */
    method Gather(total: int) returns (stats: Result)
      requires Valid()
      ensures stats.errors == O.ErrorsOf(history) && stats.bytes == O.Bytes(history) && stats.total == total
      ensures Separate(stats.latencies) && forall k :: k in stats.latencies ==> fresh(stats.latencies[k])
      ensures O.Holds(Contents(stats.latencies), history)
    {
      var res := ToSlices(latenciesByURLs);
      stats := Result(errors, res, receivedBytes, total);
      O.CollectHolds(history);
    }
  }

  /** Copy every list into a slice of its own. */
  method ToSlices(m: O.Latencies) returns (res: Slices)
    ensures Separate(res) && forall k :: k in res ==> fresh(res[k])
    ensures Contents(res) == m
  {
    res := map[];
    var todo := m.Keys;
    while todo != {}
      invariant todo <= m.Keys
      invariant forall k :: k in res <==> k in m && k !in todo
      invariant forall k :: k in res ==> fresh(res[k]) && res[k][..] == m[k]
      invariant Separate(res)
      decreases todo
    {
      var u :| u in todo;
      var a := Slice(m[u]);
      res := res[u := a];
      todo := todo - {u};
    }
  }

  method Slice(s: seq<real>) returns (a: array<real>)
    ensures fresh(a) && a[..] == s
  {
    a := new real[|s|](i requires 0 <= i < |s| => s[i]);
    assert a[..] == s;
  }
}

/** One runner: the results of its specs, their aggregate, and the reports written to the result file. */
module RunnerReport {
  import opened Ints
  import opened ErrorStats
  import opened ResponseMetrics
  import O = Observations
  import P = Percentiles

  /** The contents of a Result. */
  datatype Totals = Totals(errors: seq<ResponseError>, latencies: O.Latencies, bytes: Int64, total: int)

  ghost function Value(s: Result): Totals
    reads s.latencies.Values
  {
    Totals(s.errors, Contents(s.latencies), s.bytes, s.total)
  }

  function Combine(a: Totals, b: Totals): Totals {
    Totals(a.errors + b.errors, O.Add(a.latencies, b.latencies), Add64(a.bytes, b.bytes), a.total + b.total)
  }

  function SumAll(vs: seq<Totals>): Totals {
    if vs == [] then Totals([], map[], 0, 0) else Combine(SumAll(vs[..|vs| - 1]), vs[|vs| - 1])
  }

  lemma SumAllStep(vs: seq<Totals>, i: nat)
    requires i < |vs|
    ensures SumAll(vs[..i + 1]) == Combine(SumAll(vs[..i]), vs[i])
  {
    assert vs[..i + 1][..i] == vs[..i];
  }

  ghost function ArraysOf(rs: seq<Result>): set<array<real>> {
    if rs == [] then {} else ArraysOf(rs[..|rs| - 1]) + rs[|rs| - 1].latencies.Values
  }

  ghost function Values(rs: seq<Result>): seq<Totals>
    reads ArraysOf(rs)
  {
    if rs == [] then [] else Values(rs[..|rs| - 1]) + [Value(rs[|rs| - 1])]
  }

  lemma {:induction false} ValuesAt(rs: seq<Result>, j: nat)
    requires j < |rs|
    ensures |Values(rs)| == |rs| && Values(rs)[j] == Value(rs[j])
  {
    var n := |rs| - 1;
    if n == 0 {
    } else {
      ValuesAt(rs[..n], if j < n then j else 0);
    }
  }

  /**
   aggregateResults: concatenates errors and, key by key, latencies; sums bytes and totals.
   Appending copies, so the aggregate shares no slice with the results.
   */
  method AggregateResults(results: seq<Result>) returns (agg: Result)
    ensures Separate(agg.latencies) && forall k :: k in agg.latencies ==> fresh(agg.latencies[k])
    ensures Value(agg) == SumAll(old(Values(results)))
  {
    ghost var vs := Values(results);
    forall j | 0 <= j < |results| ensures |vs| == |results| && vs[j] == Value(results[j]) {
      ValuesAt(results, j);
    }
    var errors, latencies: Slices, bytes: Int64, total := [], map[], 0, 0;
    ghost var sum := SumAll([]);
    for i := 0 to |results|
      invariant |vs| == |results| && sum == SumAll(vs[..i])
      invariant sum == Totals(errors, Contents(latencies), bytes, total)
      invariant Separate(latencies) && forall k :: k in latencies ==> fresh(latencies[k])
    {
      SumAllStep(vs, i);
      assert vs[i] == Value(results[i]);
      sum := Combine(sum, vs[i]);
      errors := errors + results[i].errors;
      latencies := AppendAll(latencies, results[i].latencies);
      bytes := Add64(bytes, results[i].bytes);
      total := total + results[i].total;
    }
    assert vs[..|results|] == vs;
    agg := Result(errors, latencies, bytes, total);
  }

  /** append: a slice of its own with the elements of both. */
  method Append(a: array<real>, b: array<real>) returns (c: array<real>)
    ensures fresh(c) && c[..] == a[..] + b[..]
  {
    c := Slice(a[..] + b[..]);
  }

  /** One key: the slice that is appended to is not written; a missing one counts as empty. */
  method AppendTo(m: Slices, url: string, more: array<real>) returns (c: array<real>)
    ensures fresh(c) && c[..] == O.Get(Contents(m), url) + more[..]
  {
    if url in m {
      c := Append(m[url], more);
    } else {
      var none := Slice([]);
      c := Append(none, more);
    }
  }

  lemma ContentsPut(m: Slices, url: string, c: array<real>)
    requires Separate(m) && c !in m.Values
    ensures Separate(m[url := c]) && Contents(m[url := c]) == Contents(m)[url := c[..]]
  {
  }

  /** The inner loop, in whatever order the keys come. */
  method AppendAll(acc: Slices, more: Slices) returns (r: Slices)
    requires Separate(acc)
    ensures Contents(r) == O.Add(Contents(acc), Contents(more))
    ensures Separate(r) && forall k :: k in r ==> fresh(r[k]) || (k in acc && r[k] == acc[k])
  {
    r := acc;
    ghost var was, add, now := Contents(acc), Contents(more), Contents(acc);
    var todo := more.Keys;
    O.AddSomeEnds(was, add);
    while todo != {}
      invariant todo <= more.Keys && Separate(r)
      invariant forall k :: k in r ==> fresh(r[k]) || (k in acc && r[k] == acc[k])
      invariant Contents(r) == now && now == O.AddSome(was, add, todo)
      decreases todo
    {
      var url :| url in todo;
      O.AddSomeStep(was, add, todo, url);
      assert add[url] == more[url][..];
      var c := AppendTo(r, url, more[url]);
      ContentsPut(r, url, c);
      r := r[url := c];
      now := now[url := O.Get(now, url) + add[url]];
      todo := todo - {url};
    }
  }

  // ---------------------------------------------------------------- reports

  datatype Report = Report(
    total: int,
    duration: nat,
    errors: seq<ResponseError>,
    errorStats: Stats,
    bytes: Int64,
    latencies: O.Latencies,
    percentiles: seq<(real, real)>,
    percentilesByURL: map<string, seq<(real, real)>>
  )

  function Tables(m: O.Latencies): map<string, seq<(real, real)>> {
    map k | k in m :: P.Table(m[k])
  }

  ghost predicate Arranges(s: seq<real>, bag: multiset<real>) {
    multiset(s) == bag
  }

  /** The percentile table of a bag: that of its elements in some order. */
  ghost function BagTable(bag: multiset<real>): seq<(real, real)> {
    if s :| Arranges(s, bag) then P.Table(s) else []
  }

  /** The order does not matter. */
  lemma TableOfBag(s: seq<real>)
    ensures P.Table(s) == BagTable(multiset(s))
  {
    assert Arranges(s, multiset(s));
    var r :| Arranges(r, multiset(s)) && BagTable(multiset(s)) == P.Table(r);
    assert Arranges(r, multiset(s));
    P.TableOfPermutation(s, r);
  }

  /** What a report says about the totals it was built from. */
  ghost predicate IsReport(r: Report, v: Totals, duration: nat, raw: bool) {
    && r.total == v.total && r.duration == duration && r.bytes == v.bytes
    && r.errorStats == StatsOf(v.errors)
    && r.percentiles == BagTable(O.Bag(v.latencies))
    && r.percentilesByURL == Tables(v.latencies)
    && r.errors == (if raw then v.errors else [])
    && r.latencies == (if raw then Sorted(v.latencies) else map[])
  }

  /**
   buildRunnerMetricReport. The overall table is computed on a copy, the per-key tables on the
   slices themselves, which are left sorted; raw data, if asked for, is what is then in them.
   */
  method BuildRunnerMetricReport(stats: Result, duration: nat, includeRawData: bool) returns (out: Report)
    requires Separate(stats.latencies)
    modifies stats.latencies.Values
    ensures IsReport(out, old(Value(stats)), duration, includeRawData)
    ensures Contents(stats.latencies) == Sorted(old(Contents(stats.latencies)))
  {
    var errorStats := BuildErrorStatsGroupByType(stats.errors);
    var percentiles := OverallTable(stats.latencies);
    var byURL := SortEach(stats.latencies);
    out := Report(stats.total, duration, [], errorStats, stats.bytes, map[], percentiles, byURL);
    if includeRawData {
      out := out.(latencies := Read(stats.latencies), errors := stats.errors);
    }
  }

  /** The overall table, from a copy of all slices. */
  method OverallTable(m: Slices) returns (t: seq<(real, real)>)
    ensures t == BagTable(O.Bag(Contents(m)))
  {
    var all := Gathered(m);
    var copy := Slice(all);
    TableOfBag(all);
    t := P.BuildPercentileLatencies(copy);
  }

  function Read(m: Slices): (r: O.Latencies)
    reads m.Values
    ensures r == Contents(m)
  {
    map k | k in m :: m[k][..]
  }

  /** Append all slices, in whatever order the keys come. */
  method Gathered(m: Slices) returns (all: seq<real>)
    ensures multiset(all) == O.Bag(Contents(m))
  {
    all := [];
    var c := Read(m);
    var done: O.Latencies := map[];
    var todo := c.Keys;
    while todo != {}
      invariant todo <= c.Keys
      invariant forall k :: k in done <==> k in c && k !in todo
      invariant forall k :: k in done ==> done[k] == c[k]
      invariant multiset(all) == O.Bag(done)
      decreases todo
    {
      var u :| u in todo;
      O.BagExtend(done, u, c[u]);
      all := all + c[u];
      done := done[u := c[u]];
      todo := todo - {u};
    }
    assert done == c;
  }

  /** One table per key; every slice is sorted in place. */
  method SortEach(m: Slices) returns (r: map<string, seq<(real, real)>>)
    requires Separate(m)
    modifies m.Values
    ensures r == Tables(old(Contents(m)))
    ensures Contents(m) == Sorted(old(Contents(m)))
  {
    r := SortKeys(m, Contents(m));
  }

  /** The loop over the keys, in any order, slice by slice. */
  method SortKeys(m: Slices, ghost was: O.Latencies) returns (r: map<string, seq<(real, real)>>)
    requires Separate(m) && was == Contents(m)
    modifies m.Values
    ensures forall k :: k in r <==> k in m
    ensures forall k :: k in m ==> r[k] == P.Table(was[k]) && m[k][..] == P.Sort(was[k])
  {
    r := map[];
    var todo := m.Keys;
    while todo != {}
      invariant todo <= m.Keys
      invariant forall k :: k in r <==> k in m && k !in todo
      invariant forall k :: k in r ==> r[k] == P.Table(was[k]) && m[k][..] == P.Sort(was[k])
      invariant forall k :: k in todo ==> m[k][..] == was[k]
      decreases todo
    {
      var u :| u in todo;
      var t := P.BuildPercentileLatencies(m[u]);
      r := r[u := t];
      todo := todo - {u};
    }
  }

  function Sorted(m: O.Latencies): O.Latencies {
    map k | k in m :: P.Sort(m[k])
  }

  lemma {:induction false} ArraysAt(rs: seq<Result>, j: nat)
    requires j < |rs|
    ensures rs[j].latencies.Values <= ArraysOf(rs)
  {
    var n := |rs| - 1;
    if j == n {
    } else {
      ArraysAt(rs[..n], j);
    }
  }

  /** The slices of different results are different. */
  ghost predicate Apart(a: Result, b: Result) {
    a.latencies.Values !! b.latencies.Values
  }

  lemma {:induction false} ArraysApart(rs: seq<Result>, agg: Result)
    requires forall i :: 0 <= i < |rs| ==> Apart(rs[i], agg)
    ensures ArraysOf(rs) !! agg.latencies.Values
  {
    if rs == [] {
    } else {
      ArraysApart(rs[..|rs| - 1], agg);
    }
  }

  /** One report per spec; sorting the slices of one does not change the others. */
  method PerSpecReports(raw: bool, perSpec: seq<Result>, durations: seq<nat>) returns (reports: seq<Report>)
    requires |durations| == |perSpec|
    requires forall i :: 0 <= i < |perSpec| ==> Separate(perSpec[i].latencies)
    requires forall i, j :: 0 <= i < j < |perSpec| ==> Apart(perSpec[i], perSpec[j])
    modifies ArraysOf(perSpec)
    ensures |reports| == |perSpec|
    ensures forall i :: 0 <= i < |perSpec| ==> IsReport(reports[i], old(Value(perSpec[i])), durations[i], raw)
  {
    reports := [];
    for i := 0 to |perSpec|
      invariant |reports| == i
      invariant forall j :: 0 <= j < i ==> IsReport(reports[j], old(Value(perSpec[j])), durations[j], raw)
      invariant forall j :: i <= j < |perSpec| ==> Value(perSpec[j]) == old(Value(perSpec[j]))
    {
      ArraysAt(perSpec, i);
      var report := BuildRunnerMetricReport(perSpec[i], durations[i], raw);
      reports := reports + [report];
    }
  }

  /**
   printMultiSpecResults: one report per spec, then the aggregated one. Sorting the slices of
   the specs does not change the aggregate, so every report is about the contents before the call.
   */
  method PrintMultiSpecResults(raw: bool, perSpec: seq<Result>, durations: seq<nat>, agg: Result, duration: nat)
    returns (reports: seq<Report>, aggregated: Report)
    requires |durations| == |perSpec|
    requires forall i :: 0 <= i < |perSpec| ==> Separate(perSpec[i].latencies) && Apart(perSpec[i], agg)
    requires forall i, j :: 0 <= i < j < |perSpec| ==> Apart(perSpec[i], perSpec[j])
    requires Separate(agg.latencies)
    modifies ArraysOf(perSpec), agg.latencies.Values
    ensures |reports| == |perSpec|
    ensures forall i :: 0 <= i < |perSpec| ==> IsReport(reports[i], old(Value(perSpec[i])), durations[i], raw)
    ensures IsReport(aggregated, old(Value(agg)), duration, raw)
  {
    ArraysApart(perSpec, agg);
    reports := PerSpecReports(raw, perSpec, durations);
    aggregated := BuildRunnerMetricReport(agg, duration, raw);
  }

  // ---------------------------------------------------------------- totals

  function SumOf(durations: seq<nat>): nat {
    if durations == [] then 0 else SumOf(durations[..|durations| - 1]) + durations[|durations| - 1]
  }

  function Plus(xs: seq<int>): int {
    if xs == [] then 0 else xs[0] + Plus(xs[1..])
  }

  lemma {:induction false} PlusLast(xs: seq<int>)
    requires xs != []
    ensures Plus(xs) == Plus(xs[..|xs| - 1]) + xs[|xs| - 1]
  {
    if |xs| == 1 {
      assert xs[..0] == [];
    } else {
      PlusLast(xs[1..]);
      assert xs[1..][..|xs| - 2] == xs[..|xs| - 1][1..];
    }
  }

  /** The aggregate's total is the sum of the specs' totals. */
  lemma {:induction false} SumAllTotal(vs: seq<Totals>)
    ensures SumAll(vs).total == Plus(seq(|vs|, i requires 0 <= i < |vs| => vs[i].total))
  {
    var xs := seq(|vs|, i requires 0 <= i < |vs| => vs[i].total);
    if vs == [] {
    } else {
      var n := |vs| - 1;
      SumAllTotal(vs[..n]);
      PlusLast(xs);
      assert xs[..n] == seq(n, i requires 0 <= i < n => vs[..n][i].total);
    }
  }

  lemma {:induction false} SumOfIsPlus(durations: seq<nat>)
    ensures SumOf(durations) == Plus(durations)
  {
    if durations == [] {
    } else {
      SumOfIsPlus(durations[..|durations| - 1]);
      PlusLast(durations);
    }
  }

  /** The runner command after its specs have run: total duration, aggregate, reports. */
  method ReportSpecs(raw: bool, results: seq<Result>, durations: seq<nat>)
    returns (reports: seq<Report>, aggregated: Report)
    requires |durations| == |results|
    requires forall i :: 0 <= i < |results| ==> Separate(results[i].latencies)
    requires forall i, j :: 0 <= i < j < |results| ==> Apart(results[i], results[j])
    modifies ArraysOf(results)
    ensures |reports| == |results|
    ensures forall i :: 0 <= i < |results| ==> IsReport(reports[i], old(Value(results[i])), durations[i], raw)
    ensures IsReport(aggregated, SumAll(old(Values(results))), SumOf(durations), raw)
  {
    var total := 0;
    for i := 0 to |durations|
      invariant total == SumOf(durations[..i])
    {
      assert durations[..i + 1][..i] == durations[..i];
      total := total + durations[i];
    }
    assert durations[..|durations|] == durations;
    var agg := AggregateResults(results);
    reports, aggregated := PrintMultiSpecResults(raw, results, durations, agg, total);
  }

  // ---------------------------------------------------------------- reports and observations

  function Flatten(xs: seq<seq<O.Observation>>): seq<O.Observation> {
    if xs == [] then [] else Flatten(xs[..|xs| - 1]) + xs[|xs| - 1]
  }

  ghost predicate Describes(v: Totals, obs: seq<O.Observation>) {
    v.errors == O.ErrorsOf(obs) && v.bytes == O.Bytes(obs) && O.Holds(v.latencies, obs)
  }

  lemma CombineDescribes(a: Totals, x: seq<O.Observation>, b: Totals, y: seq<O.Observation>)
    requires Describes(a, x) && Describes(b, y)
    ensures Describes(Combine(a, b), x + y)
  {
    O.ConcatErrors(x, y);
    O.ConcatBytes(x, y);
    O.HoldsAdd(a.latencies, x, b.latencies, y);
  }

  /** The aggregate of the specs describes all observations of all specs, in order. */
  lemma {:induction false} SumAllDescribes(vs: seq<Totals>, obs: seq<seq<O.Observation>>)
    requires |vs| == |obs| && forall i :: 0 <= i < |vs| ==> Describes(vs[i], obs[i])
    ensures Describes(SumAll(vs), Flatten(obs))
  {
    if vs == [] {
      assert O.Holds(map[], []);
    } else {
      var n := |vs| - 1;
      SumAllDescribes(vs[..n], obs[..n]);
      CombineDescribes(SumAll(vs[..n]), Flatten(obs[..n]), vs[n], obs[n]);
    }
  }

  /** A report says exactly what a direct computation from the raw observations would. */
  ghost predicate Reports(r: Report, obs: seq<O.Observation>) {
    && r.bytes == O.Bytes(obs) && O.IsTotal(r.bytes, obs)
    && r.errorStats == StatsOf(O.ErrorsOf(obs))
    && r.percentiles == P.Table(O.AllLatencies(obs))
    && (forall k :: k in r.percentilesByURL <==> O.LatenciesOf(obs, k) != [])
    && (forall k :: k in r.percentilesByURL ==> r.percentilesByURL[k] == P.Table(O.LatenciesOf(obs, k)))
  }

  /** ... and, with raw data, carries the observations themselves. */
  ghost predicate Carries(r: Report, obs: seq<O.Observation>) {
    r.errors == O.ErrorsOf(obs) && O.Holds(r.latencies, obs)
  }

  lemma TablesReport(m: O.Latencies, obs: seq<O.Observation>, k: string)
    requires O.Holds(m, obs)
    ensures k in m <==> O.LatenciesOf(obs, k) != []
    ensures k in m ==> P.Table(m[k]) == P.Table(O.LatenciesOf(obs, k))
  {
    assert k in m ==> O.Get(m, k) == m[k];
    if k in m {
      P.TableOfPermutation(m[k], O.LatenciesOf(obs, k));
    }
  }

  lemma SortedHolds(m: O.Latencies, obs: seq<O.Observation>)
    requires O.Holds(m, obs)
    ensures O.Holds(Sorted(m), obs)
  {
    forall k ensures && (k in Sorted(m) <==> O.LatenciesOf(obs, k) != [])
                     && multiset(O.Get(Sorted(m), k)) == multiset(O.LatenciesOf(obs, k))
    {
      assert multiset(O.Get(m, k)) == multiset(O.LatenciesOf(obs, k));
      if k in m { P.SortSorts(m[k]); }
    }
  }

  lemma ReportIsCorrect(r: Report, v: Totals, duration: nat, raw: bool, obs: seq<O.Observation>)
    requires IsReport(r, v, duration, raw) && Describes(v, obs)
    ensures Reports(r, obs) && (raw ==> Carries(r, obs))
  {
    O.BytesAreSum(obs);
    O.BagIsAll(v.latencies, obs);
    TableOfBag(O.AllLatencies(obs));
    forall k { TablesReport(v.latencies, obs, k); }
    SortedHolds(v.latencies, obs);
  }

  /** The reports of a runner are right: each spec's about its own observations, the aggregate about all of them. */
  lemma RunnerIsCorrect(
    reports: seq<Report>, aggregated: Report, vs: seq<Totals>, durations: seq<nat>, raw: bool,
    obs: seq<seq<O.Observation>>)
    requires |reports| == |vs| == |durations| == |obs|
    requires forall i :: 0 <= i < |vs| ==> IsReport(reports[i], vs[i], durations[i], raw) && Describes(vs[i], obs[i])
    requires IsReport(aggregated, SumAll(vs), SumOf(durations), raw)
    ensures forall i :: 0 <= i < |vs| ==> Reports(reports[i], obs[i])
    ensures aggregated.total == Plus(seq(|vs|, i requires 0 <= i < |vs| => vs[i].total))
    ensures aggregated.duration == Plus(durations)
    ensures Reports(aggregated, Flatten(obs)) && (raw ==> Carries(aggregated, Flatten(obs)))
  {
    forall i | 0 <= i < |vs| ensures Reports(reports[i], obs[i]) {
      ReportIsCorrect(reports[i], vs[i], durations[i], raw, obs[i]);
    }
    SumAllDescribes(vs, obs);
    ReportIsCorrect(aggregated, SumAll(vs), SumOf(durations), raw, Flatten(obs));
    SumAllTotal(vs);
    SumOfIsPlus(durations);
  }
}
