/** The summary over all runner groups: read every listed runner's blob, decode it, merge. */
module GroupSummary {
  import opened Ints
  import opened Options
  import opened ErrorStats
  import opened RunnerReport
  import ResponseMetrics
  import O = Observations
  import P = Percentiles

  /** A stored blob, as the two JSON formats it may be in. */
  datatype Blob =
    | MultiSpec(perSpec: seq<Report>, aggregated: Report)
    | SingleSpec(report: Report)
    | Invalid

  const EMPTY_REPORT := Report(0, 0, [], map[], 0, map[], [], map[])

  /**
   A multi-spec blob stands for its aggregate. Without per-spec results it is decoded again as a
   single report, of which it has no field.
   */
  function Decode(b: Blob): Option<Report> {
    match b
    case MultiSpec(perSpec, aggregated) => Some(if |perSpec| > 0 then aggregated else EMPTY_REPORT)
    case SingleSpec(report) => Some(report)
    case Invalid => None
  }

  /** A listed pod and what reading its blob gave at that moment; None if there was none or the read failed. */
  datatype Reading = Reading(pod: string, blob: Option<Blob>)

  /** What listing the pods of a group, then reading their blobs one by one, gave; None if the listing failed. */
  type Group = Option<seq<Reading>>

  function ReportIn(x: Reading): Option<Report> {
    if x.blob.Some? then Decode(x.blob.value) else None
  }

  /** The reports of the listed pods that have one, in listing order. */
  function PodReports(pods: seq<Reading>): seq<Report> {
    if pods == [] then []
    else
      var r := ReportIn(pods[|pods| - 1]);
      PodReports(pods[..|pods| - 1]) + if r.Some? then [r.value] else []
  }

  /** A group whose pods cannot be listed contributes nothing. */
  function AllReports(groups: seq<Group>): seq<Report> {
    if groups == [] then []
    else
      var g := groups[|groups| - 1];
      AllReports(groups[..|groups| - 1]) + if g.Some? then PodReports(g.value) else []
  }

  lemma AllReportsStep(groups: seq<Group>, i: nat)
    requires i < |groups|
    ensures AllReports(groups[..i + 1])
         == AllReports(groups[..i]) + if groups[i].Some? then PodReports(groups[i].value) else []
  {
    assert groups[..i + 1][..i] == groups[..i];
  }

  // ---------------------------------------------------------------- the merged values

  datatype Merged = Merged(
    bytes: Int64, errors: seq<ResponseError>, errorStats: Stats, latencies: O.Latencies, duration: nat)

  function Absorb(m: Merged, r: Report): Merged {
    Merged(Add64(m.bytes, r.bytes), m.errors + r.errors, Merge(m.errorStats, r.errorStats),
           O.Add(m.latencies, r.latencies), if r.duration > m.duration then r.duration else m.duration)
  }

  function MergeAll(rs: seq<Report>): Merged {
    if rs == [] then Merged(0, [], map[], map[], 0) else Absorb(MergeAll(rs[..|rs| - 1]), rs[|rs| - 1])
  }

  /** The duration of the summary is the longest of the reports, or zero. */
  lemma {:induction false} LongestDuration(rs: seq<Report>)
    ensures forall i :: 0 <= i < |rs| ==> rs[i].duration <= MergeAll(rs).duration
    ensures MergeAll(rs).duration == 0 || exists i :: 0 <= i < |rs| && rs[i].duration == MergeAll(rs).duration
  {
    if rs == [] {
    } else {
      var n := |rs| - 1;
      LongestDuration(rs[..n]);
      assert forall i :: 0 <= i < n ==> rs[i] == rs[..n][i];
    }
  }

  /** A multi-spec blob without specs is read as a report without any field, and adds nothing. */
  lemma EmptyAddsNothing(m: Merged, aggregated: Report)
    ensures Decode(MultiSpec([], aggregated)) == Some(EMPTY_REPORT) && Absorb(m, EMPTY_REPORT) == m
  {
    O.AddSomeEnds(m.latencies, map[]);
    assert Merge(m.errorStats, map[]) == m.errorStats;
  }

  ghost predicate IsSummary(r: Report, m: Merged) {
    && r.bytes == m.bytes && r.errors == m.errors && r.errorStats == m.errorStats && r.duration == m.duration
    && r.total == |O.Bag(m.latencies)|
    && r.percentiles == BagTable(O.Bag(m.latencies))
    && r.percentilesByURL == Tables(m.latencies)
    && r.latencies == map[]
  }

  /** buildRunnerGroupSummary. */
  method BuildRunnerGroupSummary(groups: seq<Group>) returns (r: Report)
    ensures IsSummary(r, MergeAll(AllReports(groups)))
  {
    var m := MergeAll([]);
    var totalResp := 0;
    for i := 0 to |groups|
      invariant m == MergeAll(AllReports(groups[..i])) && totalResp == |O.Bag(m.latencies)|
    {
      AllReportsStep(groups, i);
      if groups[i].None? {
        assert AllReports(groups[..i + 1]) == AllReports(groups[..i]);
        continue;
      }
      m, totalResp := AbsorbGroup(groups[i].value, m, totalResp, AllReports(groups[..i]));
    }
    assert groups[..|groups|] == groups;
    var percentiles, byURL := BuildTables(m.latencies);
    r := Report(totalResp, m.duration, m.errors, m.errorStats, m.bytes, map[], percentiles, byURL);
  }

  /** The loop over the pods of one group. */
  method AbsorbGroup(pods: seq<Reading>, m0: Merged, total0: nat, ghost before: seq<Report>)
    returns (m: Merged, total: nat)
    requires m0 == MergeAll(before) && total0 == |O.Bag(m0.latencies)|
    ensures m == MergeAll(before + PodReports(pods)) && total == |O.Bag(m.latencies)|
  {
    m, total := m0, total0;
    assert before + [] == before;
    for i := 0 to |pods|
      invariant m == MergeAll(before + PodReports(pods[..i])) && total == |O.Bag(m.latencies)|
    {
      PodStep(pods, i, before);
      var found := ReportIn(pods[i]);
      if found.Some? {
        m, total := AbsorbReport(m, total, found.value);
      }
    }
    assert pods[..|pods|] == pods;
  }

  lemma PodStep(pods: seq<Reading>, i: nat, before: seq<Report>)
    requires i < |pods|
    ensures var m := MergeAll(before + PodReports(pods[..i]));
            var found := ReportIn(pods[i]);
            MergeAll(before + PodReports(pods[..i + 1])) == if found.Some? then Absorb(m, found.value) else m
  {
    assert pods[..i + 1][..i] == pods[..i];
    var rs, found := before + PodReports(pods[..i]), ReportIn(pods[i]);
    if found.Some? {
      assert before + PodReports(pods[..i + 1]) == rs + [found.value];
      assert (rs + [found.value])[..|rs|] == rs;
    } else {
      assert PodReports(pods[..i + 1]) == PodReports(pods[..i]);
    }
  }

  /** One report. */
  method AbsorbReport(m0: Merged, total0: nat, report: Report) returns (m: Merged, total: nat)
    requires total0 == |O.Bag(m0.latencies)|
    ensures m == Absorb(m0, report) && total == |O.Bag(m.latencies)|
  {
    var latencies;
    latencies, total := PushAll(m0.latencies, total0, report.latencies);
    var errorStats := MergeErrorStat(m0.errorStats, report.errorStats);
    m := Merged(Add64(m0.bytes, report.bytes), m0.errors + report.errors, errorStats, latencies,
                if report.duration > m0.duration then report.duration else m0.duration);
  }

  /** Append one report's latencies to the lists by key, counting them; keys come in any order. */
  method PushAll(acc: O.Latencies, total0: nat, more: O.Latencies) returns (r: O.Latencies, total: nat)
    requires total0 == |O.Bag(acc)|
    ensures r == O.Add(acc, more) && total == |O.Bag(r)|
  {
    r, total := acc, total0;
    var todo := more.Keys;
    O.AddSomeEnds(acc, more);
    while todo != {}
      invariant todo <= more.Keys
      invariant r == O.AddSome(acc, more, todo)
      invariant total == |O.Bag(r)|
      decreases todo
    {
      var u :| u in todo;
      O.AddSomeStep(acc, more, todo, u);
      r, total := PushOne(r, total, u, more[u]);
      todo := todo - {u};
    }
  }

  method PushOne(acc: O.Latencies, total0: nat, u: string, values: seq<real>) returns (r: O.Latencies, total: nat)
    requires total0 == |O.Bag(acc)|
    ensures r == acc[u := O.Get(acc, u) + values] && total == |O.Bag(r)|
  {
    O.BagUpdate(acc, u, values);
    r, total := acc[u := O.Get(acc, u) + values], total0 + |values|;
  }

  /** Per-key and overall tables; each list is copied into a slice before the slice is sorted. */
  method BuildTables(m: O.Latencies) returns (all: seq<(real, real)>, byURL: map<string, seq<(real, real)>>)
    ensures all == BagTable(O.Bag(m)) && byURL == Tables(m)
  {
    var latencies;
    latencies, byURL := GatherTables(m);
    TableOfBag(latencies);
    all := TableOf(latencies);
  }

  /** One more key. */
  lemma TakeKey(m: O.Latencies, todo: set<string>, u: string)
    requires u in todo && u in m
    ensures O.Bag(m - (todo - {u})) == O.Bag(m - todo) + multiset(m[u])
    ensures Tables(m - (todo - {u})) == Tables(m - todo)[u := P.Table(m[u])]
  {
    O.BagExtend(m - todo, u, m[u]);
    assert (m - todo)[u := m[u]] == m - (todo - {u});
  }

  /** The loop over the keys, in any order. */
  method GatherTables(m: O.Latencies) returns (latencies: seq<real>, byURL: map<string, seq<(real, real)>>)
    ensures multiset(latencies) == O.Bag(m) && byURL == Tables(m)
  {
    latencies, byURL := [], map[];
    var todo := m.Keys;
    assert m - todo == map[];
    while todo != {}
      invariant todo <= m.Keys && multiset(latencies) == O.Bag(m - todo) && byURL == Tables(m - todo)
      decreases todo
    {
      var u :| u in todo;
      TakeKey(m, todo, u);
      var t := TableOf(m[u]);
      latencies := latencies + m[u];
      byURL := byURL[u := t];
      todo := todo - {u};
    }
    assert m - todo == m;
  }

  /** Copy a list into a slice, sort that, pick the percentiles. */
  method TableOf(list: seq<real>) returns (t: seq<(real, real)>)
    ensures t == P.Table(list)
  {
    var slice := ResponseMetrics.Slice(list);
    t := P.BuildPercentileLatencies(slice);
  }

  // ---------------------------------------------------------------- hierarchical equals flat

  ghost predicate MergedDescribes(m: Merged, obs: seq<O.Observation>) {
    && m.bytes == O.Bytes(obs) && m.errors == O.ErrorsOf(obs)
    && m.errorStats == StatsOf(O.ErrorsOf(obs)) && O.Holds(m.latencies, obs)
  }

  lemma AbsorbDescribes(m: Merged, x: seq<O.Observation>, r: Report, y: seq<O.Observation>)
    requires MergedDescribes(m, x) && Reports(r, y) && Carries(r, y)
    ensures MergedDescribes(Absorb(m, r), x + y)
  {
    O.ConcatBytes(x, y);
    O.ConcatErrors(x, y);
    MergeIsConcat(O.ErrorsOf(x), O.ErrorsOf(y));
    O.HoldsAdd(m.latencies, x, r.latencies, y);
  }

  /** Raw-data reports, each about its own observations. */
  ghost predicate Match(rs: seq<Report>, obs: seq<seq<O.Observation>>) {
    |rs| == |obs| && forall i :: 0 <= i < |rs| ==> Reports(rs[i], obs[i]) && Carries(rs[i], obs[i])
  }

  lemma {:induction false} MergeAllDescribes(rs: seq<Report>, obs: seq<seq<O.Observation>>)
    requires Match(rs, obs)
    ensures MergedDescribes(MergeAll(rs), Flatten(obs))
  {
    if rs == [] {
      assert O.Holds(map[], []);
    } else {
      var n := |rs| - 1;
      MergeAllDescribes(rs[..n], obs[..n]);
      AbsorbDescribes(MergeAll(rs[..n]), Flatten(obs[..n]), rs[n], obs[n]);
    }
  }

  /**
   The summary of reports equals the one computed directly from all observations: bytes, error
   list in order, error statistics, per-key and overall percentiles, and the number of latencies.
   */
  lemma HierarchicalEqualsFlat(r: Report, rs: seq<Report>, obs: seq<seq<O.Observation>>)
    requires IsSummary(r, MergeAll(rs)) && Match(rs, obs)
    ensures Reports(r, Flatten(obs))
    ensures r.errors == O.ErrorsOf(Flatten(obs)) && r.errorStats == StatsOf(r.errors)
    ensures r.total == |O.AllLatencies(Flatten(obs))|
  {
    MergeAllDescribes(rs, obs);
    var m, flat := MergeAll(rs), Flatten(obs);
    O.BytesAreSum(flat);
    O.BagIsAll(m.latencies, flat);
    TableOfBag(O.AllLatencies(flat));
    forall k { TablesReport(m.latencies, flat, k); }
  }

  // ---------------------------------------------------------------- any split into groups, runners and specs

  /** What one runner did: the gathered totals and the observations of each of its specs. */
  datatype Runner = Runner(totals: seq<Totals>, duration: nat, obs: seq<seq<O.Observation>>)

  /** The blob is the raw-data result file of that runner; a runner with one spec may have the older format. */
  ghost predicate Wrote(x: Runner, b: Blob) {
    && |x.totals| == |x.obs| > 0
    && (forall i :: 0 <= i < |x.obs| ==> Describes(x.totals[i], x.obs[i]))
    && match b
       case MultiSpec(perSpec, aggregated) =>
         |perSpec| == |x.totals| && IsReport(aggregated, SumAll(x.totals), x.duration, true)
       case SingleSpec(report) => |x.totals| == 1 && IsReport(report, x.totals[0], x.duration, true)
       case Invalid => false
  }

  lemma MatchOne(r: Report, obs: seq<O.Observation>)
    requires Reports(r, obs) && Carries(r, obs)
    ensures Match([r], [obs])
  {
  }

  /** The blob of a runner decodes to a report about all observations of all its specs. */
  lemma AggregatedReports(x: Runner, r: Report)
    requires |x.totals| == |x.obs| && forall i :: 0 <= i < |x.obs| ==> Describes(x.totals[i], x.obs[i])
    requires IsReport(r, SumAll(x.totals), x.duration, true)
    ensures Reports(r, Flatten(x.obs)) && Carries(r, Flatten(x.obs))
  {
    SumAllDescribes(x.totals, x.obs);
    ReportIsCorrect(r, SumAll(x.totals), x.duration, true, Flatten(x.obs));
  }

  lemma FlattenOne(obs: seq<seq<O.Observation>>)
    requires |obs| == 1
    ensures Flatten(obs) == obs[0]
  {
    assert obs[..0] == [] && [] + obs[0] == obs[0];
  }

  lemma WroteReports(x: Runner, b: Blob) returns (r: Report)
    requires Wrote(x, b)
    ensures Decode(b) == Some(r) && r.duration == x.duration
    ensures Reports(r, Flatten(x.obs)) && Carries(r, Flatten(x.obs))
  {
    if b.MultiSpec? {
      r := b.aggregated;
      AggregatedReports(x, r);
    } else {
      r := b.report;
      FlattenOne(x.obs);
      ReportIsCorrect(r, x.totals[0], x.duration, true, x.obs[0]);
    }
  }

  lemma WroteMatches(x: Runner, b: Blob)
    requires Wrote(x, b)
    ensures Decode(b).Some? && Match([Decode(b).value], [Flatten(x.obs)])
  {
    var r := WroteReports(x, b);
    MatchOne(r, Flatten(x.obs));
  }

  /** A blob that was read was written by the runner it is stored under. */
  ghost predicate Written(x: Reading, runners: map<string, Runner>) {
    x.blob.Some? ==> x.pod in runners && Wrote(runners[x.pod], x.blob.value)
  }

  ghost predicate PodsWritten(pods: seq<Reading>, runners: map<string, Runner>) {
    forall i :: 0 <= i < |pods| ==> Written(pods[i], runners)
  }

  ghost predicate AllWritten(groups: seq<Group>, runners: map<string, Runner>) {
    forall g :: 0 <= g < |groups| && groups[g].Some? ==> PodsWritten(groups[g].value, runners)
  }

  /** The observations of the listed runners whose blob was read, all specs of a runner together. */
  function PodObs(runners: map<string, Runner>, pods: seq<Reading>): seq<seq<O.Observation>> {
    if pods == [] then []
    else
      var x := pods[|pods| - 1];
      PodObs(runners, pods[..|pods| - 1])
      + if x.blob.Some? && x.pod in runners then [Flatten(runners[x.pod].obs)] else []
  }

  function AllObs(runners: map<string, Runner>, groups: seq<Group>): seq<seq<O.Observation>> {
    if groups == [] then []
    else
      var g := groups[|groups| - 1];
      AllObs(runners, groups[..|groups| - 1]) + if g.Some? then PodObs(runners, g.value) else []
  }

  lemma MatchConcat(a: seq<Report>, x: seq<seq<O.Observation>>, b: seq<Report>, y: seq<seq<O.Observation>>)
    requires Match(a, x) && Match(b, y)
    ensures Match(a + b, x + y)
  {
    forall i | 0 <= i < |a + b| ensures Reports((a + b)[i], (x + y)[i]) && Carries((a + b)[i], (x + y)[i]) {
      if i < |a| {
        assert (a + b)[i] == a[i] && (x + y)[i] == x[i];
      } else {
        assert (a + b)[i] == b[i - |a|] && (x + y)[i] == y[i - |a|];
      }
    }
  }

  lemma {:induction false} PodsMatch(runners: map<string, Runner>, pods: seq<Reading>)
    requires PodsWritten(pods, runners)
    ensures Match(PodReports(pods), PodObs(runners, pods))
  {
    if pods == [] {
    } else {
      var init, x := pods[..|pods| - 1], pods[|pods| - 1];
      PodsMatch(runners, init);
      assert Written(x, runners);
      if x.blob.Some? {
        WroteMatches(runners[x.pod], x.blob.value);
        MatchConcat(PodReports(init), PodObs(runners, init),
                    [Decode(x.blob.value).value], [Flatten(runners[x.pod].obs)]);
      }
    }
  }

  lemma {:induction false} AllMatch(runners: map<string, Runner>, groups: seq<Group>)
    requires AllWritten(groups, runners)
    ensures Match(AllReports(groups), AllObs(runners, groups))
  {
    if groups == [] {
    } else {
      var init, g := groups[..|groups| - 1], groups[|groups| - 1];
      AllMatch(runners, init);
      if g.Some? {
        PodsMatch(runners, g.value);
        MatchConcat(AllReports(init), AllObs(runners, init), PodReports(g.value), PodObs(runners, g.value));
      }
    }
  }

  /**
   For every split of observations into specs, runners and groups: the summary of the groups
   equals the direct computation from all raw observations of the runners that were listed and read.
   */
  lemma AnySplit(r: Report, runners: map<string, Runner>, groups: seq<Group>)
    requires AllWritten(groups, runners) && IsSummary(r, MergeAll(AllReports(groups)))
    ensures var flat := Flatten(AllObs(runners, groups));
            && Reports(r, flat)
            && r.errors == O.ErrorsOf(flat) && r.errorStats == StatsOf(r.errors)
            && r.total == |O.AllLatencies(flat)|
    ensures forall i :: 0 <= i < |AllReports(groups)| ==> AllReports(groups)[i].duration <= r.duration
  {
    LongestDuration(AllReports(groups));
    AllMatch(runners, groups);
    HierarchicalEqualsFlat(r, AllReports(groups), AllObs(runners, groups));
  }
}
