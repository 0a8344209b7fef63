/** The summary can always become ready, and what happens to it when a job re-creates pods. */
module ReadinessProgress {
  import opened Options
  import opened Sums
  import opened Readiness
  import U = Upload
  import W = JobWatch

  lemma {:induction false} RunsConcat(c: Config, s: State, xs: seq<Label>, m: State, ys: seq<Label>, t: State)
    requires Runs(c, s, xs, m) && Runs(c, m, ys, t)
    ensures Runs(c, s, xs + ys, t)
    decreases |xs|
  {
    if xs == [] {
      assert xs + ys == ys;
    } else {
      assert (xs + ys)[1..] == xs[1..] + ys;
      RunsConcat(c, Apply(c, s, xs[0]), xs[1..], m, ys, t);
    }
  }

  /** A step that is no restart and, unless `news`, no new version of a job. */
  predicate Calm(l: Label, news: bool) {
    !l.Crash? && (news || !l.Sync?)
  }

  /** There is a run of such steps. */
  ghost predicate Leads(c: Config, s: State, t: State, news: bool) {
    exists ls :: Runs(c, s, ls, t) && forall k :: 0 <= k < |ls| ==> Calm(ls[k], news)
  }

  lemma Stays(c: Config, s: State, news: bool)
    ensures Leads(c, s, s, news)
  {
    assert Runs(c, s, [], s);
  }

  lemma OneStep(c: Config, s: State, l: Label, news: bool)
    requires Enabled(c, s, l) && Calm(l, news)
    ensures Leads(c, s, Apply(c, s, l), news)
  {
    assert [l][1..] == [];
    assert Runs(c, s, [l], Apply(c, s, l));
  }

  lemma Via(c: Config, s: State, m: State, t: State, news: bool)
    requires Leads(c, s, m, news) && Leads(c, m, t, news)
    ensures Leads(c, s, t, news)
  {
    var xs :| Runs(c, s, xs, m) && forall k :: 0 <= k < |xs| ==> Calm(xs[k], news);
    var ys :| Runs(c, m, ys, t) && forall k :: 0 <= k < |ys| ==> Calm(ys[k], news);
    RunsConcat(c, s, xs, m, ys, t);
  }

  lemma WithNews(c: Config, s: State, t: State)
    requires Leads(c, s, t, false)
    ensures Leads(c, s, t, true)
  {
    var ls :| Runs(c, s, ls, t) && forall k :: 0 <= k < |ls| ==> Calm(ls[k], false);
    assert forall k :: 0 <= k < |ls| ==> Calm(ls[k], true);
  }

  lemma LeadsReachable(c: Config, s: State, t: State, news: bool)
    requires Reachable(c, s) && Leads(c, s, t, news)
    ensures Reachable(c, t)
  {
    var xs :| Runs(c, Init(c), xs, s);
    var ys :| Runs(c, s, ys, t) && forall k :: 0 <= k < |ys| ==> Calm(ys[k], news);
    RunsConcat(c, Init(c), xs, s, ys, t);
  }

  lemma {:induction false} ScriptsRuns(c: Config, s: State, ls: seq<Label>, t: State)
    requires Runs(c, s, ls, t)
    ensures ScriptsGrow(s.up.scripts, t.up.scripts)
    decreases |ls|
  {
    if ls == [] {
    } else {
      ScriptsOf(c, s, ls[0]);
      ScriptsRuns(c, Apply(c, s, ls[0]), ls[1..], t);
    }
  }

  // ---------------------------------------------------------------- every runner can finish

  /** A run of the uploads is a run of the whole. */
  lemma {:induction false} Lift(c: Config, s: State, us: seq<U.Label>, u: U.State)
    requires U.Runs(c.bodies, s.up, us, u) && U.Crash !in us
    ensures Leads(c, s, s.(up := u), true)
    decreases |us|
  {
    if us == [] {
      Stays(c, s, true);
    } else {
      var m := Apply(c, s, Up(us[0]));
      OneStep(c, s, Up(us[0]), true);
      Lift(c, m, us[1..], u);
      assert m.(up := u) == s.(up := u);
      Via(c, s, m, s.(up := u), true);
    }
  }

  /** The scripts when the given runners, as far as they have not exited, have succeeded. */
  function AllDone(xs: map<string, U.Script>, pods: set<string>): map<string, U.Script> {
    map q | q in xs :: if q in pods && !xs[q].Exited? then U.Exited(0) else xs[q]
  }

  lemma DoneTwice(xs: map<string, U.Script>, p: string, pods: set<string>)
    requires p in pods
    ensures AllDone(AllDone(xs, {p}), pods - {p}) == AllDone(xs, pods)
  {
  }

  lemma FinishPod(c: Config, s: State, p: string) returns (t: State)
    requires Below(c, s) && p in s.up.scripts
    ensures Leads(c, s, t, true) && t == s.(up := t.up) && Below(c, t)
    ensures t.up.scripts == AllDone(s.up.scripts, {p})
  {
    var xs := s.up.scripts;
    if xs[p].Exited? {
      t := s;
      Stays(c, s, true);
      assert AllDone(xs, {p}) == xs;
    } else {
      var us, u := U.SucceedFrom(c.bodies, s.up, p);
      U.InvRuns(c.bodies, s.up, us, u);
      Lift(c, s, us, u);
      t := s.(up := u);
      assert AllDone(xs, {p}) == xs[p := U.Exited(0)];
    }
  }

  lemma {:induction false} FinishPods(c: Config, s: State, pods: set<string>) returns (t: State)
    requires Below(c, s) && pods <= s.up.scripts.Keys
    ensures Leads(c, s, t, true) && t == s.(up := t.up) && Below(c, t)
    ensures t.up.scripts == AllDone(s.up.scripts, pods)
    decreases pods
  {
    if pods == {} {
      t := s;
      Stays(c, s, true);
    } else {
      var p :| p in pods;
      var m := FinishPod(c, s, p);
      t := FinishPods(c, m, pods - {p});
      DoneTwice(s.up.scripts, p, pods);
      Via(c, s, m, t, true);
    }
  }

  // ---------------------------------------------------------------- which waiters can still return

  /** The history holds a completion that the waiter has yet to come to. */
  ghost predicate Hopeful(h: W.History, w: Waiter) {
    match w
    case NotStarted => h != [] && W.JobFinished(h[|h| - 1])
    case Watching(rv) => W.FinishesAfter(h, rv)
    case Resetting => false
    case Replaying(since) => since < |h| && W.FinishesAfter(h, h[since].rv)
    case Returned => true
  }

  /** The waiter has passed the last version, or will be replayed it. */
  predicate Past(h: W.History, w: Waiter) {
    match w
    case NotStarted => false
    case Watching(rv) => h != [] && h[|h| - 1].rv <= rv
    case Resetting => true
    case Replaying(since) => |h| - 1 <= since
    case Returned => false
  }

  /** For a finished job the two are opposites. */
  lemma HopefulMeans(h: W.History, w: Waiter)
    requires W.Ordered(h) && W.JobFinished(h[|h| - 1])
    ensures Hopeful(h, w) <==> !Past(h, w)
  {
    var last := |h| - 1;
    match w
    case Watching(rv) =>
      assert rv < h[last].rv ==> W.FinishesAfter(h, rv);
      if k :| 0 <= k < |h| && rv < h[k].rv && W.JobFinished(h[k]) {
        assert h[k].rv <= h[last].rv;
      }
    case Replaying(since) =>
      if since < last {
        assert h[since].rv < h[last].rv;
      } else if since == last {
        LastIsLast(h);
      }
    case _ =>
  }

  lemma LastIsLast(h: W.History)
    requires W.Ordered(h)
    ensures !W.FinishesAfter(h, h[|h| - 1].rv)
  {
    forall k | 0 <= k < |h| ensures h[k].rv <= h[|h| - 1].rv {
    }
  }

  /** A hopeful waiter can return without another version. */
  lemma ReturnHopeful(c: Config, s: State, g: nat) returns (t: State)
    requires Jobs(c, s) && g < |c.jobs| && Hopeful(s.histories[g], s.waiters[g])
    ensures Leads(c, s, t, false) && t == s.(waiters := s.waiters[g := Returned])
  {
    var h, w := s.histories[g], s.waiters[g];
    assert HistoryOk(c.jobs[g], h, s.up.scripts, s.clock) && WaiterOk(h, w, s.clock);
    if w == Returned {
      t := s;
      Stays(c, s, false);
      assert s.waiters[g := Returned] == s.waiters;
    } else {
      var l := Get(g);
      if w.Watching? {
        var events := W.Deliver(h, w.rv, 0);
        l := Watch(g, events);
      } else if w.Replaying? {
        var events := W.DeliverReplay(h, w.since);
        l := Watch(g, events);
      }
      OneStep(c, s, l, false);
      t := Apply(c, s, l);
    }
  }

  /** Without another version a waiter without hope never has any again. */
  lemma WatchStaysHopeless(h: W.History, w: Waiter, events: seq<W.Event>, clock: nat)
    requires W.Ordered(h) && WaiterOk(h, w, clock) && MayDeliver(h, w, events, clock) && !Hopeful(h, w)
    ensures !Hopeful(h, AfterWatch(w, events))
  {
    if w.Watching? {
      W.ScanRange(h, w.rv, events, 0);
    } else {
      W.ScanReplay(h, events, w.since);
      ReplayStaysHopeless(h, w.since, events);
    }
  }

  lemma ReplayStaysHopeless(h: W.History, since: nat, events: seq<W.Event>)
    requires W.Ordered(h) && since < |h| && W.Serves(h, None, events, since) && !W.FinishesAfter(h, h[since].rv)
    ensures var (outcome, rv) := W.Scan(events, None);
            outcome != W.Finished && (rv.Some? ==> !W.FinishesAfter(h, rv.value))
  {
    W.ScanReplay(h, events, since);
    var (outcome, rv) := W.Scan(events, None);
    assert forall k :: since < k < |h| ==> h[since].rv < h[k].rv;
    if outcome != W.Finished && rv.Some? {
      var i :| since <= i < |h| && h[i].rv <= rv.value;
      forall k | 0 <= k < |h| && rv.value < h[k].rv ensures !W.JobFinished(h[k]) {
        assert h[since].rv <= h[i].rv;
      }
    }
  }

  lemma HopelessStep(c: Config, s: State, l: Label, g: nat)
    requires Jobs(c, s) && Enabled(c, s, l) && Calm(l, false) && g < |c.jobs| && !Hopeful(s.histories[g], s.waiters[g])
    ensures var t := Apply(c, s, l);
            |t.histories| == |t.waiters| == |c.jobs| && !Hopeful(t.histories[g], t.waiters[g])
  {
    var h, w := s.histories[g], s.waiters[g];
    assert HistoryOk(c.jobs[g], h, s.up.scripts, s.clock) && WaiterOk(h, w, s.clock);
    LastIsLast(h);
    if l.Watch? && l.g == g {
      WatchStaysHopeless(h, w, l.events, s.clock);
    }
  }

  lemma {:induction false} HopelessRuns(c: Config, s: State, ls: seq<Label>, t: State, g: nat)
    requires Jobs(c, s) && s.phase == WaitingForJobs && g < |c.jobs| && !Hopeful(s.histories[g], s.waiters[g])
    requires Runs(c, s, ls, t) && forall k :: 0 <= k < |ls| ==> Calm(ls[k], false)
    ensures t.phase == WaitingForJobs
    decreases |ls|
  {
    if ls == [] {
    } else {
      var l := ls[0];
      JobsStep(c, s, l);
      HopelessStep(c, s, l, g);
      assert l != Start;
      forall k | 0 <= k < |ls[1..]| ensures Calm(ls[1..][k], false) {
        assert ls[1..][k] == ls[k + 1];
      }
      HopelessRuns(c, Apply(c, s, l), ls[1..], t, g);
    }
  }

  // ---------------------------------------------------------------- every wait can return

  /** Only what the waiters see and do differs. */
  predicate OnlyWaits(s: State, t: State) {
    t == s.(clock := t.clock, histories := t.histories, waiters := t.waiters)
  }

  predicate ReturnedBelow(ws: seq<Waiter>, n: nat) {
    n <= |ws| && forall g :: 0 <= g < n ==> ws[g] == Returned
  }

  lemma OneMore(ws: seq<Waiter>, g: nat)
    requires ReturnedBelow(ws, g) && g < |ws|
    ensures ReturnedBelow(ws[g := Returned], g + 1)
  {
  }

  ghost predicate AllHopeful(c: Config, s: State) {
    |s.histories| == |s.waiters| == |c.jobs|
    && forall g :: 0 <= g < |c.jobs| ==> Hopeful(s.histories[g], s.waiters[g])
  }

  /** All hopeful waiters from g on return. */
  lemma {:induction false} ReturnRest(c: Config, s: State, g: nat) returns (t: State)
    requires Reachable(c, s) && AllHopeful(c, s) && ReturnedBelow(s.waiters, g)
    ensures Leads(c, s, t, false) && OnlyWaits(s, t) && AllReturned(t.waiters)
    decreases |c.jobs| - g
  {
    if g == |c.jobs| {
      t := s;
      Stays(c, s, false);
    } else {
      ReachableInv(c, s);
      var m := ReturnHopeful(c, s, g);
      LeadsReachable(c, s, m, false);
      OneMore(s.waiters, g);
      t := ReturnRest(c, m, g + 1);
      Via(c, s, m, t, false);
    }
  }

  /** No job has a pod left. */
  ghost predicate JobsDone(c: Config, xs: map<string, U.Script>) {
    forall g :: 0 <= g < |c.jobs| ==> AllExited(c.jobs[g].pods, xs) && |c.jobs[g].pods| == c.jobs[g].completions
  }

  /** With one more version of its job, seen after the watch is up again, a waiter has hope. */
  lemma GiveHope(c: Config, s: State, g: nat) returns (t: State)
    requires Reachable(c, s) && g < |c.jobs| && JobsDone(c, s.up.scripts)
    ensures Leads(c, s, t, true) && OnlyWaits(s, t)
    ensures |t.waiters| == |t.histories| == |s.waiters| == |s.histories| == |c.jobs|
    ensures Hopeful(t.histories[g], t.waiters[g])
    ensures forall i :: 0 <= i < |c.jobs| && i != g ==> t.histories[i] == s.histories[i] && t.waiters[i] == s.waiters[i]
  {
    ReachableInv(c, s);
    var m := s;
    Stays(c, s, true);
    if s.waiters[g] == Resetting {
      OneStep(c, s, Establish(g), true);
      m := Apply(c, s, Establish(g));
      JobsStep(c, s, Establish(g));
    }
    t := NewVersion(c, m, g);
    Via(c, s, m, t, true);
  }

  lemma NewVersion(c: Config, s: State, g: nat) returns (t: State)
    requires Jobs(c, s) && g < |c.jobs| && JobsDone(c, s.up.scripts) && s.waiters[g] != Resetting
    ensures Leads(c, s, t, true) && OnlyWaits(s, t) && t.waiters == s.waiters && |t.histories| == |s.histories|
    ensures Hopeful(t.histories[g], t.waiters[g])
    ensures forall i :: 0 <= i < |c.jobs| && i != g ==> t.histories[i] == s.histories[i]
  {
    var pods, xs, h := c.jobs[g].pods, s.up.scripts, s.histories[g];
    EveryPodCounted(pods, xs);
    assert HistoryOk(c.jobs[g], h, xs, s.clock) && WaiterOk(h, s.waiters[g], s.clock);
    var sync := Sync(g, Sum(pods, Failed(xs)), Sum(pods, Succeeded(xs)));
    OneStep(c, s, sync, true);
    t := Apply(c, s, sync);
    NewIsAhead(h, t.histories[g], s.waiters[g], s.clock);
  }

  lemma NewIsAhead(h: W.History, h': W.History, w: Waiter, clock: nat)
    requires W.Ordered(h) && WaiterOk(h, w, clock) && w != Resetting
    requires |h'| == |h| + 1 && h <= h' && W.JobFinished(h'[|h|]) && h'[|h|].rv == clock + 1
    requires forall k :: 0 <= k < |h| ==> h[k].rv <= clock
    ensures Hopeful(h', w)
  {
    if w.Watching? {
      assert w.rv < h'[|h|].rv;
    } else if w.Replaying? {
      assert h'[w.since] == h[w.since] && h'[w.since].rv < h'[|h|].rv;
    }
  }

  ghost predicate HopefulBelow(s: State, n: nat) {
    n <= |s.waiters| == |s.histories| && forall g :: 0 <= g < n ==> Hopeful(s.histories[g], s.waiters[g])
  }

  lemma {:induction false} GiveHopeRest(c: Config, s: State, g: nat) returns (t: State)
    requires Reachable(c, s) && g <= |c.jobs| == |s.waiters| && JobsDone(c, s.up.scripts) && HopefulBelow(s, g)
    ensures Leads(c, s, t, true) && OnlyWaits(s, t) && AllHopeful(c, t)
    decreases |c.jobs| - g
  {
    if g == |c.jobs| {
      t := s;
      Stays(c, s, true);
    } else {
      var m := GiveHope(c, s, g);
      LeadsReachable(c, s, m, true);
      t := GiveHopeRest(c, m, g + 1);
      Via(c, s, m, t, true);
    }
  }

  // ---------------------------------------------------------------- the summary can be published

  function PhaseRank(p: Phase): nat {
    match p
    case WaitingForJobs => 3
    case Reading => 2
    case Assigned => 1
    case Ready => 0
  }

  /** What the summary goroutine does next. */
  function NextLabel(c: Config, s: State): Label {
    if s.phase == WaitingForJobs then Start
    else if s.phase == Assigned then Publish
    else if s.todo != [] then ReadPod(false)
    else if s.next < |c.jobs| then List(Some(c.jobs[s.next].pods))
    else Assign
  }

  lemma {:induction false} PublishFrom(c: Config, s: State) returns (t: State)
    requires Phases(c, s) && AllReturned(s.waiters)
    ensures Leads(c, s, t, false) && t.phase == Ready && t.up == s.up
    decreases PhaseRank(s.phase), |c.jobs| - s.next, |s.todo|
  {
    if s.phase == Ready {
      t := s;
      Stays(c, s, false);
    } else {
      var l := NextLabel(c, s);
      PhasesStep(c, s, l);
      OneStep(c, s, l, false);
      t := PublishFrom(c, Apply(c, s, l));
      Via(c, s, Apply(c, s, l), t, false);
    }
  }

  // ---------------------------------------------------------------- progress

  /** One pod per completion, each with a result to upload. */
  ghost predicate Runnable(c: Config) {
    forall g :: 0 <= g < |c.jobs| ==>
      && |c.jobs[g].pods| == c.jobs[g].completions
      && forall i :: 0 <= i < |c.jobs[g].pods| ==> c.jobs[g].pods[i] in c.bodies
  }

  lemma KnownScripts(c: Config, s: State)
    requires Reachable(c, s)
    ensures forall p :: p in c.bodies ==> p in s.up.scripts
  {
    var ls :| Runs(c, Init(c), ls, s);
    ScriptsRuns(c, Init(c), ls, s);
  }

  /** With hope for every waiter the summary can become ready without another version. */
  lemma PublishHopeful(c: Config, s: State) returns (t: State)
    requires Reachable(c, s) && AllHopeful(c, s)
    ensures Leads(c, s, t, false) && t.phase == Ready && t.up == s.up
  {
    var m := ReturnRest(c, s, 0);
    LeadsReachable(c, s, m, false);
    ReachableInv(c, m);
    t := PublishFrom(c, m);
    Via(c, s, m, t, false);
  }

  /**
   Without a restart and without another version of any job, the summary can become ready exactly if
   the waits are over or every waiter has a completion ahead of it.
   */
  lemma PublishExactly(c: Config, s: State)
    requires Reachable(c, s)
    ensures (exists t :: Leads(c, s, t, false) && t.phase == Ready) <==> s.phase != WaitingForJobs || AllHopeful(c, s)
  {
    ReachableInv(c, s);
    if s.phase != WaitingForJobs {
      var t := PublishFrom(c, s);
    } else if AllHopeful(c, s) {
      var t := PublishHopeful(c, s);
    } else {
      var g :| 0 <= g < |c.jobs| && !Hopeful(s.histories[g], s.waiters[g]);
      forall t | Leads(c, s, t, false) ensures t.phase != Ready {
        var ls :| Runs(c, s, ls, t) && forall k :: 0 <= k < |ls| ==> Calm(ls[k], false);
        HopelessRuns(c, s, ls, t, g);
      }
    }
  }

  /** When all jobs have finished: exactly if no waiter is past the last version of its job. */
  lemma PublishWhenFinished(c: Config, s: State)
    requires Reachable(c, s) && s.phase == WaitingForJobs && |s.histories| == |s.waiters| == |c.jobs|
    requires forall g :: 0 <= g < |c.jobs| ==>
               s.histories[g] != [] && W.JobFinished(s.histories[g][|s.histories[g]| - 1])
    ensures (exists t :: Leads(c, s, t, false) && t.phase == Ready)
       <==> forall g :: 0 <= g < |c.jobs| ==> !Past(s.histories[g], s.waiters[g])
  {
    ReachableInv(c, s);
    PublishExactly(c, s);
    forall g | 0 <= g < |c.jobs|
      ensures Hopeful(s.histories[g], s.waiters[g]) <==> !Past(s.histories[g], s.waiters[g])
    {
      assert HistoryOk(c.jobs[g], s.histories[g], s.up.scripts, s.clock);
      HopefulMeans(s.histories[g], s.waiters[g]);
    }
  }

  /**
   From every reachable state, whatever was lost, reset, restarted or killed, the summary can still
   become ready without another restart, with at most one more version of each job, and every
   runner that had not exited can have succeeded by then.
   */
  lemma CanPublish(c: Config, s: State) returns (t: State)
    requires Reachable(c, s) && Runnable(c)
    ensures Leads(c, s, t, true) && t.phase == Ready
    ensures t.up.scripts == AllDone(s.up.scripts, c.bodies.Keys)
  {
    ReachableInv(c, s);
    KnownScripts(c, s);
    var m := FinishPods(c, s, c.bodies.Keys);
    LeadsReachable(c, s, m, true);
    var n := GiveHopeRest(c, m, 0);
    LeadsReachable(c, m, n, true);
    Via(c, s, m, n, true);
    t := PublishHopeful(c, n);
    WithNews(c, n, t);
    Via(c, s, n, t, true);
  }

  /** So for every such deployment there is a ready state in which every runner has succeeded. */
  lemma AllCanSucceed(c: Config) returns (s: State)
    requires Runnable(c)
    ensures Reachable(c, s) && s.phase == Ready
    ensures forall p :: p in c.bodies ==> p in s.up.scripts && s.up.scripts[p] == U.Exited(0)
  {
    var i := Init(c);
    assert Runs(c, i, [], i);
    s := CanPublish(c, i);
    LeadsReachable(c, i, s, true);
  }

  // ---------------------------------------------------------------- pods that are re-created

  /** All pods are different and known. */
  ghost predicate Distinct(c: Config, g: nat)
    requires g < |c.jobs|
  {
    && (forall i :: 0 <= i < |c.jobs[g].pods| ==> c.jobs[g].pods[i] in c.bodies)
    && forall i, j :: 0 <= i < j < |c.jobs[g].pods| ==> c.jobs[g].pods[i] != c.jobs[g].pods[j]
  }

  lemma StepReachable(c: Config, s: State, l: Label)
    requires Reachable(c, s) && Enabled(c, s, l)
    ensures Reachable(c, Apply(c, s, l))
  {
    var xs :| Runs(c, Init(c), xs, s);
    assert [l][1..] == [] && Runs(c, s, [l], Apply(c, s, l));
    RunsConcat(c, Init(c), xs, s, [l], Apply(c, s, l));
  }

  lemma KillPod(c: Config, s: State, p: string) returns (t: State)
    requires Reachable(c, s) && p in s.up.scripts && s.up.scripts[p] == U.Looping
    ensures Reachable(c, t) && t == s.(up := t.up) && t.up.scripts == s.up.scripts[p := U.Exited(1)]
  {
    StepReachable(c, s, Up(U.Kill(p)));
    t := Apply(c, s, Up(U.Kill(p)));
  }

  /** The first n pods are dead, the others at work. */
  ghost predicate Killed(pods: seq<string>, xs: map<string, U.Script>, n: nat) {
    forall i :: 0 <= i < |pods| ==> pods[i] in xs && xs[pods[i]] == if i < n then U.Exited(1) else U.Looping
  }

  /** The first n pods of a job die. */
  lemma {:induction false} KillFirst(c: Config, g: nat, n: nat) returns (s: State)
    requires g < |c.jobs| && Distinct(c, g) && n <= |c.jobs[g].pods|
    ensures Reachable(c, s) && s == Init(c).(up := s.up) && Killed(c.jobs[g].pods, s.up.scripts, n)
  {
    if n == 0 {
      s := Init(c);
      assert Runs(c, s, [], s);
    } else {
      var m := KillFirst(c, g, n - 1);
      s := KillPod(c, m, c.jobs[g].pods[n - 1]);
    }
  }

  lemma {:induction false} FailedCount(pods: seq<string>, xs: map<string, U.Script>, n: nat)
    requires n <= |pods| && forall i :: 0 <= i < n ==> pods[i] in xs && xs[pods[i]] == U.Exited(1)
    ensures Sum(pods, Failed(xs)) >= n
  {
    if n == 0 {
    } else {
      assert forall i :: 0 <= i < n - 1 ==> pods[1..][i] == pods[i + 1];
      FailedCount(pods[1..], xs, n - 1);
    }
  }

  /** A version that counts n failed pods. */
  lemma CountFailed(c: Config, s: State, g: nat, n: nat) returns (t: State)
    requires Reachable(c, s) && g < |c.jobs| && Sum(c.jobs[g].pods, Failed(s.up.scripts)) >= n
    requires g < |s.histories| && s.histories[g] != []
    ensures Reachable(c, t) && t.up == s.up && t.waiters == s.waiters && t.phase == s.phase && g < |t.histories|
    ensures t.histories[g] == s.histories[g] + [W.Version(s.clock + 1, n, 0, c.jobs[g].completions)]
  {
    StepReachable(c, s, Sync(g, n, 0));
    t := Apply(c, s, Sync(g, n, 0));
  }

  /** With more pods than completions the wait can return while a runner is still at work. */
  lemma RecreatedPodIsMissed(c: Config, g: nat) returns (s: State)
    requires g < |c.jobs| && Distinct(c, g) && |c.jobs[g].pods| > c.jobs[g].completions
    ensures Reachable(c, s) && WaitReturned(s, g) && !AllExited(c.jobs[g].pods, s.up.scripts)
  {
    var n := c.jobs[g].completions;
    var m := KillFirst(c, g, n);
    FailedCount(c.jobs[g].pods, m.up.scripts, n);
    m := CountFailed(c, m, g, n);
    StepReachable(c, m, Get(g));
    s := Apply(c, m, Get(g));
    assert s.up.scripts[c.jobs[g].pods[n]] == U.Looping;
  }

  /** A returned wait means that every pod has terminated, exactly if no pod is re-created. */
  lemma TerminatedExactly(c: Config, g: nat)
    requires g < |c.jobs| && Distinct(c, g)
    ensures (forall s :: Reachable(c, s) && WaitReturned(s, g) ==> AllExited(c.jobs[g].pods, s.up.scripts))
       <==> |c.jobs[g].pods| <= c.jobs[g].completions
  {
    if |c.jobs[g].pods| <= c.jobs[g].completions {
      forall s | Reachable(c, s) && WaitReturned(s, g) ensures AllExited(c.jobs[g].pods, s.up.scripts) {
        WaitedMeansTerminated(c, s, g);
      }
    } else {
      var s := RecreatedPodIsMissed(c, g);
    }
  }

  // ---------------------------------------------------------------- a waiter that is past the end

  /** The watch of job g expires before the job finishes. */
  lemma WatchExpires(c: Config, s: State, g: nat) returns (t: State)
    requires Reachable(c, s) && g < |c.jobs| && c.jobs[g].completions > 0 && s == Init(c).(up := s.up)
    ensures Reachable(c, t) && t == s.(waiters := s.waiters[g := Resetting])
  {
    StepReachable(c, s, Get(g));
    var m := Apply(c, s, Get(g));
    var expire := Watch(g, [W.ErrorEvent(W.Expired)]);
    StepReachable(c, m, expire);
    t := Apply(c, m, expire);
    assert s.waiters[g := Watching(0)][g := Resetting] == s.waiters[g := Resetting];
  }

  /** A job that has finished, with all its pods gone, and whose waiter will not hear of it. */
  lemma FinishedButStuck(c: Config, g: nat) returns (s: State)
    requires g < |c.jobs| && Distinct(c, g) && |c.jobs[g].pods| == c.jobs[g].completions > 0
    ensures Reachable(c, s) && s.phase == WaitingForJobs && |s.histories| == |s.waiters| == |c.jobs|
    ensures AllExited(c.jobs[g].pods, s.up.scripts)
    ensures s.histories[g] != [] && W.JobFinished(s.histories[g][|s.histories[g]| - 1])
    ensures Past(s.histories[g], s.waiters[g])
    ensures !exists t :: Leads(c, s, t, false) && t.phase == Ready
  {
    var n := c.jobs[g].completions;
    var m := KillFirst(c, g, n);
    FailedCount(c.jobs[g].pods, m.up.scripts, n);
    m := WatchExpires(c, m, g);
    s := CountFailed(c, m, g, n);
    ReachableInv(c, s);
    PublishExactly(c, s);
  }
}
