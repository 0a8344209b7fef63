/**
 From the end of the runners to the published summary. Runner scripts upload and exit; the job
 controller counts their pods; the server's waiters return when they have seen their job finished;
 then the summary is built, pod by pod, while abandoned uploads may still be going on; then it is
 published.
 */
module Readiness {
  import opened Options
  import opened Sums
  import LS = LocalStore
  import U = Upload
  import W = JobWatch

  /** All pods a job ever has, and how many completions it asks for. */
  datatype Job = Job(pods: seq<string>, completions: nat)

  datatype Config = Config(bodies: U.Bodies, jobs: seq<Job>) {
    /** No pod is re-created: a job has at most one pod per completion. */
    ghost predicate Single() {
      forall g :: 0 <= g < |jobs| ==> |jobs[g].pods| <= jobs[g].completions
    }
  }

  /** The summary goroutine: waiting, reading blobs, report assigned, channel closed. */
  datatype Phase = WaitingForJobs | Reading | Assigned | Ready

  type Entry = (string, LS.Bytes)

  /** A pod and what reading its blob gave. */
  datatype Seen = Seen(pod: string, blob: Option<LS.Bytes>)

  /** What one group gave: None if its pods could not be listed. */
  type Listing = Option<seq<Seen>>

  /**
   The goroutine that waits for one job. It gets the job once. Then it watches from the last seen
   version; or, after an expiry, has no version and no watch; or has a watch without a version, up
   since the job's version with index `since`, that has delivered nothing yet.
   */
  datatype Waiter = NotStarted | Watching(rv: nat) | Resetting | Replaying(since: nat) | Returned

  datatype State = State(
    up: U.State,
    clock: nat,                           // the resource version of the whole cluster
    histories: seq<W.History>,            // all versions of every job
    waiters: seq<Waiter>,
    phase: Phase,
    listed: seq<string>,                  // pods listed so far, over the groups listed so far
    next: nat,                            // next group to list
    todo: seq<string>,                    // pods of the current group not read yet
    log: seq<Listing>,                    // listings and reads so far
    included: seq<Entry>,                 // runners whose blob went into the report
    faulted: multiset<string>,            // reads that failed on their own
    missing: multiset<string>,            // reads that found no blob
    report: Option<seq<Entry>>
  )

  datatype Label =
    | Up(l: U.Label)
    | Sync(g: nat, failed: nat, succeeded: nat)  // the job controller updates a status
    | Tick                                       // something else in the cluster changes
    | Get(g: nat)
    | Establish(g: nat)                          // a watch without a version is up
    | Watch(g: nat, events: seq<W.Event>)        // what a watch delivers; errors that end Wait are a Crash
    | Start
    | List(pods: Option<seq<string>>)            // None: the listing fails and the group is skipped
    | ReadPod(fault: bool)
    | Assign
    | Publish
    | Crash                                      // the server restarts

  function Init(c: Config): State {
    State(U.Init(c.bodies), 0,
          seq(|c.jobs|, g requires 0 <= g < |c.jobs| => [W.Version(0, 0, 0, c.jobs[g].completions)]),
          seq(|c.jobs|, _ => NotStarted),
          WaitingForJobs, [], 0, [], [], [], multiset{}, multiset{}, None)
  }

  function Succeeded(xs: map<string, U.Script>): string -> nat {
    (p: string) => One(p in xs && xs[p] == U.Exited(0))
  }

  function Failed(xs: map<string, U.Script>): string -> nat {
    (p: string) => One(p in xs && xs[p].Exited? && xs[p].code != 0)
  }

  function RvOf(w: Waiter): Option<nat> {
    if w.Watching? then Some(w.rv) else None
  }

  /** The events are served by the history, and not by a version later than the cluster's. */
  ghost predicate MayDeliver(h: W.History, w: Waiter, events: seq<W.Event>, clock: nat) {
    && (w.Watching? || w.Replaying?)
    && W.Serves(h, RvOf(w), events, if w.Replaying? then w.since else 0)
    && var (outcome, rv) := W.Scan(events, RvOf(w));
       && outcome != W.Cancelled && outcome != W.Failed(W.Fatal)
       && (outcome != W.Finished && rv.Some? ==> rv.value <= clock)
  }

  /** One watch, up to where it ends or falls silent. */
  function AfterWatch(w: Waiter, events: seq<W.Event>): Waiter {
    var (outcome, rv) := W.Scan(events, RvOf(w));
    if outcome == W.Finished then Returned
    else if outcome == W.Failed(W.Expired) then Resetting
    else if rv.Some? then Watching(rv.value)
    else if outcome == W.Open then w
    else Resetting
  }

  predicate AllReturned(ws: seq<Waiter>) {
    forall g :: 0 <= g < |ws| ==> ws[g] == Returned
  }

  ghost predicate Enabled(c: Config, s: State, l: Label) {
    match l
    case Up(u) => !u.Crash? && U.Enabled(c.bodies, s.up, u)
    case Sync(g, failed, succeeded) =>
      // A status never counts a pod that has not terminated that way.
      && g < |c.jobs| && g < |s.histories| && s.histories[g] != []
      && succeeded <= Sum(c.jobs[g].pods, Succeeded(s.up.scripts))
      && failed <= Sum(c.jobs[g].pods, Failed(s.up.scripts))
    case Tick => true
    case Get(g) => g < |s.histories| && g < |s.waiters| && s.histories[g] != [] && s.waiters[g] == NotStarted
    case Establish(g) => g < |s.histories| && g < |s.waiters| && s.histories[g] != [] && s.waiters[g] == Resetting
    case Watch(g, events) =>
      g < |s.histories| && g < |s.waiters| && MayDeliver(s.histories[g], s.waiters[g], events, s.clock)
    case Start => s.phase == WaitingForJobs && AllReturned(s.waiters)
    case List(_) => s.phase == Reading && s.todo == [] && s.next < |c.jobs|
    case ReadPod(_) => s.phase == Reading && s.todo != []
    case Assign => s.phase == Reading && s.todo == [] && s.next == |c.jobs|
    case Publish => s.phase == Assigned
    case Crash => true
  }

  function Apply(c: Config, s: State, l: Label): State
    requires Enabled(c, s, l)
  {
    match l
    case Up(u) => s.(up := U.Apply(c.bodies, s.up, u))
    case Sync(g, failed, succeeded) =>
      s.(clock := s.clock + 1,
         histories := s.histories[g := s.histories[g]
                                       + [W.Version(s.clock + 1, failed, succeeded, c.jobs[g].completions)]])
    case Tick => s.(clock := s.clock + 1)
    case Get(g) => s.(waiters := s.waiters[g := AfterGet(s.histories[g])])
    case Establish(g) => s.(waiters := s.waiters[g := Replaying(|s.histories[g]| - 1)])
    case Watch(g, events) => s.(waiters := s.waiters[g := AfterWatch(s.waiters[g], events)])
    case Start => s.(phase := Reading)
    case List(pods) =>
      var p := if pods.Some? then pods.value else [];
      s.(next := s.next + 1, todo := p, listed := s.listed + p,
         log := s.log + [if pods.Some? then Some([]) else None])
    case ReadPod(fault) => ApplyRead(s, fault)
    case Assign => s.(phase := Assigned, report := Some(s.included))
    case Publish => s.(phase := Ready)
    case Crash =>
      s.(up := U.Apply(c.bodies, s.up, U.Crash), waiters := seq(|s.waiters|, _ => NotStarted),
         phase := WaitingForJobs, listed := [], next := 0, todo := [], log := [], included := [],
         faulted := multiset{}, missing := multiset{}, report := None)
  }

  function AfterGet(h: W.History): Waiter
    requires h != []
  {
    if W.JobFinished(h[|h| - 1]) then Returned else Watching(h[|h| - 1].rv)
  }

  function ApplyRead(s: State, fault: bool): State
    requires s.todo != []
  {
    var p := s.todo[0];
    var blob := LS.Read(s.up.store.files, p);
    var t := s.(todo := s.todo[1..], log := AddSeen(s.log, Seen(p, if fault then None else blob)));
    if fault then t.(faulted := s.faulted + multiset{p})
    else if blob.None? then t.(missing := s.missing + multiset{p})
    else t.(included := s.included + [(p, blob.value)])
  }

  /** One more read, in the group listed last. */
  function AddSeen(log: seq<Listing>, x: Seen): seq<Listing> {
    if log == [] || log[|log| - 1].None? then log
    else log[..|log| - 1] + [Some(log[|log| - 1].value + [x])]
  }

  ghost predicate Runs(c: Config, s: State, ls: seq<Label>, t: State)
    decreases |ls|
  {
    if ls == [] then s == t
    else Enabled(c, s, ls[0]) && Runs(c, Apply(c, s, ls[0]), ls[1..], t)
  }

  ghost predicate Reachable(c: Config, t: State) {
    exists ls :: Runs(c, Init(c), ls, t)
  }

  // ---------------------------------------------------------------- jobs and pods

  ghost predicate AllExited(pods: seq<string>, xs: map<string, U.Script>) {
    forall i :: 0 <= i < |pods| ==> pods[i] in xs && xs[pods[i]].Exited?
  }

  /** As many terminated pods as pods: then every pod has terminated, and the other way round. */
  lemma {:induction false} EveryPodCounted(pods: seq<string>, xs: map<string, U.Script>)
    ensures Sum(pods, Succeeded(xs)) + Sum(pods, Failed(xs)) <= |pods|
    ensures Sum(pods, Succeeded(xs)) + Sum(pods, Failed(xs)) == |pods| <==> AllExited(pods, xs)
  {
    if pods == [] {
    } else {
      EveryPodCounted(pods[1..], xs);
      assert forall i :: 1 <= i < |pods| ==> pods[i] == pods[1..][i - 1];
      assert AllExited(pods, xs) ==> AllExited(pods[1..], xs);
    }
  }

  /** No version of a job counts more pods than have terminated by now, or is later than the cluster's. */
  ghost predicate HistoryOk(j: Job, h: W.History, xs: map<string, U.Script>, clock: nat) {
    && W.Ordered(h)
    && forall k :: 0 <= k < |h| ==>
         && h[k].rv <= clock && h[k].completions == j.completions
         && h[k].succeeded <= Sum(j.pods, Succeeded(xs)) && h[k].failed <= Sum(j.pods, Failed(xs))
  }

  ghost predicate Finished(h: W.History) {
    exists k :: 0 <= k < |h| && W.JobFinished(h[k])
  }

  ghost predicate WaiterOk(h: W.History, w: Waiter, clock: nat) {
    match w
    case Returned => Finished(h)
    case Watching(rv) => rv <= clock
    case Replaying(since) => since < |h|
    case _ => true
  }

  ghost predicate Jobs(c: Config, s: State) {
    && |s.histories| == |c.jobs| == |s.waiters|
    && forall g :: 0 <= g < |c.jobs| ==>
         HistoryOk(c.jobs[g], s.histories[g], s.up.scripts, s.clock) && WaiterOk(s.histories[g], s.waiters[g], s.clock)
  }

  /** A finished job without re-created pods has no pod left. */
  lemma FinishedMeansExited(j: Job, h: W.History, xs: map<string, U.Script>, clock: nat)
    requires HistoryOk(j, h, xs, clock) && Finished(h) && |j.pods| <= j.completions
    ensures AllExited(j.pods, xs)
  {
    EveryPodCounted(j.pods, xs);
  }

  /** A script that has exited stays as it is. */
  ghost predicate ScriptsGrow(xs: map<string, U.Script>, ys: map<string, U.Script>) {
    forall r :: r in xs ==> r in ys && (xs[r].Exited? ==> ys[r] == xs[r])
  }

  lemma UploadGrows(b: U.Bodies, s: U.State, l: U.Label)
    requires U.Enabled(b, s, l)
    ensures ScriptsGrow(s.scripts, U.Apply(b, s, l).scripts)
  {
  }

  lemma {:induction false} CountsGrow(pods: seq<string>, xs: map<string, U.Script>, ys: map<string, U.Script>)
    requires ScriptsGrow(xs, ys)
    ensures Sum(pods, Succeeded(xs)) <= Sum(pods, Succeeded(ys))
    ensures Sum(pods, Failed(xs)) <= Sum(pods, Failed(ys))
  {
    if pods == [] {
    } else {
      CountsGrow(pods[1..], xs, ys);
    }
  }

  lemma ScriptsOf(c: Config, s: State, l: Label)
    requires Enabled(c, s, l)
    ensures ScriptsGrow(s.up.scripts, Apply(c, s, l).up.scripts)
  {
    if l.Up? { UploadGrows(c.bodies, s.up, l.l); }
  }

  lemma HistoryKept(j: Job, h: W.History, xs: map<string, U.Script>, ys: map<string, U.Script>, t: nat, u: nat)
    requires HistoryOk(j, h, xs, t) && ScriptsGrow(xs, ys) && t <= u
    ensures HistoryOk(j, h, ys, u)
  {
    CountsGrow(j.pods, xs, ys);
  }

  lemma HistoryGrows(
    j: Job, h: W.History, w: Waiter, xs: map<string, U.Script>, clock: nat, failed: nat, succeeded: nat)
    requires HistoryOk(j, h, xs, clock) && WaiterOk(h, w, clock)
    requires succeeded <= Sum(j.pods, Succeeded(xs)) && failed <= Sum(j.pods, Failed(xs))
    ensures var h' := h + [W.Version(clock + 1, failed, succeeded, j.completions)];
            HistoryOk(j, h', xs, clock + 1) && WaiterOk(h', w, clock + 1)
  {
    var h' := h + [W.Version(clock + 1, failed, succeeded, j.completions)];
    assert forall k :: 0 <= k < |h| ==> h'[k] == h[k];
  }

  /** A waiter that returns has seen a finished version. */
  lemma WatchOk(h: W.History, w: Waiter, events: seq<W.Event>, clock: nat)
    requires W.Ordered(h) && WaiterOk(h, w, clock) && MayDeliver(h, w, events, clock)
    ensures WaiterOk(h, AfterWatch(w, events), clock)
  {
    if w.Watching? {
      W.ScanRange(h, w.rv, events, 0);
    } else {
      W.ScanReplay(h, events, w.since);
    }
  }

  lemma WaiterStep(c: Config, s: State, l: Label, g: nat)
    requires Jobs(c, s) && Enabled(c, s, l) && g < |c.jobs| && !l.Sync?
    ensures WaiterOk(s.histories[g], Apply(c, s, l).waiters[g], Apply(c, s, l).clock)
  {
    if l.Watch? && l.g == g {
      WatchOk(s.histories[g], s.waiters[g], l.events, s.clock);
    }
  }

  lemma JobStep(c: Config, s: State, l: Label, g: nat)
    requires Jobs(c, s) && Enabled(c, s, l) && g < |c.jobs|
    ensures var t := Apply(c, s, l);
            && |t.histories| == |t.waiters| == |c.jobs|
            && HistoryOk(c.jobs[g], t.histories[g], t.up.scripts, t.clock)
            && WaiterOk(t.histories[g], t.waiters[g], t.clock)
  {
    var t := Apply(c, s, l);
    assert HistoryOk(c.jobs[g], s.histories[g], s.up.scripts, s.clock);
    assert WaiterOk(s.histories[g], s.waiters[g], s.clock);
    ScriptsOf(c, s, l);
    if l.Sync? && l.g == g {
      HistoryGrows(c.jobs[g], s.histories[g], s.waiters[g], s.up.scripts, s.clock, l.failed, l.succeeded);
    } else {
      HistoryKept(c.jobs[g], s.histories[g], s.up.scripts, t.up.scripts, s.clock, t.clock);
      if !l.Sync? { WaiterStep(c, s, l, g); }
    }
  }

  lemma JobsStep(c: Config, s: State, l: Label)
    requires Jobs(c, s) && Enabled(c, s, l)
    ensures Jobs(c, Apply(c, s, l))
  {
    var t := Apply(c, s, l);
    assert |t.histories| == |s.histories| && |t.waiters| == |s.waiters|;
    forall g | 0 <= g < |c.jobs|
      ensures HistoryOk(c.jobs[g], t.histories[g], t.up.scripts, t.clock)
      ensures WaiterOk(t.histories[g], t.waiters[g], t.clock)
    {
      JobStep(c, s, l, g);
    }
  }

  // ---------------------------------------------------------------- the store underneath

  ghost predicate Below(c: Config, s: State) {
    U.Inv(c.bodies, s.up)
  }

  lemma BelowStep(c: Config, s: State, l: Label)
    requires Below(c, s) && Enabled(c, s, l)
    ensures Below(c, Apply(c, s, l))
  {
    if l.Up? {
      U.InvStep(c.bodies, s.up, l.l);
    } else if l.Crash? {
      U.InvStep(c.bodies, s.up, U.Crash);
    }
  }

  // ---------------------------------------------------------------- the summary goroutine

  function Names(es: seq<Entry>): seq<string> {
    if es == [] then [] else Names(es[..|es| - 1]) + [es[|es| - 1].0]
  }

  /** A pod of one of the jobs. */
  ghost predicate IsPod(c: Config, p: string) {
    exists g, i :: 0 <= g < |c.jobs| && 0 <= i < |c.jobs[g].pods| && c.jobs[g].pods[i] == p
  }

  /** What is known in each phase. */
  ghost predicate Phases(c: Config, s: State) {
    && (s.phase != WaitingForJobs ==> AllReturned(s.waiters))
    && (s.phase == WaitingForJobs || s.phase == Reading ==> s.report == None && s.next <= |c.jobs|)
    && (s.phase == Assigned || s.phase == Ready ==>
          s.report == Some(s.included) && s.todo == [] && s.next == |c.jobs|)
    && (s.phase == WaitingForJobs ==> s.todo == [] && s.next == 0)
  }

  /** The entries in a log of listings and reads. */
  function PodsFound(pods: seq<Seen>): seq<Entry> {
    if pods == [] then []
    else
      var x := pods[|pods| - 1];
      PodsFound(pods[..|pods| - 1]) + if x.blob.Some? then [(x.pod, x.blob.value)] else []
  }

  function Found(log: seq<Listing>): seq<Entry> {
    if log == [] then []
    else
      var l := log[|log| - 1];
      Found(log[..|log| - 1]) + if l.Some? then PodsFound(l.value) else []
  }

  /** The log is up to date. */
  predicate Logged(s: State) {
    && (s.todo != [] ==> s.log != [] && s.log[|s.log| - 1].Some?)
    && s.included == Found(s.log)
  }

  /** Every listed pod is read once. */
  ghost predicate Account(s: State, p: string) {
    multiset(s.listed)[p] == multiset(Names(s.included))[p] + s.faulted[p] + s.missing[p] + multiset(s.todo)[p]
  }

  /** What was read is the runner's body. */
  ghost predicate Bodies(b: U.Bodies, es: seq<Entry>) {
    forall i :: 0 <= i < |es| ==> es[i].0 in b && es[i].1 == b[es[i].0]
  }

  /** No succeeded runner is missed. */
  ghost predicate Missing(c: Config, missing: multiset<string>, xs: map<string, U.Script>) {
    forall p :: p in missing && IsPod(c, p) ==> p in xs && xs[p].Exited? && xs[p].code != 0
  }

  ghost predicate Summary(c: Config, s: State) {
    && Phases(c, s) && Logged(s)
    && (forall p :: Account(s, p))
    && Bodies(c.bodies, s.included)
    && (c.Single() ==> Missing(c, s.missing, s.up.scripts))
  }

  lemma FoundLast(init: seq<Listing>, l: Listing)
    ensures Found(init + [l]) == Found(init) + if l.Some? then PodsFound(l.value) else []
  {
    assert (init + [l])[..|init|] == init;
  }

  lemma FoundAdd(init: seq<Listing>, pods: seq<Seen>, x: Seen)
    ensures Found(init + [Some(pods + [x])])
         == Found(init + [Some(pods)]) + if x.blob.Some? then [(x.pod, x.blob.value)] else []
  {
    FoundLast(init, Some(pods));
    FoundLast(init, Some(pods + [x]));
    PodsFoundAdd(pods, x);
  }

  lemma PodsFoundAdd(pods: seq<Seen>, x: Seen)
    ensures PodsFound(pods + [x]) == PodsFound(pods) + if x.blob.Some? then [(x.pod, x.blob.value)] else []
  {
    assert (pods + [x])[..|pods|] == pods;
  }

  lemma LoggedStep(c: Config, s: State, l: Label)
    requires Logged(s) && Phases(c, s) && Enabled(c, s, l)
    ensures Logged(Apply(c, s, l))
  {
    if l.ReadPod? {
      LoggedRead(s, l.fault);
    } else if l.List? {
      var x: Listing := if l.pods.Some? then Some([]) else None;
      FoundLast(s.log, x);
    }
  }

  lemma LoggedRead(s: State, fault: bool)
    requires Logged(s) && s.todo != []
    ensures Logged(ApplyRead(s, fault))
  {
    var n, blob := |s.log| - 1, LS.Read(s.up.store.files, s.todo[0]);
    assert s.log == s.log[..n] + [Some(s.log[n].value)];
    FoundAdd(s.log[..n], s.log[n].value, Seen(s.todo[0], if fault then None else blob));
  }

  lemma PhasesStep(c: Config, s: State, l: Label)
    requires Phases(c, s) && Enabled(c, s, l)
    ensures Phases(c, Apply(c, s, l))
  {
  }

  lemma ReadAccount(s: State, fault: bool, p: string)
    requires s.todo != [] && Account(s, p)
    ensures Account(ApplyRead(s, fault), p)
  {
    assert s.todo == [s.todo[0]] + s.todo[1..];
    var blob := LS.Read(s.up.store.files, s.todo[0]);
    if !fault && blob.Some? {
      var es := s.included + [(s.todo[0], blob.value)];
      assert es[..|es| - 1] == s.included;
      assert Names(es) == Names(s.included) + [s.todo[0]];
    }
  }

  lemma AccountStep(c: Config, s: State, l: Label, p: string)
    requires Phases(c, s) && Account(s, p) && Enabled(c, s, l)
    ensures Account(Apply(c, s, l), p)
  {
    if l.ReadPod? { ReadAccount(s, l.fault, p); }
  }

  lemma BodiesStep(c: Config, s: State, l: Label)
    requires Below(c, s) && Bodies(c.bodies, s.included) && Enabled(c, s, l)
    ensures Bodies(c.bodies, Apply(c, s, l).included)
  {
    if l.ReadPod? { BodiesRead(c.bodies, s, l.fault); }
  }

  lemma BodiesRead(b: U.Bodies, s: State, fault: bool)
    requires U.StoreOk(b, s.up.store, s.up.commits) && Bodies(b, s.included) && s.todo != []
    ensures Bodies(b, ApplyRead(s, fault).included)
  {
  }

  lemma PodExited(c: Config, s: State, p: string)
    requires c.Single() && Jobs(c, s) && IsPod(c, p) && AllReturned(s.waiters)
    ensures p in s.up.scripts && s.up.scripts[p].Exited?
  {
    var g, i :| 0 <= g < |c.jobs| && 0 <= i < |c.jobs[g].pods| && c.jobs[g].pods[i] == p;
    FinishedMeansExited(c.jobs[g], s.histories[g], s.up.scripts, s.clock);
  }

  lemma MissingStep(c: Config, s: State, l: Label)
    requires c.Single() && Below(c, s) && Jobs(c, s) && Phases(c, s) && Enabled(c, s, l)
    requires Missing(c, s.missing, s.up.scripts)
    ensures Missing(c, Apply(c, s, l).missing, Apply(c, s, l).up.scripts)
  {
    ScriptsOf(c, s, l);
    if l.ReadPod? { MissingRead(c, s, l.fault); }
  }

  lemma MissingRead(c: Config, s: State, fault: bool)
    requires c.Single() && Below(c, s) && Jobs(c, s) && AllReturned(s.waiters) && s.todo != []
    requires Missing(c, s.missing, s.up.scripts)
    ensures Missing(c, ApplyRead(s, fault).missing, s.up.scripts)
  {
    var q := s.todo[0];
    if IsPod(c, q) {
      PodExited(c, s, q);
      assert U.ScriptOk(c.bodies, s.up.store, s.up.handlers, q, s.up.scripts[q]);
    }
  }

  lemma SummaryStep(c: Config, s: State, l: Label)
    requires Below(c, s) && Jobs(c, s) && Summary(c, s) && Enabled(c, s, l)
    ensures Summary(c, Apply(c, s, l))
  {
    PhasesStep(c, s, l);
    LoggedStep(c, s, l);
    forall p ensures Account(Apply(c, s, l), p) {
      AccountStep(c, s, l, p);
    }
    BodiesStep(c, s, l);
    if c.Single() { MissingStep(c, s, l); }
  }

  lemma {:induction false} InvRuns(c: Config, s: State, ls: seq<Label>, t: State)
    requires Below(c, s) && Jobs(c, s) && Summary(c, s) && Runs(c, s, ls, t)
    ensures Below(c, t) && Jobs(c, t) && Summary(c, t)
    decreases |ls|
  {
    if ls == [] {
    } else {
      BelowStep(c, s, ls[0]);
      JobsStep(c, s, ls[0]);
      SummaryStep(c, s, ls[0]);
      InvRuns(c, Apply(c, s, ls[0]), ls[1..], t);
    }
  }

  lemma InitOk(c: Config)
    ensures Below(c, Init(c)) && Jobs(c, Init(c)) && Summary(c, Init(c))
  {
    var i := Init(c);
    forall p ensures Account(i, p) {
    }
  }

  lemma ReachableInv(c: Config, s: State)
    requires Reachable(c, s)
    ensures Below(c, s) && Jobs(c, s) && Summary(c, s)
  {
    var ls :| Runs(c, Init(c), ls, s);
    InitOk(c);
    InvRuns(c, Init(c), ls, s);
  }

  // ---------------------------------------------------------------- theorems

  predicate WaitReturned(s: State, g: nat) {
    g < |s.waiters| && s.waiters[g] == Returned
  }

  /** When the wait for a job without re-created pods has returned, every pod has terminated. */
  lemma WaitedMeansTerminated(c: Config, s: State, g: nat)
    requires Reachable(c, s) && g < |c.jobs| && WaitReturned(s, g)
    requires |c.jobs[g].pods| <= c.jobs[g].completions
    ensures AllExited(c.jobs[g].pods, s.up.scripts)
  {
    ReachableInv(c, s);
    FinishedMeansExited(c.jobs[g], s.histories[g], s.up.scripts, s.clock);
  }

  /** Once the ready channel is closed the report is set, and its entries are complete results. */
  lemma ReadyReport(c: Config, s: State)
    requires Reachable(c, s) && s.phase == Ready
    ensures s.report == Some(s.included) && Bodies(c.bodies, s.included) && s.included == Found(s.log)
  {
    ReachableInv(c, s);
  }

  /** ... and without re-created pods a succeeded runner is in it as often as it was listed, minus the failed reads. */
  lemma SuccessesAccounted(c: Config, s: State, p: string)
    requires Reachable(c, s) && s.phase == Ready && c.Single() && IsPod(c, p)
    ensures p in s.up.scripts && s.up.scripts[p].Exited?
    ensures s.up.scripts[p] == U.Exited(0) ==>
              multiset(Names(s.included))[p] + s.faulted[p] == multiset(s.listed)[p]
  {
    ReachableInv(c, s);
    PodExited(c, s, p);
    assert Account(s, p);
  }

  /** With complete listings (every pod listed once) and no failed read: every succeeded runner exactly once. */
  lemma EverySuccessOnce(c: Config, s: State, p: string)
    requires Reachable(c, s) && s.phase == Ready && c.Single()
    requires IsPod(c, p) && p in s.up.scripts && s.up.scripts[p] == U.Exited(0)
    requires multiset(s.listed)[p] == 1 && p !in s.faulted
    ensures multiset(Names(s.included))[p] == 1
  {
    SuccessesAccounted(c, s, p);
  }

  // ---------------------------------------------------------------- restarts

  /** Until its Get, a waiter has not started; until all have returned, nothing is read. */
  lemma {:induction false} NeedsGet(c: Config, s: State, ls: seq<Label>, t: State, g: nat)
    requires Runs(c, s, ls, t) && Get(g) !in ls
    requires g < |s.waiters| && s.waiters[g] == NotStarted && s.phase == WaitingForJobs
    ensures g < |t.waiters| && t.waiters[g] == NotStarted && t.phase == WaitingForJobs
    decreases |ls|
  {
    if ls == [] {
    } else {
      assert ls[0] in ls;
      NeedsGet(c, Apply(c, s, ls[0]), ls[1..], t, g);
    }
  }

  /** After a restart a summary is published only when every job was got anew. */
  lemma RestartWaitsAgain(c: Config, s: State, ls: seq<Label>, t: State, g: nat)
    requires Reachable(c, s) && Runs(c, s, [Crash] + ls, t) && g < |c.jobs| && t.phase != WaitingForJobs
    ensures Get(g) in ls
  {
    ReachableInv(c, s);
    assert ([Crash] + ls)[1..] == ls;
    if Get(g) !in ls {
      NeedsGet(c, Apply(c, s, Crash), ls, t, g);
    }
  }

  ghost predicate IsDead(up: U.State, a: nat) {
    a in up.handlers && up.handlers[a].stage == U.Dead
  }

  lemma {:induction false} DeadStays(c: Config, s: State, ls: seq<Label>, t: State, a: nat)
    requires Runs(c, s, ls, t) && IsDead(s.up, a)
    ensures IsDead(t.up, a)
    decreases |ls|
  {
    if ls == [] {
    } else {
      DeadStays(c, Apply(c, s, ls[0]), ls[1..], t, a);
    }
  }

  /** An upload that was going on when the server restarted is never answered. */
  lemma RestartDropsUploads(c: Config, s: State, ls: seq<Label>, t: State, a: nat)
    requires Runs(c, s, [Crash] + ls, t) && a in s.up.handlers && !s.up.handlers[a].stage.Done?
    ensures IsDead(t.up, a)
  {
    assert ([Crash] + ls)[1..] == ls;
    DeadStays(c, Apply(c, s, Crash), ls, t, a);
  }

  /** The answers getRunnerGroupsSummary may give; a 200 carries the report. */
  datatype Answer = NotFound | RequestTimeout | Ok(report: Option<seq<Entry>>)

  predicate MayAnswer(s: State, wait: bool, cancelled: bool, a: Answer) {
    match a
    case NotFound => s.phase != Ready && !wait
    case RequestTimeout => cancelled && (s.phase == Ready || wait)
    case Ok(r) => s.phase == Ready && r == s.report
  }

  /**
   Every request is answered or waits: 404 iff it does not wait and nothing is ready; while it
   waits for the summary, or is given up by its client, only the timeout; once the summary is ready
   and the client is there, only the report.
   */
  lemma AnswersExactly(s: State, wait: bool, cancelled: bool)
    ensures MayAnswer(s, wait, cancelled, NotFound) <==> !wait && s.phase != Ready
    ensures s.phase == Ready && !cancelled ==> forall a :: MayAnswer(s, wait, cancelled, a) <==> a == Ok(s.report)
    ensures s.phase != Ready && wait ==>
              forall a :: MayAnswer(s, wait, cancelled, a) <==> a == RequestTimeout && cancelled
    ensures s.phase != Ready && !wait ==> forall a :: MayAnswer(s, wait, cancelled, a) <==> a == NotFound
  {
  }

  /** After the summary is ready, every later 200 of the same server process returns the same report. */
  lemma {:induction false} ReportIsStable(c: Config, s: State, ls: seq<Label>, t: State)
    requires s.phase == Ready && Runs(c, s, ls, t)
    requires forall k :: 0 <= k < |ls| ==> !ls[k].Crash?
    ensures t.phase == Ready && t.report == s.report
    ensures forall wait, cancelled, a :: MayAnswer(t, wait, cancelled, a) && a.Ok? ==> a.report == s.report
    decreases |ls|
  {
    if ls == [] {
    } else {
      assert !ls[0].Crash?;
      forall k | 0 <= k < |ls[1..]| ensures !ls[1..][k].Crash? {
        assert ls[1..][k] == ls[k + 1];
      }
      ReportIsStable(c, Apply(c, s, ls[0]), ls[1..], t);
    }
  }
}

/** The waiters of the server are runs of Wait. */
module Waiters {
  import opened Options
  import opened Readiness
  import W = JobWatch

  /** More events of a watch that is up, or the events of a new one. */
  ghost function Deliver(xs: seq<W.Attempt>, events: seq<W.Event>): seq<W.Attempt> {
    if IsOpen(xs) then Ended(xs) + [W.Watch(xs[|xs| - 1].events + events)] else xs + [W.Watch(events)]
  }

  ghost predicate IsOpen(xs: seq<W.Attempt>) {
    xs != [] && xs[|xs| - 1].Watch? && W.StaysOpen(xs[|xs| - 1].events)
  }

  /** The attempts that are over. */
  ghost function Ended(xs: seq<W.Attempt>): seq<W.Attempt> {
    if IsOpen(xs) then xs[..|xs| - 1] else xs
  }

  /** The attempts of the waiter for job g in a run. */
  ghost function AttemptsOf(ls: seq<Label>, g: nat, xs: seq<W.Attempt>): seq<W.Attempt>
    decreases |ls|
  {
    if ls == [] then xs
    else AttemptsOf(ls[1..], g, if ls[0].Watch? && ls[0].g == g then Deliver(xs, ls[0].events) else xs)
  }

  /** The waiter stands where Wait stands after these attempts, having got version rv. */
  ghost predicate Stands(w: Waiter, xs: seq<W.Attempt>, rv: nat) {
    match w
    case NotStarted => false
    case Returned => W.WaitFrom(xs, Some(rv)) == W.Nil
    case Watching(last) => W.AllTransient(Ended(xs)) && W.LastRv(xs, Some(rv)) == Some(last)
    case Resetting => W.AllTransient(xs) && W.LastRv(xs, Some(rv)) == None
    case Replaying(_) => W.AllTransient(Ended(xs)) && W.LastRv(xs, Some(rv)) == None
  }

  lemma {:induction false} LastRvAppend(xs: seq<W.Attempt>, rv: Option<nat>, a: W.Attempt)
    requires W.AllTransient(xs)
    ensures W.LastRv(xs + [a], rv) == W.NextRv(a, W.LastRv(xs, rv))
  {
    if xs == [] {
      assert xs + [a] == [a];
    } else {
      assert (xs + [a])[1..] == xs[1..] + [a];
      LastRvAppend(xs[1..], W.NextRv(xs[0], rv), a);
    }
  }

  /** After the attempts that are over, one watch with all its events so far. */
  lemma DeliverMeans(xs: seq<W.Attempt>, events: seq<W.Event>, rv: nat) returns (all: seq<W.Event>)
    requires W.AllTransient(Ended(xs))
    ensures Deliver(xs, events) == Ended(xs) + [W.Watch(all)]
    ensures W.Scan(all, W.LastRv(Ended(xs), Some(rv))) == W.Scan(events, W.LastRv(xs, Some(rv)))
  {
    if IsOpen(xs) {
      var es := xs[|xs| - 1].events;
      all := es + events;
      LastRvAppend(Ended(xs), Some(rv), xs[|xs| - 1]);
      assert xs == Ended(xs) + [xs[|xs| - 1]];
      W.ScanGoesOn(es, events, W.LastRv(Ended(xs), Some(rv)));
      W.ScanOpen(es, W.LastRv(Ended(xs), Some(rv)));
    } else {
      all := events;
    }
  }

  /** Attempts that are over, and one more watch with the outcome o, up to version last. */
  lemma LastWatch(pre: seq<W.Attempt>, all: seq<W.Event>, rv: nat)
    requires W.AllTransient(pre)
    ensures var xs, (o, last) := pre + [W.Watch(all)], W.Scan(all, W.LastRv(pre, Some(rv)));
            && (o == W.Finished ==> W.WaitFrom(xs, Some(rv)) == W.Nil)
            && W.LastRv(xs, Some(rv)) == (if o == W.Failed(W.Expired) then None else last)
            && (o == W.Open ==> Ended(xs) == pre)
            && (o != W.Finished && o != W.Open && o != W.Cancelled && o != W.Failed(W.Fatal) ==>
                  W.AllTransient(xs) && Ended(xs) == xs)
  {
    var a, last := W.Watch(all), W.LastRv(pre, Some(rv));
    W.AttemptKinds(a, last);
    W.WaitAppend(pre, Some(rv), a);
    W.WaitUnfold([a], last);
    LastRvAppend(pre, Some(rv), a);
    var xs, o := pre + [a], W.Scan(all, last).0;
    assert xs[|xs| - 1] == a && xs[..|xs| - 1] == pre;
    assert o.Failed? ==> o.failure == W.Expired || o.failure == W.Unavailable || o.failure == W.Fatal;
  }

  lemma WatchStands(w: Waiter, xs: seq<W.Attempt>, rv: nat, events: seq<W.Event>)
    requires (w.Watching? || w.Replaying?) && Stands(w, xs, rv)
    requires var o := W.Scan(events, RvOf(w)).0; o != W.Cancelled && o != W.Failed(W.Fatal)
    ensures Stands(AfterWatch(w, events), Deliver(xs, events), rv)
  {
    var all := DeliverMeans(xs, events, rv);
    LastWatch(Ended(xs), all, rv);
    assert W.LastRv(xs, Some(rv)) == RvOf(w);
    if w.Watching? { W.ScanKeepsSome(events, RvOf(w)); }
  }

  lemma OthersWait(c: Config, s: State, l: Label, g: nat)
    requires Enabled(c, s, l) && !l.Crash? && g < |s.waiters| && !(l.Watch? && l.g == g)
    ensures var t := Apply(c, s, l);
            && g < |t.waiters|
            && (t.waiters[g] == s.waiters[g] || s.waiters[g] == NotStarted
                || (s.waiters[g] == Resetting && t.waiters[g].Replaying?))
  {
  }

  /**
   From the Get that saw the unfinished version rv on, over every run of the server without a
   restart: the waiter has returned iff Wait, given the attempts of that run, returns nil; and it
   watches from the version that Wait would ask for.
   */
  lemma {:induction false} WaiterRefinesWait(
    c: Config, s: State, ls: seq<Label>, t: State, g: nat, xs: seq<W.Attempt>, rv: nat)
    requires Runs(c, s, ls, t) && Crash !in ls && g < |s.waiters| && Stands(s.waiters[g], xs, rv)
    ensures g < |t.waiters| && Stands(t.waiters[g], AttemptsOf(ls, g, xs), rv)
    decreases |ls|
  {
    if ls == [] {
    } else {
      var l, m := ls[0], Apply(c, s, ls[0]);
      assert l in ls && forall x :: x in ls[1..] ==> x in ls;
      if l.Watch? && l.g == g {
        WatchStands(s.waiters[g], xs, rv, l.events);
        WaiterRefinesWait(c, m, ls[1..], t, g, Deliver(xs, l.events), rv);
      } else {
        OthersWait(c, s, l, g);
        WaiterRefinesWait(c, m, ls[1..], t, g, xs, rv);
      }
    }
  }

  /** In particular, from the Get on. */
  lemma ReturnedExactly(c: Config, s: State, ls: seq<Label>, t: State, g: nat, rv: nat)
    requires Runs(c, s, ls, t) && Crash !in ls && g < |s.waiters| && s.waiters[g] == Watching(rv)
    ensures g < |t.waiters|
    ensures t.waiters[g] == Returned <==> W.WaitFrom(AttemptsOf(ls, g, []), Some(rv)) == W.Nil
  {
    WaiterRefinesWait(c, s, ls, t, g, [], rv);
    var xs, w := AttemptsOf(ls, g, []), t.waiters[g];
    if w != Returned {
      var pre := Ended(xs);
      W.WaitAppend(pre, Some(rv), W.Stop);
      if IsOpen(xs) {
        var a := xs[|xs| - 1];
        W.WaitAppend(pre, Some(rv), a);
        W.AttemptKinds(a, W.LastRv(pre, Some(rv)));
        W.WaitUnfold([a], W.LastRv(pre, Some(rv)));
        assert xs == pre + [a];
      }
    }
  }
}

/** The chain from raw observations to the published numbers. */
module EndToEnd {
  import opened Options
  import LS = LocalStore
  import U = Upload
  import Readiness
  import RunnerReport
  import G = GroupSummary
  import O = Observations

  /** What the summary is computed from: every listing, with every read and its outcome. */
  function ReadingsOf(pods: seq<Readiness.Seen>, decode: LS.Bytes -> G.Blob): seq<G.Reading> {
    if pods == [] then []
    else
      var x := pods[|pods| - 1];
      ReadingsOf(pods[..|pods| - 1], decode)
      + [G.Reading(x.pod, if x.blob.Some? then Some(decode(x.blob.value)) else None)]
  }

  function GroupsOf(log: seq<Readiness.Listing>, decode: LS.Bytes -> G.Blob): seq<G.Group> {
    if log == [] then []
    else
      var l := log[|log| - 1];
      GroupsOf(log[..|log| - 1], decode) + [if l.Some? then Some(ReadingsOf(l.value, decode)) else None]
  }

  /** The result file of runner p is the raw-data report of its specs. */
  ghost predicate FileOf(c: Readiness.Config, p: string, decode: LS.Bytes -> G.Blob, runners: map<string, G.Runner>) {
    p in c.bodies ==> p in runners && G.Wrote(runners[p], decode(c.bodies[p]))
  }

  /** What was read of the pods of a group was written by them. */
  lemma {:induction false} PodsWritten(
    c: Readiness.Config, pods: seq<Readiness.Seen>, decode: LS.Bytes -> G.Blob, runners: map<string, G.Runner>)
    requires Readiness.Bodies(c.bodies, Readiness.PodsFound(pods)) && forall p :: FileOf(c, p, decode, runners)
    ensures G.PodsWritten(ReadingsOf(pods, decode), runners)
  {
    if pods == [] {
    } else {
      var init, x := pods[..|pods| - 1], pods[|pods| - 1];
      var es := Readiness.PodsFound(init);
      BodiesPrefix(c.bodies, es, Readiness.PodsFound(pods));
      PodsWritten(c, init, decode, runners);
      if x.blob.Some? {
        assert Readiness.PodsFound(pods)[|es|] == (x.pod, x.blob.value);
        assert FileOf(c, x.pod, decode, runners);
      }
    }
  }

  lemma BodiesPrefix(b: U.Bodies, es: seq<Readiness.Entry>, fs: seq<Readiness.Entry>)
    requires Readiness.Bodies(b, fs) && es <= fs
    ensures Readiness.Bodies(b, es) && Readiness.Bodies(b, fs[|es|..])
  {
  }

  /** Whatever listings and reads have failed, what was read was written by the runners. */
  lemma {:induction false} AllWritten(
    c: Readiness.Config, log: seq<Readiness.Listing>, decode: LS.Bytes -> G.Blob, runners: map<string, G.Runner>)
    requires Readiness.Bodies(c.bodies, Readiness.Found(log)) && forall p :: FileOf(c, p, decode, runners)
    ensures G.AllWritten(GroupsOf(log, decode), runners)
  {
    if log == [] {
    } else {
      var init, l := log[..|log| - 1], log[|log| - 1];
      var es := Readiness.Found(init);
      BodiesPrefix(c.bodies, es, Readiness.Found(log));
      AllWritten(c, init, decode, runners);
      if l.Some? {
        assert Readiness.Found(log)[|es|..] == Readiness.PodsFound(l.value);
        PodsWritten(c, l.value, decode, runners);
      }
    }
  }

  /** All observations of all specs of the runners that were read. */
  function Observed(log: seq<Readiness.Listing>, decode: LS.Bytes -> G.Blob, runners: map<string, G.Runner>)
    : seq<O.Observation>
  {
    RunnerReport.Flatten(G.AllObs(runners, GroupsOf(log, decode)))
  }

  /** The runner succeeded, was listed once, and its read did not fail. */
  ghost predicate SucceededAndRead(c: Readiness.Config, s: Readiness.State, p: string) {
    && Readiness.IsPod(c, p) && p in s.up.scripts && s.up.scripts[p] == U.Exited(0)
    && multiset(s.listed)[p] == 1 && p !in s.faulted
  }

  /**
   When the summary is ready, the published report, computed from all listings and reads with their
   failures, equals the one computed directly from all observations of all specs of the runners that
   were read, among which every runner whose script exited with 0 occurs exactly once if it was
   listed and read.
   */
  method PublishedReport(
    log: seq<Readiness.Listing>, decode: LS.Bytes -> G.Blob,
    ghost c: Readiness.Config, ghost s: Readiness.State, ghost runners: map<string, G.Runner>)
    returns (r: RunnerReport.Report)
    requires Readiness.Reachable(c, s) && s.phase == Readiness.Ready && s.log == log
    requires forall p :: FileOf(c, p, decode, runners)
    ensures var flat := Observed(log, decode, runners);
            RunnerReport.Reports(r, flat) && r.errors == O.ErrorsOf(flat) && r.total == |O.AllLatencies(flat)|
    ensures s.report == Some(Readiness.Found(log))
    ensures forall p :: c.Single() && SucceededAndRead(c, s, p) ==>
              multiset(Readiness.Names(Readiness.Found(log)))[p] == 1
  {
    Readiness.ReadyReport(c, s);
    r := G.BuildRunnerGroupSummary(GroupsOf(log, decode));
    AllWritten(c, log, decode, runners);
    G.AnySplit(r, runners, GroupsOf(log, decode));
    forall p | c.Single() && SucceededAndRead(c, s, p)
      ensures multiset(Readiness.Names(Readiness.Found(log)))[p] == 1
    {
      Readiness.EverySuccessOnce(c, s, p);
    }
  }
}
