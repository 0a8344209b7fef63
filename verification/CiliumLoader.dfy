/**
 The Cilium data loader: one goroutine generates tasks into a bounded channel, a pool of workers
 applies them with retries, a reporter runs beside them, and an error group cancels all of them
 at the first error.
 */
module CiliumLoader {
  import opened Sums

  const NUM_WORKERS := 50
  const MAX_ATTEMPTS := 5

  datatype Config = Config(workers: nat, capacity: nat, attempts: nat, numCID: int, numCEP: int) {
    ghost predicate Valid() { workers > 0 && capacity > 0 && attempts > 0 }

    /** The two generator loops; a negative count runs no turn. */
    function Total(): nat {
      (if numCID > 0 then numCID else 0) + (if numCEP > 0 then numCEP else 0)
    }
  }

  function Kperf(numCID: int, numCEP: int): Config {
    Config(NUM_WORKERS, NUM_WORKERS * 2, MAX_ATTEMPTS, numCID, numCEP)
  }

  /** A task is the number of its turn in the generator loops. */
  datatype Worker =
    | Receiving
    | Applying(task: nat, tried: nat)
    | Ended(err: bool)

  /** Generating; both loops done and the task channel closed; goroutine returned. */
  datatype Generator = Generating | Closed | Returned(err: bool)

  datatype Reporter = Reporting | Quit(err: bool)

  datatype State = State(
    workers: seq<Worker>,
    generator: Generator,
    reporter: Reporter,
    cancelled: bool,             // the group's context
    parentCancelled: bool,       // the context it was made from
    generated: nat,
    queue: seq<nat>,
    applied: multiset<nat>,
    givenUp: multiset<nat>
  )

  datatype Action = Receive | TryOk | TryFail | SeeClosed | SeeCancel

  datatype Label =
    | Work(i: nat, act: Action)
    | Send
    | StopGenerating             // the generator sees the cancelled context
    | CloseTasks
    | CloseReporter
    | ReporterDone
    | ReporterCancel
    | ParentCancel

  function Init(c: Config): State {
    State(seq(c.workers, _ => Receiving), Generating, Reporting, false, false, 0, [], multiset{}, multiset{})
  }

  predicate TasksClosed(s: State) {
    s.generator == Closed || s.generator == Returned(false)
  }

  predicate CanAct(c: Config, s: State, w: Worker, a: Action) {
    match a
    case Receive => w == Receiving && s.queue != []
    case TryOk => w.Applying?
    case TryFail => w.Applying?
    case SeeClosed => w == Receiving && s.queue == [] && TasksClosed(s)
    case SeeCancel => w == Receiving && s.cancelled
  }

  function NextWorker(c: Config, s: State, w: Worker, a: Action): Worker {
    match a
    case Receive => if s.queue != [] then Applying(s.queue[0], 0) else w
    case TryOk => Receiving
    case TryFail => if w.Applying? && w.tried + 1 < c.attempts then Applying(w.task, w.tried + 1) else Ended(true)
    case SeeClosed => Ended(false)
    case SeeCancel => Ended(true)
  }

  predicate Enabled(c: Config, s: State, l: Label) {
    match l
    case Work(i, a) => i < |s.workers| && CanAct(c, s, s.workers[i], a)
    case Send => s.generator == Generating && s.generated < c.Total() && |s.queue| < c.capacity
    case StopGenerating => s.generator == Generating && s.generated < c.Total() && s.cancelled
    case CloseTasks => s.generator == Generating && s.generated == c.Total()
    case CloseReporter => s.generator == Closed
    case ReporterDone => s.reporter == Reporting && s.generator == Returned(false)
    case ReporterCancel => s.reporter == Reporting && s.cancelled
    case ParentCancel => !s.parentCancelled
  }

  function ApplyWork(c: Config, s: State, i: nat, a: Action): State
    requires Enabled(c, s, Work(i, a))
  {
    var w := s.workers[i];
    var w' := NextWorker(c, s, w, a);
    s.(workers := s.workers[i := w'],
       cancelled := s.cancelled || w' == Ended(true),
       queue := NextQueue(s.queue, a),
       applied := s.applied + (if a == TryOk then TaskOf(w) else multiset{}),
       givenUp := s.givenUp + (if a == TryFail && w' == Ended(true) then TaskOf(w) else multiset{}))
  }

  function NextQueue(queue: seq<nat>, a: Action): seq<nat> {
    if a == Receive && queue != [] then queue[1..] else queue
  }

  function TaskOf(w: Worker): multiset<nat> {
    if w.Applying? then multiset{w.task} else multiset{}
  }

  function Apply(c: Config, s: State, l: Label): State
    requires Enabled(c, s, l)
  {
    match l
    case Work(i, a) => ApplyWork(c, s, i, a)
    case Send => s.(generated := s.generated + 1, queue := s.queue + [s.generated])
    case StopGenerating => s.(generator := Returned(true), cancelled := true)
    case CloseTasks => s.(generator := Closed)
    case CloseReporter => s.(generator := Returned(false))
    case ReporterDone => s.(reporter := Quit(false))
    case ReporterCancel => s.(reporter := Quit(true), cancelled := true)
    case ParentCancel => s.(cancelled := true, parentCancelled := true)
  }

  ghost predicate Runs(c: Config, s: State, ls: seq<Label>, t: State)
    decreases |ls|
  {
    if ls == [] then s == t
    else Enabled(c, s, ls[0]) && Runs(c, Apply(c, s, ls[0]), ls[1..], t)
  }

  ghost predicate Reachable(c: Config, t: State) {
    exists ls :: Runs(c, Init(c), ls, t)
  }

  /** g.Wait returns; nil if no goroutine returned an error. */
  predicate Final(s: State) {
    && s.generator.Returned? && s.reporter.Quit?
    && forall i :: 0 <= i < |s.workers| ==> s.workers[i].Ended?
  }

  predicate Success(s: State) {
    && Final(s) && s.generator == Returned(false) && s.reporter == Quit(false)
    && forall i :: 0 <= i < |s.workers| ==> s.workers[i] == Ended(false)
  }

  // ---------------------------------------------------------------- where each task is

  function Holding(n: nat): Worker -> nat {
    (w: Worker) => One(w.Applying? && w.task == n)
  }

  function Busy(w: Worker): nat {
    One(w.Applying?)
  }

  /** Every generated task is in exactly one place. */
  ghost predicate Placed(s: State, n: nat) {
    One(n < s.generated) == multiset(s.queue)[n] + Sum(s.workers, Holding(n)) + s.applied[n] + s.givenUp[n]
  }

  /** ... and the numbers add up. */
  ghost predicate Balanced(s: State) {
    s.generated == |s.queue| + Sum(s.workers, Busy) + |s.applied| + |s.givenUp|
  }

  lemma PlacedStep(c: Config, s: State, l: Label, n: nat)
    requires Placed(s, n) && Enabled(c, s, l)
    ensures Placed(Apply(c, s, l), n)
  {
    if l.Work? {
      var w := s.workers[l.i];
      SumUpdate(s.workers, l.i, NextWorker(c, s, w, l.act), Holding(n));
      WorkKeeps(c, s, w, l.act, n);
    }
  }

  /** What one worker does moves a task from one place to another. */
  lemma WorkKeeps(c: Config, s: State, w: Worker, a: Action, n: nat)
    requires CanAct(c, s, w, a)
    ensures var w' := NextWorker(c, s, w, a);
            multiset(s.queue)[n] + Holding(n)(w) == multiset(NextQueue(s.queue, a))[n] + Holding(n)(w')
            + (if a == TryOk then TaskOf(w)[n] else 0) + (if a == TryFail && w' == Ended(true) then TaskOf(w)[n] else 0)
  {
    if a == Receive {
      assert s.queue == [s.queue[0]] + s.queue[1..];
    }
  }

  lemma BalancedStep(c: Config, s: State, l: Label)
    requires Balanced(s) && Enabled(c, s, l)
    ensures Balanced(Apply(c, s, l))
  {
    if l.Work? {
      SumUpdate(s.workers, l.i, NextWorker(c, s, s.workers[l.i], l.act), Busy);
    }
  }

  // ---------------------------------------------------------------- control

  ghost predicate Control(c: Config, s: State) {
    && |s.workers| == c.workers && |s.queue| <= c.capacity && s.generated <= c.Total()
    && (TasksClosed(s) ==> s.generated == c.Total())
    && (s.generator == Returned(true) ==> s.cancelled && s.generated < c.Total())
    && (s.reporter == Quit(true) ==> s.cancelled)
    && (forall i :: 0 <= i < |s.workers| && s.workers[i] == Ended(true) ==> s.cancelled)
    && (forall i :: 0 <= i < |s.workers| && s.workers[i] == Ended(false) ==> TasksClosed(s) && s.queue == [])
    && (forall i :: 0 <= i < |s.workers| && s.workers[i].Applying? ==> s.workers[i].tried < c.attempts)
    && (s.cancelled ==> s.parentCancelled || s.givenUp != multiset{})
    && (s.givenUp != multiset{} ==> exists i :: 0 <= i < |s.workers| && s.workers[i] == Ended(true))
  }

  lemma ControlStep(c: Config, s: State, l: Label)
    requires c.Valid() && Control(c, s) && Enabled(c, s, l)
    ensures Control(c, Apply(c, s, l))
  {
    var t := Apply(c, s, l);
    if l.Work? && t.givenUp != multiset{} {
      if s.givenUp != multiset{} {
        var i :| 0 <= i < |s.workers| && s.workers[i] == Ended(true);
        assert t.workers[i] == Ended(true);
      } else {
        assert t.workers[l.i] == Ended(true);
      }
    }
  }

  lemma {:induction false} InvRuns(c: Config, s: State, ls: seq<Label>, t: State)
    requires c.Valid() && Control(c, s) && Balanced(s) && (forall n: nat :: Placed(s, n)) && Runs(c, s, ls, t)
    ensures Control(c, t) && Balanced(t) && forall n: nat :: Placed(t, n)
    decreases |ls|
  {
    if ls == [] {
    } else {
      ControlStep(c, s, ls[0]);
      BalancedStep(c, s, ls[0]);
      forall n: nat ensures Placed(Apply(c, s, ls[0]), n) {
        PlacedStep(c, s, ls[0], n);
      }
      InvRuns(c, Apply(c, s, ls[0]), ls[1..], t);
    }
  }

  lemma ReachableInv(c: Config, s: State)
    requires c.Valid() && Reachable(c, s)
    ensures Control(c, s) && Balanced(s) && forall n: nat :: Placed(s, n)
  {
    var ls :| Runs(c, Init(c), ls, s);
    forall n: nat ensures Placed(Init(c), n) {
      SumZero(Init(c).workers, Holding(n));
    }
    SumZero(Init(c).workers, Busy);
    InvRuns(c, Init(c), ls, s);
  }

  // ---------------------------------------------------------------- theorems

  /** generated = queued + being applied + applied + given up, task by task and in numbers; the queue is bounded. */
  lemma Conservation(c: Config, s: State, n: nat)
    requires c.Valid() && Reachable(c, s)
    ensures s.generated == |s.queue| + Sum(s.workers, Busy) + |s.applied| + |s.givenUp|
    ensures multiset(s.queue)[n] + Sum(s.workers, Holding(n)) + s.applied[n] + s.givenUp[n] == One(n < s.generated)
    ensures |s.queue| <= c.capacity && s.generated <= c.Total()
    ensures s.generator == Returned(true) ==> s.generated < c.Total()
  {
    ReachableInv(c, s);
    assert Placed(s, n);
  }

  /** A nil result means that every resource was applied, each exactly once. */
  lemma SuccessIsComplete(c: Config, s: State)
    requires c.Valid() && Reachable(c, s) && Success(s)
    ensures |s.applied| == c.Total() && s.givenUp == multiset{}
    ensures forall n: nat :: s.applied[n] == One(n < c.Total())
  {
    ReachableInv(c, s);
    assert s.workers[0] == Ended(false);
    forall n: nat ensures s.applied[n] == One(n < c.Total()) {
      assert Placed(s, n);
      SumZero(s.workers, Holding(n));
    }
    SumZero(s.workers, Busy);
  }

  /** Unless the caller cancels, the result is an error exactly when some task was given up. */
  lemma ErrorExactly(c: Config, s: State)
    requires c.Valid() && Reachable(c, s) && Final(s) && !s.parentCancelled
    ensures Success(s) <==> s.givenUp == multiset{}
  {
    ReachableInv(c, s);
  }

  // ---------------------------------------------------------------- attempts

  predicate Works(w: Worker, n: nat) {
    w.Applying? && w.task == n
  }

  /** The step is an attempt at task n, with this outcome. */
  predicate Attempts(s: State, l: Label, n: nat, a: Action) {
    l.Work? && l.act == a && l.i < |s.workers| && Works(s.workers[l.i], n)
  }

  /** The number of attempts at task n that have this outcome in a run. */
  ghost function CountAttempts(c: Config, s: State, ls: seq<Label>, n: nat, a: Action): nat
    decreases |ls|
  {
    if ls == [] || !Enabled(c, s, ls[0]) then 0
    else One(Attempts(s, ls[0], n, a)) + CountAttempts(c, Apply(c, s, ls[0]), ls[1..], n, a)
  }

  /** Where task n is after it has been applied oks times and has failed fails times. */
  ghost predicate Tried(c: Config, s: State, n: nat, oks: nat, fails: nat) {
    && s.applied[n] == oks && fails <= c.attempts
    && (s.givenUp[n] > 0 <==> fails == c.attempts)
    && (forall i :: 0 <= i < |s.workers| && Works(s.workers[i], n) ==> s.workers[i].tried == fails)
    && (fails > 0 ==> multiset(s.queue)[n] == 0 && n < s.generated)
  }

  /** Nobody else holds the task of a worker. */
  lemma HeldOnce(s: State, n: nat, i: nat)
    requires Placed(s, n) && i < |s.workers| && Works(s.workers[i], n)
    ensures s.applied[n] == s.givenUp[n] == multiset(s.queue)[n] == 0 && n < s.generated
    ensures forall j :: 0 <= j < |s.workers| && j != i ==> !Works(s.workers[j], n)
  {
    SumAtLeast(s.workers, i, Holding(n));
    forall j | 0 <= j < |s.workers| && j != i ensures !Works(s.workers[j], n) {
      if j < i { SumAtLeastTwo(s.workers, j, i, Holding(n)); } else { SumAtLeastTwo(s.workers, i, j, Holding(n)); }
    }
  }

  /** A step of the worker that has the task. */
  lemma TriedOwn(c: Config, s: State, i: nat, a: Action, n: nat, oks: nat, fails: nat)
    requires Control(c, s) && Placed(s, n) && Tried(c, s, n, oks, fails) && Enabled(c, s, Work(i, a))
    requires Works(s.workers[i], n)
    ensures Tried(c, Apply(c, s, Work(i, a)), n, oks + One(a == TryOk), fails + One(a == TryFail))
  {
    HeldOnce(s, n, i);
  }

  lemma TriedOther(c: Config, s: State, i: nat, a: Action, n: nat, oks: nat, fails: nat)
    requires c.Valid() && Placed(s, n) && Tried(c, s, n, oks, fails) && Enabled(c, s, Work(i, a))
    requires !Works(s.workers[i], n)
    ensures Tried(c, Apply(c, s, Work(i, a)), n, oks, fails)
  {
    if a == Receive {
      assert s.queue == [s.queue[0]] + s.queue[1..];
      assert s.queue[0] == n ==> multiset(s.queue)[n] > 0;
    }
  }

  lemma TriedStep(c: Config, s: State, l: Label, n: nat, oks: nat, fails: nat)
    requires c.Valid() && Control(c, s) && Placed(s, n) && Tried(c, s, n, oks, fails) && Enabled(c, s, l)
    ensures Tried(c, Apply(c, s, l), n, oks + One(Attempts(s, l, n, TryOk)), fails + One(Attempts(s, l, n, TryFail)))
  {
    if l.Work? {
      if Works(s.workers[l.i], n) {
        TriedOwn(c, s, l.i, l.act, n, oks, fails);
      } else {
        TriedOther(c, s, l.i, l.act, n, oks, fails);
      }
    }
  }

  lemma {:induction false} TriedRuns(
    c: Config, s: State, ls: seq<Label>, t: State, n: nat, oks: nat, fails: nat)
    requires c.Valid() && Control(c, s) && Placed(s, n) && Tried(c, s, n, oks, fails) && Runs(c, s, ls, t)
    ensures Tried(c, t, n, oks + CountAttempts(c, s, ls, n, TryOk), fails + CountAttempts(c, s, ls, n, TryFail))
    decreases |ls|
  {
    if ls == [] {
    } else {
      var l := ls[0];
      ControlStep(c, s, l);
      PlacedStep(c, s, l, n);
      TriedStep(c, s, l, n, oks, fails);
      var oks', fails' := oks + One(Attempts(s, l, n, TryOk)), fails + One(Attempts(s, l, n, TryFail));
      TriedRuns(c, Apply(c, s, l), ls[1..], t, n, oks', fails');
    }
  }

  /**
   Over every run, a task fails at most c.attempts times, is given up exactly when it has, and is
   applied exactly if an attempt at it succeeded.
   */
  lemma GivenUpExactly(c: Config, ls: seq<Label>, s: State, n: nat)
    requires c.Valid() && Runs(c, Init(c), ls, s)
    ensures CountAttempts(c, Init(c), ls, n, TryFail) <= c.attempts
    ensures s.givenUp[n] == One(CountAttempts(c, Init(c), ls, n, TryFail) == c.attempts)
    ensures s.applied[n] == CountAttempts(c, Init(c), ls, n, TryOk)
  {
    SumZero(Init(c).workers, Holding(n));
    SumZero(Init(c).workers, Busy);
    TriedRuns(c, Init(c), ls, s, n, 0, 0);
    assert Reachable(c, s);
    Conservation(c, s, n);
  }

  /** Unless the caller cancels, the result is an error exactly when every attempt at some task failed. */
  lemma ErrorExactlyOver(c: Config, ls: seq<Label>, s: State)
    requires c.Valid() && Runs(c, Init(c), ls, s) && Final(s) && !s.parentCancelled
    ensures !Success(s) <==> exists n: nat :: CountAttempts(c, Init(c), ls, n, TryFail) == c.attempts
  {
    assert Reachable(c, s);
    ErrorExactly(c, s);
    forall n: nat ensures s.givenUp[n] == One(CountAttempts(c, Init(c), ls, n, TryFail) == c.attempts) {
      GivenUpExactly(c, ls, s, n);
    }
    if s.givenUp != multiset{} {
      var n :| n in s.givenUp;
      assert CountAttempts(c, Init(c), ls, n, TryFail) == c.attempts;
    }
  }

  /** The loader as it is called. */
  lemma KperfLoads(numCID: nat, numCEP: nat, s: State)
    requires Reachable(Kperf(numCID, numCEP), s)
    ensures |s.queue| <= 100 && |s.workers| == 50
    ensures Success(s) ==> |s.applied| == numCID + numCEP
  {
    ReachableInv(Kperf(numCID, numCEP), s);
    Conservation(Kperf(numCID, numCEP), s, 0);
    if Success(s) {
      SuccessIsComplete(Kperf(numCID, numCEP), s);
    }
  }

  /** It gives up after the fifth failure of a task, not before, and only then fails by itself. */
  lemma KperfRetries(numCID: nat, numCEP: nat, ls: seq<Label>, s: State, n: nat)
    requires Runs(Kperf(numCID, numCEP), Init(Kperf(numCID, numCEP)), ls, s)
    ensures var fails := CountAttempts(Kperf(numCID, numCEP), Init(Kperf(numCID, numCEP)), ls, n, TryFail);
            fails <= 5 && (s.givenUp[n] == 1 <==> fails == 5)
  {
    GivenUpExactly(Kperf(numCID, numCEP), ls, s, n);
  }

  /** Whatever has failed, some goroutine can go on until all have returned. */
  lemma DeadlockFree(c: Config, s: State) returns (l: Label)
    requires c.Valid() && Reachable(c, s) && !Final(s)
    ensures Enabled(c, s, l) && l != ParentCancel
  {
    ReachableInv(c, s);
    if i :| 0 <= i < |s.workers| && s.workers[i].Applying? {
      l := Work(i, TryOk);
    } else if s.generator == Closed {
      l := CloseReporter;
    } else if s.generator == Generating && s.generated == c.Total() {
      l := CloseTasks;
    } else if s.generator == Generating && s.cancelled {
      l := StopGenerating;
    } else if s.generator == Generating {
      // Not cancelled and the channel open: no worker has ended, so the queue can be drained.
      if |s.queue| < c.capacity {
        l := Send;
      } else {
        assert s.workers[0] == Receiving;
        l := Work(0, Receive);
      }
    } else if s.reporter == Reporting {
      l := if s.generator == Returned(false) then ReporterDone else ReporterCancel;
    } else {
      var i :| 0 <= i < |s.workers| && !s.workers[i].Ended?;
      l := Work(i, if s.queue != [] then Receive else if TasksClosed(s) then SeeClosed else SeeCancel);
    }
  }

  function Rank(attempts: nat): Worker -> nat {
    (w: Worker) =>
      match w
      case Receiving => 1
      case Applying(_, tried) => if tried < attempts then 1 + attempts - tried else 1
      case Ended(_) => 0
  }

  function GeneratorRank(g: Generator): nat {
    match g
    case Generating => 2
    case Closed => 1
    case Returned(_) => 0
  }

  /** k * n, unfolded one n at a time. */
  function Times(k: nat, n: nat): nat {
    if n == 0 then 0 else k + Times(k, n - 1)
  }

  function Measure(c: Config, s: State): nat
    requires s.generated <= c.Total()
  {
    Times(c.attempts + 4, c.Total() - s.generated) + Times(c.attempts + 3, |s.queue|)
    + Sum(s.workers, Rank(c.attempts))
    + GeneratorRank(s.generator) + One(s.reporter == Reporting) + One(!s.parentCancelled)
  }

  lemma MeasureStep(c: Config, s: State, l: Label)
    requires c.Valid() && Control(c, s) && Enabled(c, s, l)
    ensures var t := Apply(c, s, l); t.generated <= c.Total() && Measure(c, t) < Measure(c, s)
  {
    if l.Work? {
      var w := s.workers[l.i];
      RankStep(c, s, w, l.act);
      SumUpdate(s.workers, l.i, NextWorker(c, s, w, l.act), Rank(c.attempts));
    }
  }

  /** A worker's own part of it: receiving adds less than a queued task is worth. */
  lemma RankStep(c: Config, s: State, w: Worker, a: Action)
    requires CanAct(c, s, w, a) && (w.Applying? ==> w.tried < c.attempts)
    ensures var rank := Rank(c.attempts);
            rank(NextWorker(c, s, w, a)) < rank(w) + if a == Receive then c.attempts + 3 else 0
  {
  }

  /** Every run is finite: at most Measure(s) more steps from any reachable state. */
  lemma RunTerminates(c: Config, s: State, ls: seq<Label>, t: State)
    requires c.Valid() && Reachable(c, s) && Runs(c, s, ls, t)
    ensures s.generated <= c.Total() && |ls| <= Measure(c, s)
  {
    ReachableInv(c, s);
    BoundedRun(c, s, ls, t);
  }

  lemma {:induction false} BoundedRun(c: Config, s: State, ls: seq<Label>, t: State)
    requires c.Valid() && Control(c, s) && Runs(c, s, ls, t)
    ensures |ls| <= Measure(c, s)
    decreases |ls|
  {
    if ls == [] {
    } else {
      ControlStep(c, s, ls[0]);
      MeasureStep(c, s, ls[0]);
      BoundedRun(c, Apply(c, s, ls[0]), ls[1..], t);
    }
  }

  lemma {:induction false} RunsAppend(c: Config, s: State, ls: seq<Label>, t: State, l: Label)
    requires Runs(c, s, ls, t) && Enabled(c, t, l)
    ensures Runs(c, s, ls + [l], Apply(c, t, l))
    decreases |ls|
  {
    if ls == [] {
      assert ls + [l] == [l];
      assert Runs(c, Apply(c, s, l), [], Apply(c, t, l));
    } else {
      assert (ls + [l])[1..] == ls[1..] + [l];
      RunsAppend(c, Apply(c, s, ls[0]), ls[1..], t, l);
    }
  }

  lemma {:induction false} FinishWithin(c: Config, s: State, bound: nat) returns (ls: seq<Label>, t: State)
    requires c.Valid() && Reachable(c, s) && s.generated <= c.Total() && Measure(c, s) <= bound
    ensures Runs(c, s, ls, t) && Final(t) && ParentCancel !in ls
    decreases bound
  {
    if Final(s) {
      return [], s;
    }
    ReachableInv(c, s);
    var l := DeadlockFree(c, s);
    MeasureStep(c, s, l);
    var before :| Runs(c, Init(c), before, s);
    RunsAppend(c, Init(c), before, s, l);
    ls, t := FinishWithin(c, Apply(c, s, l), bound - 1);
    ls := [l] + ls;
  }

  /** From every reachable state, after any failure, all goroutines can still exit, without help from the caller. */
  lemma CanFinish(c: Config, s: State) returns (ls: seq<Label>, t: State)
    requires c.Valid() && Reachable(c, s)
    ensures Runs(c, s, ls, t) && Final(t) && ParentCancel !in ls
  {
    ReachableInv(c, s);
    ls, t := FinishWithin(c, s, Measure(c, s));
  }

  // ---------------------------------------------------------------- a load that fails

  /** The first worker has failed k times to apply the first task. */
  function Failing(c: Config, k: nat): State
    requires c.Valid() && k <= c.attempts
  {
    var w := if k < c.attempts then Applying(0, k) else Ended(true);
    Init(c).(workers := Init(c).workers[0 := w], generated := 1,
             cancelled := k == c.attempts, givenUp := if k == c.attempts then multiset{0} else multiset{})
  }

  lemma ReachableStep(c: Config, s: State, l: Label)
    requires Reachable(c, s) && Enabled(c, s, l)
    ensures Reachable(c, Apply(c, s, l))
  {
    var ls :| Runs(c, Init(c), ls, s);
    RunsAppend(c, Init(c), ls, s, l);
  }

  lemma FailsOnce(c: Config, k: nat)
    requires c.Valid() && k < c.attempts && Reachable(c, Failing(c, k))
    ensures Reachable(c, Failing(c, k + 1))
  {
    var s, t := Failing(c, k), Failing(c, k + 1);
    assert s.workers[0 := t.workers[0]] == t.workers;
    ReachableStep(c, s, Work(0, TryFail));
    assert Apply(c, s, Work(0, TryFail)) == t;
  }

  lemma ReceivesFirst(c: Config)
    requires c.Valid() && c.Total() > 0
    ensures Reachable(c, Failing(c, 0))
  {
    assert Runs(c, Init(c), [], Init(c));
    ReachableStep(c, Init(c), Send);
    var s := Apply(c, Init(c), Send);
    assert s.queue == [0] && s.queue[1..] == [];
    ReachableStep(c, s, Work(0, Receive));
    assert Apply(c, s, Work(0, Receive)) == Failing(c, 0);
  }

  lemma {:induction false} FailingIsReachable(c: Config, k: nat)
    requires c.Valid() && c.Total() > 0 && k <= c.attempts
    ensures Reachable(c, Failing(c, k))
  {
    if k == 0 {
      ReceivesFirst(c);
    } else {
      FailingIsReachable(c, k - 1);
      FailsOnce(c, k - 1);
    }
  }

  /** Any load with a task can fail by itself: a run that gives its first task up and ends with an error. */
  lemma LoadCanFail(c: Config) returns (s: State)
    requires c.Valid() && c.Total() > 0
    ensures Reachable(c, s) && Final(s) && !s.parentCancelled && !Success(s)
  {
    FailingIsReachable(c, c.attempts);
    var m := Failing(c, c.attempts);
    var ls;
    ls, s := CanFinish(c, m);
    GivenUpStays(c, m, ls, s);
    var before :| Runs(c, Init(c), before, m);
    RunsConcat(c, Init(c), before, m, ls, s);
    ErrorExactly(c, s);
  }

  /** ... and a caller that cancels can make it fail although no task does. */
  lemma CancelCanFail(c: Config) returns (ls: seq<Label>, s: State)
    requires c.Valid()
    ensures Runs(c, Init(c), ls, s) && Final(s) && s.parentCancelled && !Success(s)
    ensures [ParentCancel, ReporterCancel] <= ls
  {
    assert Runs(c, Init(c), [], Init(c));
    var s1 := Apply(c, Init(c), ParentCancel);
    ReachableStep(c, Init(c), ParentCancel);
    var s2 := Apply(c, s1, ReporterCancel);
    ReachableStep(c, s1, ReporterCancel);
    ls, s := CanFinish(c, s2);
    ReporterStays(c, s2, ls, s);
    ls := [ParentCancel, ReporterCancel] + ls;
    assert ls[1..][1..] == ls[2..];
  }

  lemma {:induction false} ReporterStays(c: Config, s: State, ls: seq<Label>, t: State)
    requires Runs(c, s, ls, t) && s.parentCancelled && s.reporter == Quit(true)
    ensures t.parentCancelled && t.reporter == Quit(true)
    decreases |ls|
  {
    if ls == [] {
    } else {
      ReporterStays(c, Apply(c, s, ls[0]), ls[1..], t);
    }
  }

  lemma {:induction false} GivenUpStays(c: Config, s: State, ls: seq<Label>, t: State)
    requires Runs(c, s, ls, t) && ParentCancel !in ls
    ensures s.givenUp <= t.givenUp && t.parentCancelled == s.parentCancelled
    decreases |ls|
  {
    if ls == [] {
    } else {
      assert ls[0] in ls;
      GivenUpStays(c, Apply(c, s, ls[0]), ls[1..], t);
    }
  }

  lemma {:induction false} RunsConcat(c: Config, s: State, xs: seq<Label>, m: State, ys: seq<Label>, t: State)
    requires Runs(c, s, xs, m) && Runs(c, m, ys, t)
    ensures Runs(c, s, xs + ys, t)
    decreases |xs|
  {
    if xs == [] {
      assert xs + ys == ys;
    } else {
      assert (xs + ys)[1..] == xs[1..] + ys;
      RunsConcat(c, Apply(c, s, xs[0]), xs[1..], m, ys, t);
    }
  }
}
