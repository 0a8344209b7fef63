/**
 The request scheduler: `Schedule` starts one worker per client, `WeightedRandomRequests.Run`
 offers picked builders on an unbuffered channel, `Stop` closes it. Each worker receives a
 builder, builds a request, waits for the rate limiter, executes and records a metric.

 One label per atomic step of one goroutine; every theorem is about every sequence of labels.
 Names of POST/DELETE entries are represented by the counter value they were printed from
 (module MetricKeys proves the printing injective).
 */
module Scheduler {
  import opened Ints
  import opened Sums
  import RandomChoice

  /** What `Build` produced: for POST/DELETE entries the operation and the object name. */
  datatype Op = Plain | Post(name: nat) | Delete(name: nat)

  /** The error returned by `Do`. NoError is an HTTP/2 stream error with code NO_ERROR. */
  datatype Outcome = Ok | NoError | Failed

  datatype Worker =
    | Idle                                             // ranging over the channel
    | Received(entry: nat)                             // about to call Build
    | Built(entry: nat, op: Op)                        // about to call limiter.Wait
    | Waiting(entry: nat, op: Op)                      // inside limiter.Wait, context was live on entry
    | Executing(entry: nat, op: Op)                    // inside Do
    | Returned(entry: nat, op: Op, outcome: Outcome)   // about to observe the metric
    | Cancelling                                       // limiter failed, about to call cancel
    | Left(dropped: bool)                              // goroutine returned

  /** `Run` is offering; `Run` has returned; `Stop` has closed the channel. */
  datatype Producer = Offering | Stopped | Closed

  /**
   One POST/DELETE builder: the atomic counter, the FIFO cache, and the history of names by
   fate. Entries of other kinds have a pool that never changes.
   */
  datatype Pool = Pool(
    counter: nat,
    cache: seq<nat>,
    created: multiset<nat>,      // POST returned nil
    failed: multiset<nat>,       // POST returned an error
    postDropped: multiset<nat>,  // POST built, then the limiter failed
    delDropped: multiset<nat>,   // DELETE built (name already popped), then the limiter failed
    deleted: multiset<nat>       // DELETE returned nil
  )

  const EMPTY_POOL := Pool(0, [], multiset{}, multiset{}, multiset{}, multiset{}, multiset{})

  /** What a request entry builds; the delete ratio of a POST/DELETE entry may be 0. */
  datatype Kind = Other | PostDel(deleteRatio: real)

  datatype Entry = Entry(share: nat, kind: Kind)

  datatype Config = Config(
    clients: nat,
    total: int,           // <= 0 means no bound on the number of requests
    deadline: bool,       // spec.Duration > 0
    external: bool,       // the caller may cancel its context
    entries: seq<Entry>
  ) {
    /** Validate demands Client > 0; picking a request panics unless some entry has a positive share. */
    ghost predicate Valid() { clients > 0 && exists e :: Pickable(e) }
    predicate Interruptible() { deadline || external }

    /** Some draw of randomPick selects the entry (module RandomChoice counts the draws). */
    predicate Pickable(e: int) { 0 <= e < |entries| && entries[e].share > 0 }

    /** The entry can be picked and creates objects, */
    predicate Creates(e: int) { Pickable(e) && entries[e].kind.PostDel? }

    /** ... or also deletes them. */
    predicate Deletes(e: int) { Creates(e) && entries[e].kind.deleteRatio > 0.0 }
  }

  datatype State = State(
    producer: Producer,
    done: bool,           // the context is cancelled or expired
    workers: seq<Worker>,
    sent: nat,
    latencies: nat,
    failures: nat,
    drops: nat,
    pools: seq<Pool>
  )

  /** What one worker does in one step. */
  datatype Action =
    | Receive(entry: nat)        // rendezvous with the producer on the unbuffered channel
    | Build(draw: nat)           // of rand.Int below 1000, compared with the delete ratio
    | Enter                      // limiter.Wait sees a live context
    | LimiterFail
    | LimiterPass
    | Do(outcome: Outcome)
    | Record
    | Cancel
    | Exit                       // the channel is closed

  datatype Label =
    | Step(i: nat, act: Action)
    | Expire                     // the deadline passes or the caller cancels
    | Return                     // Run returns
    | Close                      // Stop closes the channel

  function Init(c: Config): State {
    State(Offering, false, seq(c.clients, _ => Idle), 0, 0, 0, 0, seq(|c.entries|, _ => EMPTY_POOL))
  }

  // ---------------------------------------------------------------- pools

  function KindOf(c: Config, e: nat): Kind {
    if e < |c.entries| then c.entries[e].kind else Other
  }

  predicate WantsDelete(k: Kind, draw: nat) {
    k.PostDel? && draw as real / 1000.0 < k.deleteRatio
  }

  function BuildOp(p: Pool, k: Kind, draw: nat): Op {
    if k.Other? then Plain
    else if WantsDelete(k, draw) && p.cache != [] then Delete(p.cache[0])
    else Post(p.counter + 1)
  }

  function BuildPool(p: Pool, op: Op): Pool {
    match op
    case Plain => p
    case Post(_) => p.(counter := p.counter + 1)
    case Delete(_) => if p.cache != [] then p.(cache := p.cache[1..]) else p
  }

  /** The popped name is not put back when the limiter fails. */
  function DropPool(p: Pool, op: Op): Pool {
    match op
    case Plain => p
    case Post(n) => p.(postDropped := p.postDropped + multiset{n})
    case Delete(n) => p.(delDropped := p.delDropped + multiset{n})
  }

  /** `Do` sees NO_ERROR as an error: the rewrite to nil happens later, in the worker. */
  function DoPool(p: Pool, op: Op, o: Outcome): Pool {
    match op
    case Plain => p
    case Post(n) =>
      if o == Ok then p.(cache := p.cache + [n], created := p.created + multiset{n})
      else p.(failed := p.failed + multiset{n})
    case Delete(n) =>
      if o == Ok then p.(deleted := p.deleted + multiset{n})
      else p.(cache := p.cache + [n])
  }

  // ---------------------------------------------------------------- steps

  predicate MayPick(c: Config, s: State) {
    c.total <= 0 || s.sent < c.total
  }

  predicate Holds(w: Worker) {
    !w.Idle? && !w.Cancelling? && !w.Left?
  }

  predicate CanAct(c: Config, s: State, w: Worker, a: Action) {
    match a
    case Receive(e) => w == Idle && s.producer == Offering && MayPick(c, s) && e < |s.pools| && c.Pickable(e)
    case Build(draw) => w.Received? && draw < 1000
    case Enter => w.Built? && !s.done
    // Wait fails on a dead context, and at once if the token would come after the deadline.
    case LimiterFail => (w.Built? || w.Waiting?) && (s.done || c.deadline)
    case LimiterPass => w.Waiting?
    case Do(_) => w.Executing?
    case Record => w.Returned?
    case Cancel => w == Cancelling
    case Exit => w == Idle && s.producer == Closed
  }

  /** The worker after the action; p is the pool of the entry it works on. */
  function NextWorker(c: Config, p: Pool, w: Worker, a: Action): Worker {
    match a
    case Receive(e) => Received(e)
    case Build(draw) =>
      if w.Received? then Built(w.entry, BuildOp(p, KindOf(c, w.entry), draw)) else w
    case Enter => if w.Built? then Waiting(w.entry, w.op) else w
    case LimiterFail => Cancelling
    case LimiterPass => if w.Waiting? then Executing(w.entry, w.op) else w
    case Do(o) => if w.Executing? then Returned(w.entry, w.op, o) else w
    case Record => Idle
    case Cancel => Left(true)
    case Exit => Left(false)
  }

  function NextPool(c: Config, p: Pool, w: Worker, a: Action): Pool {
    match a
    case Build(draw) =>
      if w.Received? then BuildPool(p, BuildOp(p, KindOf(c, w.entry), draw)) else p
    case LimiterFail => if w.Built? || w.Waiting? then DropPool(p, w.op) else p
    case Do(o) => if w.Executing? then DoPool(p, w.op, o) else p
    case _ => p
  }

  predicate Enabled(c: Config, s: State, l: Label) {
    match l
    case Step(i, a) =>
      && i < |s.workers|
      && (Holds(s.workers[i]) ==> s.workers[i].entry < |s.pools|)
      && CanAct(c, s, s.workers[i], a)
    case Expire => c.Interruptible() && !s.done
    case Return => s.producer == Offering && (!MayPick(c, s) || s.done)
    case Close => s.producer == Stopped
  }

  function Apply(c: Config, s: State, l: Label): State
    requires Enabled(c, s, l)
  {
    match l
    case Step(i, a) => ApplyStep(c, s, i, a)
    case Expire => s.(done := true)
    case Return => s.(producer := Stopped)
    case Close => s.(producer := Closed)
  }

  function ApplyStep(c: Config, s: State, i: nat, a: Action): State
    requires Enabled(c, s, Step(i, a))
  {
    var w := s.workers[i];
    var p := if Holds(w) then s.pools[w.entry] else EMPTY_POOL;
    s.(
      done := s.done || a == Cancel,
      workers := s.workers[i := NextWorker(c, p, w, a)],
      sent := s.sent + One(a.Receive?),
      latencies := s.latencies + One(a == Record && w.Returned? && w.outcome != Failed),
      failures := s.failures + One(a == Record && w.Returned? && w.outcome == Failed),
      drops := s.drops + One(a == LimiterFail),
      pools := if Holds(w) then s.pools[w.entry := NextPool(c, p, w, a)] else s.pools
    )
  }

  /** Does the label sequence run from s, and to which state? */
  ghost predicate Runs(c: Config, s: State, ls: seq<Label>, t: State)
    decreases |ls|
  {
    if ls == [] then s == t
    else Enabled(c, s, ls[0]) && Runs(c, Apply(c, s, ls[0]), ls[1..], t)
  }

  ghost predicate Reachable(c: Config, t: State) {
    exists ls :: Runs(c, Init(c), ls, t)
  }

  /** `Schedule` returns once the channel is closed and every worker has left. */
  predicate Final(s: State) {
    s.producer == Closed && forall i :: 0 <= i < |s.workers| ==> s.workers[i].Left?
  }

  // ---------------------------------------------------------------- what each worker counts for

  function InProgress(w: Worker): nat {
    One(Holds(w))
  }

  function Dropped(w: Worker): nat {
    if w == Cancelling || w == Left(true) then 1 else 0
  }

  // ---------------------------------------------------------------- invariant 1: counting

  ghost predicate Counts(c: Config, s: State) {
    && |s.workers| == c.clients
    && s.sent == s.latencies + s.failures + Sum(s.workers, InProgress) + s.drops
    && s.drops == Sum(s.workers, Dropped)
    && (c.total > 0 ==> s.sent <= c.total)
  }

  lemma CountsStep(c: Config, s: State, l: Label)
    requires Counts(c, s) && Enabled(c, s, l)
    ensures Counts(c, Apply(c, s, l))
  {
    if l.Step? {
      var w' := Apply(c, s, l).workers[l.i];
      SumUpdate(s.workers, l.i, w', InProgress);
      SumUpdate(s.workers, l.i, w', Dropped);
    }
  }

  // ---------------------------------------------------------------- invariant 2: control

  ghost predicate Control(c: Config, s: State) {
    && |s.pools| == |c.entries|
    && (forall i :: 0 <= i < |s.workers| && Holds(s.workers[i]) ==>
          s.workers[i].entry < |s.pools| && c.Pickable(s.workers[i].entry))
    && (forall i :: 0 <= i < |s.workers| && s.workers[i] == Left(true) ==> s.done)
    && (forall i :: 0 <= i < |s.workers| && s.workers[i] == Left(false) ==> s.producer == Closed)
    && (s.producer != Offering ==> !MayPick(c, s) || s.done)
    && (!c.Interruptible() ==> !s.done && forall i :: 0 <= i < |s.workers| ==> Dropped(s.workers[i]) == 0)
  }

  lemma ControlStep(c: Config, s: State, l: Label)
    requires Control(c, s) && Enabled(c, s, l)
    ensures Control(c, Apply(c, s, l))
  {
  }

  lemma {:induction false} InvariantsHold(c: Config, s: State, ls: seq<Label>, t: State)
    requires Counts(c, s) && Control(c, s) && Pools(c, s) && Runs(c, s, ls, t)
    ensures Counts(c, t) && Control(c, t) && Pools(c, t)
    decreases |ls|
  {
    if ls == [] {
    } else {
      CountsStep(c, s, ls[0]);
      ControlStep(c, s, ls[0]);
      PoolsStep(c, s, ls[0]);
      InvariantsHold(c, Apply(c, s, ls[0]), ls[1..], t);
    }
  }

  lemma ReachableInvariants(c: Config, s: State)
    requires Reachable(c, s)
    ensures Counts(c, s) && Control(c, s) && Pools(c, s)
  {
    var ls :| Runs(c, Init(c), ls, s);
    SumZero(Init(c).workers, InProgress);
    SumZero(Init(c).workers, Dropped);
    PoolsInit(c);
    InvariantsHold(c, Init(c), ls, s);
  }

  // ---------------------------------------------------------------- invariant 3: name ownership

  predicate InFlight(w: Worker) {
    w.Built? || w.Waiting? || w.Executing?
  }

  /** Is the worker between Build and the end of Do for a POST of name n of entry e? */
  function Posting(e: nat, n: nat): Worker -> nat {
    (w: Worker) => if InFlight(w) && w.entry == e && w.op == Post(n) then 1 else 0
  }

  function Deleting(e: nat, n: nat): Worker -> nat {
    (w: Worker) => if InFlight(w) && w.entry == e && w.op == Delete(n) then 1 else 0
  }

  function DeletingAny(e: nat): Worker -> nat {
    (w: Worker) => if InFlight(w) && w.entry == e && w.op.Delete? then 1 else 0
  }

  /**
   Every name generated so far has exactly one POST fate, every other name none; every created
   name has exactly one place: cached, under DELETE, lost at the limiter, or deleted.
   */
  ghost predicate Owned(ws: seq<Worker>, p: Pool, e: nat, n: nat) {
    && One(1 <= n <= p.counter) == p.created[n] + p.failed[n] + p.postDropped[n] + Sum(ws, Posting(e, n))
    && p.created[n] == multiset(p.cache)[n] + Sum(ws, Deleting(e, n)) + p.delDropped[n] + p.deleted[n]
    && |p.created| == |p.cache| + Sum(ws, DeletingAny(e)) + |p.delDropped| + |p.deleted|
  }

  ghost predicate Pools(c: Config, s: State) {
    forall e, n: nat :: 0 <= e < |s.pools| ==> Owned(s.workers, s.pools[e], e, n)
  }

  lemma PoolsInit(c: Config)
    ensures Pools(c, Init(c))
  {
    var ws := Init(c).workers;
    forall e, n: nat | 0 <= e < |Init(c).pools| ensures Owned(ws, Init(c).pools[e], e, n) {
      SumZero(ws, Posting(e, n));
      SumZero(ws, Deleting(e, n));
      SumZero(ws, DeletingAny(e));
    }
  }

  lemma PoolsStep(c: Config, s: State, l: Label)
    requires Pools(c, s) && Enabled(c, s, l)
    ensures Pools(c, Apply(c, s, l))
  {
    var t := Apply(c, s, l);
    PoolsCount(c, s, l);
    forall e, n: nat | 0 <= e < |t.pools| ensures Owned(t.workers, t.pools[e], e, n) {
      assert Owned(s.workers, s.pools[e], e, n);
      OwnedStep(c, s, l, e, n);
    }
  }

  lemma PoolsCount(c: Config, s: State, l: Label)
    requires Enabled(c, s, l)
    ensures |Apply(c, s, l).pools| == |s.pools|
  {
  }

  lemma PopFront(cache: seq<nat>, n: nat)
    requires cache != []
    ensures multiset(cache)[n] == multiset(cache[1..])[n] + if cache[0] == n then 1 else 0
  {
    assert cache == [cache[0]] + cache[1..];
  }

  /**
   A move of one worker from (pool p, operation op) to (pool q, operation op') that leaves the
   two sides of both equations of name n, and of the size equation, equally far apart.
   */
  ghost predicate Balanced(p: Pool, op: Op, q: Pool, op': Op, n: nat) {
    && One(1 <= n <= p.counter) + q.created[n] + q.failed[n] + q.postDropped[n] + One(op' == Post(n))
       == One(1 <= n <= q.counter) + p.created[n] + p.failed[n] + p.postDropped[n] + One(op == Post(n))
    && p.created[n] + multiset(q.cache)[n] + q.delDropped[n] + q.deleted[n] + One(op' == Delete(n))
       == q.created[n] + multiset(p.cache)[n] + p.delDropped[n] + p.deleted[n] + One(op == Delete(n))
    && |p.created| + |q.cache| + |q.delDropped| + |q.deleted| + One(op'.Delete?)
       == |q.created| + |p.cache| + |p.delDropped| + |p.deleted| + One(op.Delete?)
  }

  lemma StillBalanced(p: Pool, op: Op, n: nat)
    ensures Balanced(p, op, p, op, n)
  {
  }

  lemma BuildBalanced(p: Pool, k: Kind, draw: nat, n: nat)
    ensures var op := BuildOp(p, k, draw);
            Balanced(p, Plain, BuildPool(p, op), op, n)
  {
    if p.cache == [] {
    } else {
      PopFront(p.cache, n);
    }
  }

  lemma DropBalanced(p: Pool, op: Op, n: nat)
    ensures Balanced(p, op, DropPool(p, op), Plain, n)
  {
  }

  lemma DoBalanced(p: Pool, op: Op, o: Outcome, n: nat)
    ensures Balanced(p, op, DoPool(p, op, o), Plain, n)
  {
  }

  /** The operation of entry e in flight at w. */
  function OpOf(w: Worker, e: nat): Op {
    if InFlight(w) && w.entry == e then w.op else Plain
  }

  /** A balanced move of worker i to w' and of its pool to q keeps name n owned. */
  lemma OwnedMove(ws: seq<Worker>, p: Pool, i: nat, w': Worker, q: Pool, e: nat, n: nat)
    requires i < |ws| && Owned(ws, p, e, n)
    requires Balanced(p, OpOf(ws[i], e), q, OpOf(w', e), n)
    ensures Owned(ws[i := w'], q, e, n)
  {
    SumUpdate(ws, i, w', Posting(e, n));
    SumUpdate(ws, i, w', Deleting(e, n));
    SumUpdate(ws, i, w', DeletingAny(e));
  }

  /** Every action of a worker is balanced for the pool of the entry it works on. */
  lemma ActionBalanced(c: Config, s: State, p: Pool, w: Worker, a: Action, n: nat)
    requires Holds(w) && CanAct(c, s, w, a)
    ensures Balanced(p, OpOf(w, w.entry), NextPool(c, p, w, a), OpOf(NextWorker(c, p, w, a), w.entry), n)
  {
    if a.Build? || a.LimiterFail? || a.Do? {
      PoolActionBalanced(c, s, p, w, a, n);
    } else {
      StillBalanced(p, OpOf(w, w.entry), n);
    }
  }

  lemma PoolActionBalanced(c: Config, s: State, p: Pool, w: Worker, a: Action, n: nat)
    requires Holds(w) && CanAct(c, s, w, a) && (a.Build? || a.LimiterFail? || a.Do?)
    ensures Balanced(p, OpOf(w, w.entry), NextPool(c, p, w, a), OpOf(NextWorker(c, p, w, a), w.entry), n)
  {
    match a
    case Build(draw) => BuildBalanced(p, KindOf(c, w.entry), draw, n);
    case LimiterFail => DropBalanced(p, w.op, n);
    case Do(o) => DoBalanced(p, w.op, o, n);
  }

  /** ... and leaves every other entry alone. */
  lemma OtherEntries(c: Config, s: State, p: Pool, w: Worker, a: Action, e: nat)
    requires CanAct(c, s, w, a) && (Holds(w) ==> w.entry != e)
    ensures OpOf(w, e) == Plain && OpOf(NextWorker(c, p, w, a), e) == Plain
  {
  }

  lemma OwnedStep(c: Config, s: State, l: Label, e: nat, n: nat)
    requires e < |s.pools| && Owned(s.workers, s.pools[e], e, n) && Enabled(c, s, l)
    ensures var t := Apply(c, s, l); |t.pools| == |s.pools| && Owned(t.workers, t.pools[e], e, n)
  {
    if l.Step? {
      var w := s.workers[l.i];
      var t := Apply(c, s, l);
      if Holds(w) && w.entry == e {
        ActionBalanced(c, s, s.pools[e], w, l.act, n);
      } else {
        OtherEntries(c, s, if Holds(w) then s.pools[w.entry] else EMPTY_POOL, w, l.act, e);
      }
      OwnedMove(s.workers, s.pools[e], l.i, t.workers[l.i], t.pools[e], e, n);
    }
  }

  // ---------------------------------------------------------------- theorems: conservation

  /** Every request sent is recorded, in progress, or was dropped at the limiter. */
  lemma Conservation(c: Config, s: State)
    requires Reachable(c, s)
    ensures s.sent == s.latencies + s.failures + Sum(s.workers, InProgress) + s.drops
    ensures s.drops <= c.clients
    ensures c.total > 0 ==> s.sent <= c.total
    ensures s.drops > 0 ==> c.Interruptible()
    ensures s.drops > 0 ==> s.done || exists i :: 0 <= i < |s.workers| && s.workers[i] == Cancelling
  {
    ReachableInvariants(c, s);
    SumAtMost(s.workers, Dropped, 1);
    SumZero(s.workers, Dropped);
  }

  /**
   When Schedule returns nothing is in progress. Result.Total, which is spec.Total, then equals
   the number of recorded requests exactly when all of them were sent and none was dropped;
   without a deadline and without cancellation that is always so.
   */
  lemma FinalAccount(c: Config, s: State)
    requires Reachable(c, s) && Final(s)
    ensures s.sent == s.latencies + s.failures + s.drops
    ensures c.total > 0 ==> (s.latencies + s.failures == c.total <==> s.sent == c.total && s.drops == 0)
    ensures c.total > 0 && !c.Interruptible() ==> s.latencies + s.failures == c.total
  {
    ReachableInvariants(c, s);
    SumZero(s.workers, InProgress);
    SumZero(s.workers, Dropped);
  }

  // ---------------------------------------------------------------- theorems: progress

  /** A state in which no goroutine can move is final: there is always a step that is not a cancellation. */
  lemma DeadlockFree(c: Config, s: State) returns (l: Label)
    requires c.Valid() && Reachable(c, s) && !Final(s)
    ensures Enabled(c, s, l) && l != Expire
  {
    ReachableInvariants(c, s);
    if s.producer == Stopped {
      return Close;
    }
    if i :| 0 <= i < |s.workers| && s.workers[i] != Idle && !s.workers[i].Left? {
      l := Step(i, WorkerAction(s, s.workers[i]));
    } else if s.producer == Closed {
      var i :| 0 <= i < |s.workers| && !s.workers[i].Left?;
      l := Step(i, Exit);
    } else if !MayPick(c, s) || s.done {
      l := Return;
    } else {
      // A worker leaves an open channel only after cancelling, so all of them are idle.
      assert s.workers[0] == Idle;
      var e :| c.Pickable(e);
      l := Step(0, Receive(e));
    }
  }

  /** What a busy worker can always do next. */
  function WorkerAction(s: State, w: Worker): Action {
    match w
    case Received(_) => Build(0)
    case Built(_, _) => if s.done then LimiterFail else Enter
    case Waiting(_, _) => LimiterPass
    case Executing(_, _) => Do(Ok)
    case Returned(_, _, _) => Record
    case Cancelling => Cancel
    case _ => Exit
  }

  /** Nothing is sent once the channel is closed. */
  lemma {:induction false} NoSendAfterClose(c: Config, s: State, ls: seq<Label>, t: State)
    requires s.producer == Closed && Runs(c, s, ls, t)
    ensures forall k :: 0 <= k < |ls| ==> !(ls[k].Step? && ls[k].act.Receive?)
    ensures t.sent == s.sent
    decreases |ls|
  {
    if ls == [] {
    } else {
      NoSendAfterClose(c, Apply(c, s, ls[0]), ls[1..], t);
      assert forall k :: 1 <= k < |ls| ==> ls[k] == ls[1..][k - 1];
    }
  }

  /** Steps a worker can still take without receiving another request. */
  function Rank(w: Worker): nat {
    match w
    case Received(_) => 8
    case Built(_, _) => 7
    case Waiting(_, _) => 6
    case Executing(_, _) => 5
    case Returned(_, _, _) => 4
    case Idle => 3
    case Cancelling => 2
    case Left(_) => 0
  }

  /** Once the context is dead a received request can only be dropped, so the cycle is broken. */
  function DrainRank(w: Worker): nat {
    match w
    case Waiting(_, _) => 9
    case Executing(_, _) => 8
    case Returned(_, _, _) => 7
    case Idle => 6
    case Received(_) => 5
    case Built(_, _) => 4
    case Cancelling => 2
    case Left(_) => 0
  }

  function ProducerRank(p: Producer): nat {
    match p
    case Offering => 2
    case Stopped => 1
    case Closed => 0
  }

  function Measure(c: Config, s: State): nat
    requires c.total > 0 ==> s.sent <= c.total
  {
    (if c.total > 0 then 6 * (c.total - s.sent) else 0)
    + Sum(s.workers, Rank) + ProducerRank(s.producer) + One(!s.done)
  }

  function DrainMeasure(s: State): nat {
    Sum(s.workers, DrainRank) + ProducerRank(s.producer)
  }

  lemma MeasureStep(c: Config, s: State, l: Label)
    requires c.total > 0 && Counts(c, s) && Enabled(c, s, l)
    ensures var t := Apply(c, s, l); t.sent <= c.total && Measure(c, t) < Measure(c, s)
  {
    if l.Step? {
      SumUpdate(s.workers, l.i, Apply(c, s, l).workers[l.i], Rank);
    }
  }

  lemma DrainStep(c: Config, s: State, l: Label)
    requires s.done && Enabled(c, s, l)
    ensures var t := Apply(c, s, l); t.done && DrainMeasure(t) < DrainMeasure(s)
  {
    if l.Step? {
      SumUpdate(s.workers, l.i, Apply(c, s, l).workers[l.i], DrainRank);
    }
  }

  /** Every run of a bounded spec is finite: at most Measure(s) more steps from any reachable state s. */
  lemma BoundedRunTerminates(c: Config, s: State, ls: seq<Label>, t: State)
    requires c.total > 0 && Reachable(c, s) && Runs(c, s, ls, t)
    ensures s.sent <= c.total && |ls| <= Measure(c, s)
  {
    ReachableInvariants(c, s);
    BoundedRun(c, s, ls, t);
  }

  lemma {:induction false} BoundedRun(c: Config, s: State, ls: seq<Label>, t: State)
    requires c.total > 0 && Counts(c, s) && Runs(c, s, ls, t)
    ensures |ls| <= Measure(c, s)
    decreases |ls|
  {
    if ls == [] {
    } else {
      CountsStep(c, s, ls[0]);
      MeasureStep(c, s, ls[0]);
      BoundedRun(c, Apply(c, s, ls[0]), ls[1..], t);
    }
  }

  /** With or without a bound, a run whose context is dead has at most 9 steps per client left, plus two. */
  lemma {:induction false} DrainsAfterDone(c: Config, s: State, ls: seq<Label>, t: State)
    requires s.done && Runs(c, s, ls, t)
    ensures |ls| <= DrainMeasure(s) <= 9 * |s.workers| + 2
    decreases |ls|
  {
    SumAtMost(s.workers, DrainRank, 9);
    if ls == [] {
    } else {
      DrainStep(c, s, ls[0]);
      DrainsAfterDone(c, Apply(c, s, ls[0]), ls[1..], t);
    }
  }

  lemma {:induction false} RunsAppend(c: Config, s: State, ls: seq<Label>, t: State, l: Label)
    requires Runs(c, s, ls, t) && Enabled(c, t, l)
    ensures Runs(c, s, ls + [l], Apply(c, t, l))
    decreases |ls|
  {
    if ls == [] {
      assert ls + [l] == [l];
      assert Runs(c, Apply(c, s, l), [], Apply(c, t, l));
    } else {
      assert (ls + [l])[1..] == ls[1..] + [l];
      RunsAppend(c, Apply(c, s, ls[0]), ls[1..], t, l);
    }
  }

  lemma ReachableStep(c: Config, s: State, l: Label)
    requires Reachable(c, s) && Enabled(c, s, l)
    ensures Reachable(c, Apply(c, s, l))
  {
    var ls :| Runs(c, Init(c), ls, s);
    RunsAppend(c, Init(c), ls, s, l);
  }

  /** A run that is dead, or that has a total, can be brought to its end. */
  lemma {:induction false} FinishWithin(c: Config, s: State, bound: nat) returns (ls: seq<Label>, t: State)
    requires c.Valid() && Reachable(c, s)
    requires if s.done then DrainMeasure(s) <= bound else c.total > 0 && s.sent <= c.total && Measure(c, s) <= bound
    ensures Runs(c, s, ls, t) && Final(t)
    decreases if s.done then 0 else 1, bound
  {
    if Final(s) {
      return [], s;
    }
    ReachableInvariants(c, s);
    var l := DeadlockFree(c, s);
    var m := Apply(c, s, l);
    ReachableStep(c, s, l);
    if s.done {
      DrainStep(c, s, l);
      ls, t := FinishWithin(c, m, bound - 1);
    } else {
      MeasureStep(c, s, l);
      ls, t := FinishWithin(c, m, if m.done then DrainMeasure(m) else bound - 1);
    }
    ls := [l] + ls;
  }

  /** With a total, a deadline or a cancelling caller, Schedule can return from every reachable state. */
  lemma CanFinish(c: Config, s: State) returns (ls: seq<Label>, t: State)
    requires c.Valid() && Reachable(c, s) && (c.total > 0 || c.Interruptible())
    ensures Runs(c, s, ls, t) && Final(t)
  {
    ReachableInvariants(c, s);
    if s.done {
      ls, t := FinishWithin(c, s, DrainMeasure(s));
    } else if c.total > 0 {
      ls, t := FinishWithin(c, s, Measure(c, s));
    } else {
      var m := Apply(c, s, Expire);
      ReachableStep(c, s, Expire);
      ls, t := FinishWithin(c, m, DrainMeasure(m));
      ls := [Expire] + ls;
    }
  }

  /** Without any of them it never does. */
  lemma NeverFinishes(c: Config, s: State)
    requires Reachable(c, s) && c.total <= 0 && !c.Interruptible()
    ensures s.producer == Offering && !Final(s)
  {
    ReachableInvariants(c, s);
  }

  /** Result.Total is the number of recorded requests in every run, exactly if nothing can interrupt it. */
  lemma TotalIsRecordedExactly(c: Config)
    requires c.Valid() && c.total > 0
    ensures (forall s :: Reachable(c, s) && Final(s) ==> s.latencies + s.failures == c.total) <==> !c.Interruptible()
  {
    if c.Interruptible() {
      var s := InterruptedAtOnce(c);
    } else {
      forall s | Reachable(c, s) && Final(s) ensures s.latencies + s.failures == c.total {
        FinalAccount(c, s);
      }
    }
  }

  /** A run that is interrupted before its first request records nothing. */
  lemma InterruptedAtOnce(c: Config) returns (s: State)
    requires c.Valid() && c.Interruptible()
    ensures Reachable(c, s) && Final(s) && s.latencies + s.failures == 0
  {
    s := Init(c);
    assert Runs(c, s, [], s);
    ReachableStep(c, s, Expire);
    s := Apply(c, s, Expire);
    ReachableStep(c, s, Return);
    s := Apply(c, s, Return);
    ReachableStep(c, s, Close);
    s := Apply(c, s, Close);
    var ls, t := CanFinish(c, s);
    NoSendAfterClose(c, s, ls, t);
    ReachableRuns(c, s, ls, t);
    s := t;
    FinalAccount(c, s);
  }

  lemma {:induction false} ReachableRuns(c: Config, s: State, ls: seq<Label>, t: State)
    requires Reachable(c, s) && Runs(c, s, ls, t)
    ensures Reachable(c, t)
    decreases |ls|
  {
    if ls == [] {
    } else {
      ReachableStep(c, s, ls[0]);
      ReachableRuns(c, Apply(c, s, ls[0]), ls[1..], t);
    }
  }

  // ---------------------------------------------------------------- theorems: names

  /** No name is in two places, in flight twice, or deleted twice; the cache has no duplicates. */
  lemma NameOwnership(c: Config, s: State, e: nat, n: nat)
    requires Reachable(c, s) && e < |s.pools|
    ensures var p := s.pools[e];
            && p.created[n] + p.failed[n] + p.postDropped[n] + Sum(s.workers, Posting(e, n)) <= 1
            && multiset(p.cache)[n] + Sum(s.workers, Deleting(e, n)) + p.delDropped[n] + p.deleted[n] <= 1
            && (n > p.counter ==> n !in p.cache && Sum(s.workers, Deleting(e, n)) == 0)
    ensures forall i, j :: 0 <= i < j < |s.workers| && InFlight(s.workers[i]) && InFlight(s.workers[j])
              && s.workers[i].entry == e && s.workers[j].entry == e
              ==> s.workers[i].op != Delete(n) || s.workers[j].op != Delete(n)
  {
    ReachableInvariants(c, s);
    var p := s.pools[e];
    assert Owned(s.workers, p, e, n);
    forall i, j | 0 <= i < j < |s.workers| && InFlight(s.workers[i]) && InFlight(s.workers[j])
      && s.workers[i].entry == e && s.workers[j].entry == e
      ensures s.workers[i].op != Delete(n) || s.workers[j].op != Delete(n)
    {
      SumAtLeastTwo(s.workers, i, j, Deleting(e, n));
    }
  }

  /** Cache size = created - deleted - under DELETE - lost at the limiter. */
  lemma CacheSize(c: Config, s: State, e: nat)
    requires Reachable(c, s) && e < |s.pools|
    ensures var p := s.pools[e];
            |p.cache| == |p.created| - |p.deleted| - Sum(s.workers, DeletingAny(e)) - |p.delDropped|
  {
    ReachableInvariants(c, s);
    assert Owned(s.workers, s.pools[e], e, 0);
  }

  lemma {:induction false} FatesGrow(c: Config, s: State, ls: seq<Label>, t: State, e: nat)
    requires Runs(c, s, ls, t) && e < |s.pools|
    ensures |t.pools| == |s.pools|
    ensures s.pools[e].deleted <= t.pools[e].deleted && s.pools[e].delDropped <= t.pools[e].delDropped
    decreases |ls|
  {
    if ls == [] {
    } else {
      FatesGrow(c, Apply(c, s, ls[0]), ls[1..], t, e);
    }
  }

  /** A name deleted, or popped and then dropped at the limiter, is never cached or deleted again. */
  lemma RetiredForever(c: Config, s: State, ls: seq<Label>, t: State, e: nat, n: nat)
    requires Reachable(c, s) && Runs(c, s, ls, t) && e < |s.pools|
    requires n in s.pools[e].deleted || n in s.pools[e].delDropped
    ensures |t.pools| == |s.pools| && n !in t.pools[e].cache && Sum(t.workers, Deleting(e, n)) == 0
  {
    ReachableInvariants(c, s);
    InvariantsHold(c, s, ls, t);
    FatesGrow(c, s, ls, t, e);
    assert Owned(t.workers, t.pools[e], e, n);
  }

  /**
   A DELETE whose limiter wait fails loses its name although the object still exists: the name
   stays among the created ones, is not deleted, and is never cached or deleted in any continuation.
   */
  lemma LimiterFailureLosesName(c: Config, s: State, i: nat, ls: seq<Label>, t: State)
    requires Reachable(c, s) && Enabled(c, s, Step(i, LimiterFail)) && s.workers[i].op.Delete?
    requires Runs(c, Apply(c, s, Step(i, LimiterFail)), ls, t)
    ensures var e, n := s.workers[i].entry, s.workers[i].op.name;
            && |t.pools| == |s.pools| && n in t.pools[e].created && n !in t.pools[e].deleted
            && n !in t.pools[e].cache && Sum(t.workers, Deleting(e, n)) == 0
  {
    var e, n := s.workers[i].entry, s.workers[i].op.name;
    var r := Apply(c, s, Step(i, LimiterFail));
    assert n in r.pools[e].delDropped;
    ReachableInvariants(c, s);
    assert Runs(c, s, [Step(i, LimiterFail)] + ls, t);
    InvariantsHold(c, s, [Step(i, LimiterFail)] + ls, t);
    FatesGrow(c, r, ls, t, e);
    assert Owned(t.workers, t.pools[e], e, n);
  }

  // ---------------------------------------------------------------- one client at work

  /** Client 0 works on entry e while all others are idle. */
  function Solo(c: Config, e: nat, w: Worker, p: Pool, sent: nat, latencies: nat): State
    requires c.clients > 0 && e < |c.entries|
  {
    State(Offering, false, seq(c.clients, _ => Idle)[0 := w], sent, latencies, 0, 0,
          seq(|c.entries|, _ => EMPTY_POOL)[e := p])
  }

  lemma SoloReceive(c: Config, e: nat, p: Pool, sent: nat, latencies: nat)
    requires c.clients > 0 && c.Pickable(e) && Reachable(c, Solo(c, e, Idle, p, sent, latencies))
    requires c.total <= 0 || sent < c.total
    ensures Reachable(c, Solo(c, e, Received(e), p, sent + 1, latencies))
  {
    var s := Solo(c, e, Idle, p, sent, latencies);
    ReachableStep(c, s, Step(0, Receive(e)));
    var t := Apply(c, s, Step(0, Receive(e)));
    assert t.workers == Solo(c, e, Received(e), p, sent + 1, latencies).workers;
  }

  lemma SoloApply(c: Config, e: nat, w: Worker, p: Pool, sent: nat, latencies: nat, a: Action)
    requires c.clients > 0 && e < |c.entries|
    requires Holds(w) && w.entry == e && CanAct(c, Solo(c, e, w, p, sent, latencies), w, a)
    requires a.Build? || a == Enter || a == LimiterPass || a.Do?
    ensures var s := Solo(c, e, w, p, sent, latencies);
            && Enabled(c, s, Step(0, a))
            && Apply(c, s, Step(0, a)) == Solo(c, e, NextWorker(c, p, w, a), NextPool(c, p, w, a), sent, latencies)
  {
    var t := Apply(c, Solo(c, e, w, p, sent, latencies), Step(0, a));
    var u := Solo(c, e, NextWorker(c, p, w, a), NextPool(c, p, w, a), sent, latencies);
    assert t.workers == u.workers && t.pools == u.pools;
  }

  lemma SoloWork(c: Config, e: nat, w: Worker, p: Pool, sent: nat, latencies: nat, a: Action)
    requires c.clients > 0 && e < |c.entries| && Reachable(c, Solo(c, e, w, p, sent, latencies))
    requires Holds(w) && w.entry == e && CanAct(c, Solo(c, e, w, p, sent, latencies), w, a)
    requires a.Build? || a == Enter || a == LimiterPass || a.Do?
    ensures Reachable(c, Solo(c, e, NextWorker(c, p, w, a), NextPool(c, p, w, a), sent, latencies))
  {
    SoloApply(c, e, w, p, sent, latencies, a);
    ReachableStep(c, Solo(c, e, w, p, sent, latencies), Step(0, a));
  }

  lemma SoloRecord(c: Config, e: nat, op: Op, o: Outcome, p: Pool, sent: nat, latencies: nat)
    requires c.clients > 0 && e < |c.entries| && o != Failed
    requires Reachable(c, Solo(c, e, Returned(e, op, o), p, sent, latencies))
    ensures Reachable(c, Solo(c, e, Idle, p, sent, latencies + 1))
  {
    var s := Solo(c, e, Returned(e, op, o), p, sent, latencies);
    ReachableStep(c, s, Step(0, Record));
    var t, u := Apply(c, s, Step(0, Record)), Solo(c, e, Idle, p, sent, latencies + 1);
    assert t.workers == u.workers && t.pools == u.pools;
  }

  lemma SoloStarts(c: Config, e: nat)
    requires c.clients > 0 && e < |c.entries|
    ensures Reachable(c, Solo(c, e, Idle, EMPTY_POOL, 0, 0))
  {
    var s, u := Init(c), Solo(c, e, Idle, EMPTY_POOL, 0, 0);
    assert Runs(c, s, [], s);
    assert s.workers == u.workers && s.pools == u.pools;
  }

  /** The first request of a POST/DELETE entry, up to Do. */
  lemma SoloPost(c: Config, e: nat)
    requires c.Valid() && c.Creates(e)
    ensures Reachable(c, Solo(c, e, Executing(e, Post(1)), EMPTY_POOL.(counter := 1), 1, 0))
  {
    var p := EMPTY_POOL.(counter := 1);
    SoloStarts(c, e);
    SoloReceive(c, e, EMPTY_POOL, 0, 0);
    SoloWork(c, e, Received(e), EMPTY_POOL, 1, 0, Build(0));
    SoloWork(c, e, Built(e, Post(1)), p, 1, 0, Enter);
    SoloWork(c, e, Waiting(e, Post(1)), p, 1, 0, LimiterPass);
  }

  // ---------------------------------------------------------------- names lost at the limiter

  /** A second request pops the name of the first one. */
  lemma SoloPop(c: Config, e: nat)
    requires c.Valid() && c.Deletes(e) && c.total != 1
    ensures Reachable(c, Solo(c, e, Built(e, Delete(1)), EMPTY_POOL.(counter := 1, created := multiset{1}), 2, 1))
  {
    var p := EMPTY_POOL.(counter := 1, cache := [1], created := multiset{1});
    SoloCreated(c, e);
    SoloReceive(c, e, p, 1, 1);
    SoloWork(c, e, Received(e), p, 2, 1, Build(0));
    assert BuildPool(p, Delete(1)) == p.(cache := []);
  }

  lemma SoloCreated(c: Config, e: nat)
    requires c.Valid() && c.Creates(e)
    ensures Reachable(c, Solo(c, e, Idle, EMPTY_POOL.(counter := 1, cache := [1], created := multiset{1}), 1, 1))
  {
    var p := EMPTY_POOL.(counter := 1, cache := [1], created := multiset{1});
    SoloPost(c, e);
    SoloWork(c, e, Executing(e, Post(1)), EMPTY_POOL.(counter := 1), 1, 0, Do(Ok));
    assert DoPool(EMPTY_POOL.(counter := 1), Post(1), Ok) == p;
    SoloRecord(c, e, Post(1), Ok, p, 1, 0);
  }

  /** A run that loses a name: POST, then DELETE of the same object, interrupted before the limiter. */
  lemma NameIsLost(c: Config, e: nat) returns (s: State)
    requires c.Valid() && c.Interruptible() && c.Deletes(e) && c.total != 1
    ensures Reachable(c, s) && e < |s.pools|
    ensures s.pools[e].created == s.pools[e].delDropped == multiset{1}
    ensures s.pools[e].deleted == multiset{} && s.pools[e].cache == []
  {
    SoloPop(c, e);
    s := Solo(c, e, Built(e, Delete(1)), EMPTY_POOL.(counter := 1, created := multiset{1}), 2, 1);
    ReachableStep(c, s, Expire);
    s := Apply(c, s, Expire);
    ReachableStep(c, s, Step(0, LimiterFail));
    s := Apply(c, s, Step(0, LimiterFail));
  }

  /** No context to cancel, no entry that deletes, or a single request. */
  ghost predicate Spares(c: Config) {
    !c.Interruptible() || (forall e :: !c.Deletes(e)) || c.total == 1
  }

  ghost predicate NothingLost(s: State) {
    forall e :: 0 <= e < |s.pools| ==> s.pools[e].delDropped == multiset{}
  }

  ghost predicate NoDeletes(s: State) {
    forall i :: 0 <= i < |s.workers| && InFlight(s.workers[i]) ==> !s.workers[i].op.Delete?
  }

  predicate Early(w: Worker) {
    w.Received? || InFlight(w)
  }

  /** Until its Do has returned, the only request of a run finds every cache empty. */
  ghost predicate CachesEmpty(s: State) {
    s.sent == 0 || (exists i :: 0 <= i < |s.workers| && Early(s.workers[i])) ==>
      forall e :: 0 <= e < |s.pools| ==> s.pools[e].cache == []
  }

  ghost predicate Spared(c: Config, s: State) {
    && NothingLost(s)
    && ((forall e :: !c.Deletes(e)) || c.total == 1 ==> NoDeletes(s))
    && (c.total == 1 ==> CachesEmpty(s))
  }

  lemma OnlyRequest(c: Config, s: State, i: nat, j: nat)
    requires Counts(c, s) && c.total == 1 && i < j < |s.workers|
    ensures !Holds(s.workers[i]) || !Holds(s.workers[j])
  {
    SumAtLeastTwo(s.workers, i, j, InProgress);
  }

  /** While it executes no other request is there, and when it returns it is no longer early. */
  lemma DoIsLast(c: Config, s: State, i: nat, o: Outcome)
    requires Counts(c, s) && c.total == 1 && Enabled(c, s, Step(i, Do(o)))
    ensures var t := Apply(c, s, Step(i, Do(o)));
            t.sent > 0 && forall j :: 0 <= j < |t.workers| ==> !Early(t.workers[j])
  {
    SumAtLeast(s.workers, i, InProgress);
    forall j | 0 <= j < |s.workers| && j != i ensures !Holds(s.workers[j]) {
      if j < i { OnlyRequest(c, s, j, i); } else { OnlyRequest(c, s, i, j); }
    }
  }

  lemma CachesStep(c: Config, s: State, l: Label)
    requires Counts(c, s) && c.total == 1 && CachesEmpty(s) && Enabled(c, s, l)
    ensures CachesEmpty(Apply(c, s, l))
  {
    var t := Apply(c, s, l);
    if l.Step? && l.act.Do? {
      DoIsLast(c, s, l.i, l.act.outcome);
    } else if l.Step? && l.act.Receive? {
      assert s.sent == 0;
    } else if i :| 0 <= i < |t.workers| && Early(t.workers[i]) {
      assert Early(s.workers[i]);
    }
  }

  lemma SparedStep(c: Config, s: State, l: Label)
    requires Spares(c) && Counts(c, s) && Control(c, s) && Spared(c, s) && Enabled(c, s, l)
    ensures Spared(c, Apply(c, s, l))
  {
    if c.total == 1 { CachesStep(c, s, l); }
    DeletesStep(c, s, l);
    LostStep(c, s, l);
  }

  lemma DeletesStep(c: Config, s: State, l: Label)
    requires Spared(c, s) && Enabled(c, s, l) && Control(c, s)
    ensures (forall e :: !c.Deletes(e)) || c.total == 1 ==> NoDeletes(Apply(c, s, l))
  {
    if l.Step? && l.act.Build? {
      var w := s.workers[l.i];
      assert Early(w);
      assert WantsDelete(KindOf(c, w.entry), l.act.draw) ==> c.Deletes(w.entry);
      var op := BuildOp(s.pools[w.entry], KindOf(c, w.entry), l.act.draw);
      assert (forall e :: !c.Deletes(e)) || c.total == 1 ==> !op.Delete?;
    }
  }

  lemma LostStep(c: Config, s: State, l: Label)
    requires Spares(c) && Control(c, s) && Spared(c, s) && Enabled(c, s, l)
    ensures NothingLost(Apply(c, s, l))
  {
  }

  lemma {:induction false} SparedRuns(c: Config, s: State, ls: seq<Label>, t: State)
    requires Spares(c) && Counts(c, s) && Control(c, s) && Spared(c, s) && Runs(c, s, ls, t)
    ensures Spared(c, t)
    decreases |ls|
  {
    if ls == [] {
    } else {
      CountsStep(c, s, ls[0]);
      ControlStep(c, s, ls[0]);
      SparedStep(c, s, ls[0]);
      SparedRuns(c, Apply(c, s, ls[0]), ls[1..], t);
    }
  }

  lemma SparedAlways(c: Config, s: State)
    requires Spares(c) && Reachable(c, s)
    ensures NothingLost(s)
  {
    var ls :| Runs(c, Init(c), ls, s);
    SumZero(Init(c).workers, InProgress);
    SumZero(Init(c).workers, Dropped);
    SparedRuns(c, Init(c), ls, s);
  }

  /** No run loses a name, exactly if there is nothing to cancel, nothing that deletes, or a single request. */
  lemma LosesNamesExactly(c: Config)
    requires c.Valid()
    ensures (forall s :: Reachable(c, s) ==> NothingLost(s)) <==> Spares(c)
  {
    if Spares(c) {
      forall s | Reachable(c, s) ensures NothingLost(s) {
        SparedAlways(c, s);
      }
    } else {
      var e :| c.Deletes(e);
      var s := NameIsLost(c, e);
      assert !NothingLost(s);
    }
  }

  // ---------------------------------------------------------------- NO_ERROR seen twice

  /** A success the metrics have recorded or are about to. */
  function Pending(w: Worker): nat {
    One(w.Returned? && w.outcome != Failed)
  }

  /** The successes the cache knows of. */
  function Settled(p: Pool): nat {
    |p.created| + |p.deleted|
  }

  predicate Returns(s: State, l: Label, o: Outcome) {
    l.Step? && l.act == Do(o) && l.i < |s.workers| && s.workers[l.i].Executing?
  }

  /** A POST or DELETE answered with NO_ERROR. */
  function Disputed(s: State, l: Label): nat {
    One(Returns(s, l, NoError) && s.workers[l.i].op != Plain)
  }

  /** A successful request of another kind, which no cache is concerned with. */
  function Unrelated(s: State, l: Label): nat {
    One((Returns(s, l, Ok) || Returns(s, l, NoError)) && s.workers[l.i].op == Plain)
  }

  /** How often it happens over a run. */
  function Tally(c: Config, s: State, ls: seq<Label>, f: (State, Label) -> nat): nat
    decreases |ls|
  {
    if ls == [] || !Enabled(c, s, ls[0]) then 0
    else f(s, ls[0]) + Tally(c, Apply(c, s, ls[0]), ls[1..], f)
  }

  lemma GapStep(c: Config, s: State, l: Label)
    requires Enabled(c, s, l)
    ensures var t := Apply(c, s, l);
            t.latencies + Sum(t.workers, Pending) + Sum(s.pools, Settled)
            == s.latencies + Sum(s.workers, Pending) + Sum(t.pools, Settled) + Disputed(s, l) + Unrelated(s, l)
  {
    if l.Step? {
      var w, t := s.workers[l.i], Apply(c, s, l);
      SumUpdate(s.workers, l.i, t.workers[l.i], Pending);
      if Holds(w) {
        SumUpdate(s.pools, w.entry, t.pools[w.entry], Settled);
        SettledStep(c, s.pools[w.entry], w, l.act);
      }
    }
  }

  lemma SettledStep(c: Config, p: Pool, w: Worker, a: Action)
    ensures Settled(NextPool(c, p, w, a)) == Settled(p) + One(w.Executing? && w.op != Plain && a == Do(Ok))
  {
  }

  lemma {:induction false} GapOver(c: Config, s: State, ls: seq<Label>, t: State)
    requires Runs(c, s, ls, t)
    ensures t.latencies + Sum(t.workers, Pending) + Sum(s.pools, Settled)
            == s.latencies + Sum(s.workers, Pending) + Sum(t.pools, Settled)
               + Tally(c, s, ls, Disputed) + Tally(c, s, ls, Unrelated)
    decreases |ls|
  {
    if ls == [] {
    } else {
      GapStep(c, s, ls[0]);
      GapOver(c, Apply(c, s, ls[0]), ls[1..], t);
    }
  }

  /** Over every run: the successes of the metrics are those of the caches, the unrelated and the disputed ones. */
  lemma SuccessGap(c: Config, ls: seq<Label>, s: State)
    requires Runs(c, Init(c), ls, s)
    ensures s.latencies + Sum(s.workers, Pending)
         == Sum(s.pools, Settled) + Tally(c, Init(c), ls, Unrelated) + Tally(c, Init(c), ls, Disputed)
  {
    SumZero(Init(c).workers, Pending);
    SumZero(Init(c).pools, Settled);
    GapOver(c, Init(c), ls, s);
  }

  /** Metrics and caches count the same successes of POST and DELETE requests. */
  ghost predicate Agree(c: Config, ls: seq<Label>, s: State) {
    s.latencies + Sum(s.workers, Pending) == Sum(s.pools, Settled) + Tally(c, Init(c), ls, Unrelated)
  }

  /** ... over a run, exactly if it has no POST or DELETE answered with NO_ERROR. */
  lemma AgreeExactly(c: Config, ls: seq<Label>, s: State)
    requires Runs(c, Init(c), ls, s)
    ensures Agree(c, ls, s) <==> Tally(c, Init(c), ls, Disputed) == 0
  {
    SuccessGap(c, ls, s);
  }

  lemma PlainStep(c: Config, s: State, l: Label)
    requires (forall e :: !c.Creates(e)) && Control(c, s) && Enabled(c, s, l)
    requires forall i :: 0 <= i < |s.workers| && InFlight(s.workers[i]) ==> s.workers[i].op == Plain
    ensures var t := Apply(c, s, l);
            forall i :: 0 <= i < |t.workers| && InFlight(t.workers[i]) ==> t.workers[i].op == Plain
  {
    if l.Step? && l.act.Build? {
      assert !c.Creates(s.workers[l.i].entry);
    }
  }

  lemma {:induction false} PlainOnly(c: Config, s: State, ls: seq<Label>, t: State)
    requires (forall e :: !c.Creates(e)) && Runs(c, s, ls, t) && Control(c, s)
    requires forall i :: 0 <= i < |s.workers| && InFlight(s.workers[i]) ==> s.workers[i].op == Plain
    ensures Tally(c, s, ls, Disputed) == 0
    decreases |ls|
  {
    if ls == [] {
    } else {
      ControlStep(c, s, ls[0]);
      PlainStep(c, s, ls[0]);
      PlainOnly(c, Apply(c, s, ls[0]), ls[1..], t);
    }
  }

  lemma {:induction false} TallyAppend(
    c: Config, s: State, ls: seq<Label>, t: State, l: Label, f: (State, Label) -> nat)
    requires Runs(c, s, ls, t) && Enabled(c, t, l)
    ensures Tally(c, s, ls + [l], f) == Tally(c, s, ls, f) + f(t, l)
    decreases |ls|
  {
    if ls == [] {
      assert ls + [l] == [l] && [l][1..] == [];
    } else {
      assert (ls + [l])[1..] == ls[1..] + [l];
      TallyAppend(c, Apply(c, s, ls[0]), ls[1..], t, l, f);
    }
  }

  /** A POST answered with NO_ERROR counts as a success in the metrics and as a failure for the cache. */
  lemma CacheAndMetricsDisagree(c: Config, e: nat) returns (ls: seq<Label>, s: State)
    requires c.Valid() && c.Creates(e)
    ensures Runs(c, Init(c), ls, s) && !Agree(c, ls, s)
    ensures e < |s.pools| && s.latencies == 1 && s.failures == 0 && s.pools[e].failed == multiset{1}
  {
    ls := DisputedPost(c, e);
    s := Solo(c, e, Returned(e, Post(1), NoError), EMPTY_POOL.(counter := 1, failed := multiset{1}), 1, 0);
    ls, s := Extend(c, ls, s, Step(0, Record));
    AgreeExactly(c, ls, s);
  }

  lemma DisputedPost(c: Config, e: nat) returns (ls: seq<Label>)
    requires c.Valid() && c.Creates(e)
    ensures Runs(c, Init(c), ls,
                 Solo(c, e, Returned(e, Post(1), NoError), EMPTY_POOL.(counter := 1, failed := multiset{1}), 1, 0))
    ensures Tally(c, Init(c), ls, Disputed) > 0
  {
    SoloPost(c, e);
    var s := Solo(c, e, Executing(e, Post(1)), EMPTY_POOL.(counter := 1), 1, 0);
    ls :| Runs(c, Init(c), ls, s);
    SoloApply(c, e, Executing(e, Post(1)), EMPTY_POOL.(counter := 1), 1, 0, Do(NoError));
    assert DoPool(EMPTY_POOL.(counter := 1), Post(1), NoError) == EMPTY_POOL.(counter := 1, failed := multiset{1});
    var t;
    ls, t := Extend(c, ls, s, Step(0, Do(NoError)));
  }

  lemma Extend(c: Config, ls: seq<Label>, s: State, l: Label) returns (ls': seq<Label>, t: State)
    requires Runs(c, Init(c), ls, s) && Enabled(c, s, l)
    ensures t == Apply(c, s, l) && Runs(c, Init(c), ls', t)
    ensures Tally(c, Init(c), ls', Disputed) == Tally(c, Init(c), ls, Disputed) + Disputed(s, l)
  {
    ls', t := ls + [l], Apply(c, s, l);
    RunsAppend(c, Init(c), ls, s, l);
    TallyAppend(c, Init(c), ls, s, l, Disputed);
  }

  /** Metrics and caches agree over every run, exactly if no POST/DELETE entry can be picked. */
  lemma AlwaysAgreeExactly(c: Config)
    requires c.Valid()
    ensures (forall ls, s :: Runs(c, Init(c), ls, s) ==> Agree(c, ls, s)) <==> forall e :: !c.Creates(e)
  {
    if e :| c.Creates(e) {
      var ls, s := CacheAndMetricsDisagree(c, e);
    } else {
      forall ls, s | Runs(c, Init(c), ls, s) ensures Agree(c, ls, s) {
        PlainOnly(c, Init(c), ls, s);
        AgreeExactly(c, ls, s);
      }
    }
  }

  // ---------------------------------------------------------------- how often entries delete

  /** With names in the cache, the draws that make Build delete are those below 1000 times the ratio. */
  lemma DeleteDraws(p: Pool, ratio: real, draw: nat)
    ensures BuildOp(p, PostDel(ratio), draw).Delete? <==> p.cache != [] && draw < Ceil(1000.0 * ratio)
    ensures !BuildOp(p, PostDel(ratio), draw).Delete? ==> BuildOp(p, PostDel(ratio), draw) == Post(p.counter + 1)
  {
    CeilMeans(1000.0 * ratio, draw);
    assert draw as real / 1000.0 < ratio <==> (draw as real / 1000.0) * 1000.0 < ratio * 1000.0;
  }

  /** So of the thousand draws, deleteRatio of them, rounded up, delete. */
  lemma DeleteShare(p: Pool, ratio: real)
    requires p.cache != [] && 0.0 <= ratio <= 1.0
    ensures |set d | 0 <= d < 1000 && BuildOp(p, PostDel(ratio), d).Delete?| == Ceil(1000.0 * ratio)
  {
    var n := Ceil(1000.0 * ratio);
    CeilMeans(1000.0 * ratio, 1000);
    assert 0 <= n <= 1000;
    forall d | 0 <= d < 1000 ensures BuildOp(p, PostDel(ratio), d).Delete? <==> d < n {
      DeleteDraws(p, ratio, d);
    }
    RandomChoice.IntervalSize(0, n);
    assert (set d | 0 <= d < 1000 && BuildOp(p, PostDel(ratio), d).Delete?) == RandomChoice.Interval(0, n);
  }

  /** The draws of a step reach neither a ratio of one from above nor a ratio of zero from below. */
  lemma RatioExtremes(c: Config, s: State, w: Worker, p: Pool, ratio: real, draw: nat)
    requires CanAct(c, s, w, Build(draw)) && p.cache != []
    ensures ratio >= 1.0 ==> BuildOp(p, PostDel(ratio), draw).Delete?
    ensures ratio <= 0.0 ==> BuildOp(p, PostDel(ratio), draw).Post?
  {
    DeleteDraws(p, ratio, draw);
    CeilMeans(1000.0 * ratio, draw);
  }

  function Shares(c: Config): seq<nat> {
    seq(|c.entries|, e requires 0 <= e < |c.entries| => c.entries[e].share)
  }

  /** An entry can be received exactly if some draw of randomPick selects it. */
  lemma PickableExactly(c: Config, e: nat)
    requires e < |c.entries|
    ensures c.Pickable(e) <==>
              exists draw :: 0 <= draw < RandomChoice.Total(Shares(c)) && RandomChoice.Selects(Shares(c), draw, e)
  {
    var shares := Shares(c);
    var lo := RandomChoice.Total(shares[..e]);
    RandomChoice.PrefixOrder(shares, e, |shares|);
    assert shares[..|shares|] == shares;
    if c.Pickable(e) {
      assert RandomChoice.Selects(shares, lo, e);
    }
  }

  // ---------------------------------------------------------------- the order of names

  /** The names that the step puts into the cache of entry e: created ones, and those whose DELETE failed. */
  function Enters(s: State, l: Label, e: nat): seq<nat> {
    if l.Step? && l.act.Do? && l.i < |s.workers| && s.workers[l.i].Executing? && s.workers[l.i].entry == e then
      match s.workers[l.i].op
      case Plain => []
      case Post(n) => if l.act.outcome == Ok then [n] else []
      case Delete(n) => if l.act.outcome == Ok then [] else [n]
    else []
  }

  /** The name for which the step builds a DELETE of entry e. */
  function Leaves(c: Config, s: State, l: Label, e: nat): seq<nat>
    requires Enabled(c, s, l)
  {
    if l.Step? && l.act.Build? && s.workers[l.i] == Received(e) then
      var w := Apply(c, s, l).workers[l.i];
      if w.Built? && w.op.Delete? then [w.op.name] else []
    else []
  }

  function Entered(c: Config, s: State, ls: seq<Label>, e: nat): seq<nat>
    decreases |ls|
  {
    if ls == [] || !Enabled(c, s, ls[0]) then []
    else Enters(s, ls[0], e) + Entered(c, Apply(c, s, ls[0]), ls[1..], e)
  }

  function LeftFor(c: Config, s: State, ls: seq<Label>, e: nat): seq<nat>
    decreases |ls|
  {
    if ls == [] || !Enabled(c, s, ls[0]) then []
    else Leaves(c, s, ls[0], e) + LeftFor(c, Apply(c, s, ls[0]), ls[1..], e)
  }

  lemma OrderStep(c: Config, s: State, l: Label, e: nat)
    requires Enabled(c, s, l) && e < |s.pools|
    ensures var t := Apply(c, s, l);
            e < |t.pools| && s.pools[e].cache + Enters(s, l, e) == Leaves(c, s, l, e) + t.pools[e].cache
  {
  }

  lemma {:induction false} OrderOver(c: Config, s: State, ls: seq<Label>, t: State, e: nat)
    requires Runs(c, s, ls, t) && e < |s.pools|
    ensures e < |t.pools| && s.pools[e].cache + Entered(c, s, ls, e) == LeftFor(c, s, ls, e) + t.pools[e].cache
    decreases |ls|
  {
    if ls == [] {
    } else {
      var m := Apply(c, s, ls[0]);
      OrderStep(c, s, ls[0], e);
      OrderOver(c, m, ls[1..], t, e);
      Regroup(s.pools[e].cache, Enters(s, ls[0], e), Entered(c, m, ls[1..], e), Leaves(c, s, ls[0], e),
              m.pools[e].cache, LeftFor(c, m, ls[1..], e), t.pools[e].cache);
    }
  }

  lemma Regroup(a: seq<nat>, b: seq<nat>, d: seq<nat>, e: seq<nat>, f: seq<nat>, g: seq<nat>, h: seq<nat>)
    requires a + b == e + f && f + d == g + h
    ensures a + (b + d) == (e + g) + h
  {
    assert a + (b + d) == (a + b) + d;
    assert (e + f) + d == e + (f + d);
    assert e + (g + h) == (e + g) + h;
  }

  /**
   First in, first out, over every run and every interleaving of the workers: DELETEs are built
   for names in the order in which they entered the cache, and the rest is cached in that order.
   */
  lemma DeletesInOrder(c: Config, ls: seq<Label>, s: State, e: nat)
    requires Runs(c, Init(c), ls, s) && e < |c.entries|
    ensures e < |s.pools| && Entered(c, Init(c), ls, e) == LeftFor(c, Init(c), ls, e) + s.pools[e].cache
  {
    OrderOver(c, Init(c), ls, s, e);
  }

  // ---------------------------------------------------------------- what is counted

  /** A worker with a request op of entry e does a, which is the action b. */
  function Did(w: Worker, e: nat, op: Op, a: Action, b: Action): nat {
    One(a == b && InFlight(w) && w.entry == e && w.op == op)
  }

  /** The step is action a of a worker with a request op of entry e. */
  function Acts(e: nat, op: Op, a: Action): (State, Label) -> nat {
    (s: State, l: Label) => if l.Step? && l.i < |s.workers| then Did(s.workers[l.i], e, op, l.act, a) else 0
  }

  /** The fates of name n of entry e, counted by what has happened to requests for it. */
  ghost predicate Fates(c: Config, s: State, ls: seq<Label>, p: Pool, q: Pool, e: nat, n: nat) {
    && q.created[n] == p.created[n] + Tally(c, s, ls, Acts(e, Post(n), Do(Ok)))
    && q.failed[n] == p.failed[n] + Tally(c, s, ls, Acts(e, Post(n), Do(NoError)))
                      + Tally(c, s, ls, Acts(e, Post(n), Do(Failed)))
    && q.postDropped[n] == p.postDropped[n] + Tally(c, s, ls, Acts(e, Post(n), LimiterFail))
    && q.delDropped[n] == p.delDropped[n] + Tally(c, s, ls, Acts(e, Delete(n), LimiterFail))
    && q.deleted[n] == p.deleted[n] + Tally(c, s, ls, Acts(e, Delete(n), Do(Ok)))
  }

  /** The fates of name n after the action a of a worker w. */
  ghost predicate FatesAfter(p: Pool, q: Pool, w: Worker, a: Action, e: nat, n: nat) {
    && q.created[n] == p.created[n] + Did(w, e, Post(n), a, Do(Ok))
    && q.failed[n] == p.failed[n] + Did(w, e, Post(n), a, Do(NoError)) + Did(w, e, Post(n), a, Do(Failed))
    && q.postDropped[n] == p.postDropped[n] + Did(w, e, Post(n), a, LimiterFail)
    && q.delDropped[n] == p.delDropped[n] + Did(w, e, Delete(n), a, LimiterFail)
    && q.deleted[n] == p.deleted[n] + Did(w, e, Delete(n), a, Do(Ok))
  }

  lemma FatesDrop(p: Pool, w: Worker, n: nat)
    requires w.Built? || w.Waiting?
    ensures FatesAfter(p, DropPool(p, w.op), w, LimiterFail, w.entry, n)
  {
  }

  lemma FatesDo(p: Pool, w: Worker, o: Outcome, n: nat)
    requires w.Executing?
    ensures FatesAfter(p, DoPool(p, w.op, o), w, Do(o), w.entry, n)
  {
  }

  lemma FatesAction(c: Config, s: State, p: Pool, w: Worker, a: Action, n: nat)
    requires CanAct(c, s, w, a) && Holds(w)
    ensures FatesAfter(p, NextPool(c, p, w, a), w, a, w.entry, n)
  {
    match a
    case LimiterFail => FatesDrop(p, w, n);
    case Do(o) => FatesDo(p, w, o, n);
    case _ =>
  }

  lemma FatesStep(c: Config, s: State, l: Label, e: nat, n: nat)
    requires Enabled(c, s, l) && e < |s.pools|
    ensures var t := Apply(c, s, l);
            && |t.pools| == |s.pools|
            && if l.Step? then FatesAfter(s.pools[e], t.pools[e], s.workers[l.i], l.act, e, n)
               else t.pools[e] == s.pools[e]
  {
    if l.Step? {
      var w := s.workers[l.i];
      if Holds(w) && w.entry == e {
        FatesAction(c, s, s.pools[e], w, l.act, n);
      } else {
        assert Apply(c, s, l).pools[e] == s.pools[e];
      }
    }
  }

  lemma {:induction false} FatesOver(c: Config, s: State, ls: seq<Label>, t: State, e: nat, n: nat)
    requires Runs(c, s, ls, t) && e < |s.pools|
    ensures e < |t.pools| && Fates(c, s, ls, s.pools[e], t.pools[e], e, n)
    decreases |ls|
  {
    if ls == [] {
    } else {
      FatesStep(c, s, ls[0], e, n);
      FatesOver(c, Apply(c, s, ls[0]), ls[1..], t, e, n);
    }
  }

  /** Over every run the fates of a name are what was answered to its requests, or that they were not sent. */
  lemma FatesAreAnswers(c: Config, ls: seq<Label>, s: State, e: nat, n: nat)
    requires Runs(c, Init(c), ls, s) && e < |c.entries|
    ensures e < |s.pools| && Fates(c, Init(c), ls, EMPTY_POOL, s.pools[e], e, n)
  {
    FatesOver(c, Init(c), ls, s, e, n);
  }

  function Receives(s: State, l: Label): nat {
    One(l.Step? && l.act.Receive?)
  }

  function Fails(s: State, l: Label): nat {
    One(l.Step? && l.act == LimiterFail)
  }

  function ReturnsWith(o: Outcome): (State, Label) -> nat {
    (s: State, l: Label) => One(Returns(s, l, o))
  }

  /** A failure the metrics are about to record. */
  function PendingFailure(w: Worker): nat {
    One(w.Returned? && w.outcome == Failed)
  }

  lemma CountersStep(c: Config, s: State, l: Label)
    requires Enabled(c, s, l)
    ensures var t := Apply(c, s, l);
            && t.sent == s.sent + Receives(s, l) && t.drops == s.drops + Fails(s, l)
            && t.latencies + Sum(t.workers, Pending)
               == s.latencies + Sum(s.workers, Pending) + ReturnsWith(Ok)(s, l) + ReturnsWith(NoError)(s, l)
            && t.failures + Sum(t.workers, PendingFailure)
               == s.failures + Sum(s.workers, PendingFailure) + ReturnsWith(Failed)(s, l)
  {
    if l.Step? {
      SumUpdate(s.workers, l.i, Apply(c, s, l).workers[l.i], Pending);
      SumUpdate(s.workers, l.i, Apply(c, s, l).workers[l.i], PendingFailure);
    }
  }

  lemma {:induction false} CountersOver(c: Config, s: State, ls: seq<Label>, t: State)
    requires Runs(c, s, ls, t)
    ensures t.sent == s.sent + Tally(c, s, ls, Receives) && t.drops == s.drops + Tally(c, s, ls, Fails)
    ensures t.latencies + Sum(t.workers, Pending)
         == s.latencies + Sum(s.workers, Pending)
            + Tally(c, s, ls, ReturnsWith(Ok)) + Tally(c, s, ls, ReturnsWith(NoError))
    ensures t.failures + Sum(t.workers, PendingFailure)
         == s.failures + Sum(s.workers, PendingFailure) + Tally(c, s, ls, ReturnsWith(Failed))
    decreases |ls|
  {
    if ls == [] {
    } else {
      CountersStep(c, s, ls[0]);
      CountersOver(c, Apply(c, s, ls[0]), ls[1..], t);
    }
  }

  /** Over every run: what the metrics say, recorded or about to be, is what the requests were answered. */
  lemma MetricsAreAnswers(c: Config, ls: seq<Label>, s: State)
    requires Runs(c, Init(c), ls, s)
    ensures s.sent == Tally(c, Init(c), ls, Receives) && s.drops == Tally(c, Init(c), ls, Fails)
    ensures s.latencies + Sum(s.workers, Pending)
         == Tally(c, Init(c), ls, ReturnsWith(Ok)) + Tally(c, Init(c), ls, ReturnsWith(NoError))
    ensures s.failures + Sum(s.workers, PendingFailure) == Tally(c, Init(c), ls, ReturnsWith(Failed))
  {
    SumZero(Init(c).workers, Pending);
    SumZero(Init(c).workers, PendingFailure);
    CountersOver(c, Init(c), ls, s);
  }

  // ---------------------------------------------------------------- after the context is dead

  /** The limiter let the request in while the context was live. */
  function Admitted(w: Worker): nat {
    One(w.Waiting? || w.Executing?)
  }

  function Does(s: State, l: Label): nat {
    One(l.Step? && l.act.Do?)
  }

  /** Once the context is dead, only requests that the limiter had let in before are executed. */
  lemma {:induction false} NothingAdmittedAfterDone(c: Config, s: State, ls: seq<Label>, t: State)
    requires s.done && Runs(c, s, ls, t)
    ensures Tally(c, s, ls, Does) + Sum(t.workers, Admitted) <= Sum(s.workers, Admitted)
    decreases |ls|
  {
    if ls == [] {
    } else {
      var m := Apply(c, s, ls[0]);
      if ls[0].Step? {
        SumUpdate(s.workers, ls[0].i, m.workers[ls[0].i], Admitted);
      }
      NothingAdmittedAfterDone(c, m, ls[1..], t);
    }
  }

  /** With a deadline the limiter can fail while the context is live: the token would come too late. */
  lemma DroppedWhileLive(c: Config, e: nat) returns (s: State)
    requires c.Valid() && c.deadline && c.Pickable(e)
    ensures Reachable(c, s) && !s.done && s.drops == s.sent == 1
    ensures |s.workers| == c.clients && s.workers[0] == Cancelling
  {
    var op := BuildOp(EMPTY_POOL, KindOf(c, e), 0);
    SoloStarts(c, e);
    SoloReceive(c, e, EMPTY_POOL, 0, 0);
    SoloWork(c, e, Received(e), EMPTY_POOL, 1, 0, Build(0));
    s := Solo(c, e, Built(e, op), BuildPool(EMPTY_POOL, op), 1, 0);
    ReachableStep(c, s, Step(0, LimiterFail));
    s := Apply(c, s, Step(0, LimiterFail));
  }

  /** Every answer is possible: a POST that is created, fails, or ends with NO_ERROR. */
  lemma AnyAnswer(c: Config, e: nat, o: Outcome) returns (s: State)
    requires c.Valid() && c.Creates(e)
    ensures Reachable(c, s) && e < |s.pools| && s.sent == 1
    ensures s.pools[e].created[1] == One(o == Ok) && s.pools[e].failed[1] == One(o != Ok)
    ensures s.workers == Init(c).workers && s.latencies == One(o != Failed) && s.failures == One(o == Failed)
  {
    SoloPost(c, e);
    var p := EMPTY_POOL.(counter := 1);
    SoloWork(c, e, Executing(e, Post(1)), p, 1, 0, Do(o));
    s := Solo(c, e, Returned(e, Post(1), o), DoPool(p, Post(1), o), 1, 0);
    ReachableStep(c, s, Step(0, Record));
    s := Apply(c, s, Step(0, Record));
    assert s.workers == Init(c).workers;
  }
}
