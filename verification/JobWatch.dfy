/**
 Waiting for a runner group's job: get it once, then watch it from the last seen resource
 version, retrying and resetting. What the apiserver and the network do is a list of events per
 watch; the apiserver is an append-only history of the job's versions.
 */
module JobWatch {
  import opened Options

  datatype Version = Version(rv: nat, failed: int, succeeded: int, completions: int)

  predicate JobFinished(v: Version) {
    v.failed + v.succeeded == v.completions
  }

  datatype Failure = Expired | Unavailable | Fatal

  datatype Event =
    | Modified(job: Version)
    | Added(job: Version)
    | Deleted(job: Version)
    | Bookmark(rv: nat)
    | WrongType
    | ErrorEvent(failure: Failure)
    | Closed
    | ContextDone

  /** How waitForJob ends; Open means the watch is still up and silent. */
  datatype Outcome = Finished | Retry | Failed(failure: Failure) | Cancelled | Open

  // ---------------------------------------------------------------- waitForJob

  /** The meaning of a watch's events, from the last seen version on. */
  function Scan(events: seq<Event>, rv: Option<nat>): (Outcome, Option<nat>) {
    if events == [] then (Open, rv)
    else
      match events[0]
      case Modified(job) => if JobFinished(job) then (Finished, rv) else Scan(events[1..], Some(job.rv))
      case Added(job) => Scan(events[1..], Some(job.rv))
      case Deleted(job) => Scan(events[1..], Some(job.rv))
      case Bookmark(b) => Scan(events[1..], Some(b))
      case WrongType => Scan(events[1..], rv)
      case ErrorEvent(f) => (Failed(f), rv)
      case Closed => (Retry, rv)
      case ContextDone => (Cancelled, rv)
  }

  method WaitForJob(events: seq<Event>, rv0: Option<nat>) returns (outcome: Outcome, rv: Option<nat>)
    ensures (outcome, rv) == Scan(events, rv0)
  {
    rv := rv0;
    for i := 0 to |events|
      invariant Scan(events, rv0) == Scan(events[i..], rv)
    {
      assert events[i..][1..] == events[i + 1..];
      match events[i] {
        case Closed => return Retry, rv;
        case ContextDone => return Cancelled, rv;
        case ErrorEvent(f) => return Failed(f), rv;
        case WrongType => continue;
        case Modified(job) =>
          if JobFinished(job) {
            return Finished, rv;
          }
          rv := Some(job.rv);
        case Added(job) => rv := Some(job.rv);
        case Deleted(job) => rv := Some(job.rv);
        case Bookmark(b) => rv := Some(b);
      }
    }
    outcome := Open;
  }

  // ---------------------------------------------------------------- Wait

  /** One turn of the outer loop: the context is done, the watch cannot start, or it delivers events. */
  datatype Attempt = Stop | InitError(failure: Failure) | Watch(events: seq<Event>)

  /** What Wait returns; Pending means it is still waiting. */
  datatype Result = Nil | Err | Pending

  /** The version from which the attempt after a starts. */
  function NextRv(a: Attempt, rv: Option<nat>): Option<nat> {
    if !a.Watch? then rv
    else
      var (outcome, rv') := Scan(a.events, rv);
      if outcome == Failed(Expired) then None else rv'   // lastRv = ""
  }

  function WaitFrom(attempts: seq<Attempt>, rv: Option<nat>): Result {
    if attempts == [] then Pending
    else
      match attempts[0]
      case Stop => Err
      case InitError(f) => if f == Unavailable then WaitFrom(attempts[1..], rv) else Err
      case Watch(events) =>
        var (outcome, rv') := Scan(events, rv);
        match outcome
        case Finished => Nil
        case Open => Pending
        case Cancelled => Err
        case Retry => WaitFrom(attempts[1..], rv')
        case Failed(f) => if f == Fatal then Err else WaitFrom(attempts[1..], NextRv(attempts[0], rv))
  }

  /** The resource versions that the watches of the attempts are started at, as far as Wait gets. */
  function Asked(attempts: seq<Attempt>, rv: Option<nat>): seq<Option<nat>> {
    if attempts == [] || attempts[0].Stop? then []
    else
      match attempts[0]
      case InitError(f) => [rv] + if f == Unavailable then Asked(attempts[1..], rv) else []
      case Watch(events) =>
        var outcome := Scan(events, rv).0;
        [rv] + if outcome == Retry || outcome == Failed(Unavailable) || outcome == Failed(Expired)
               then Asked(attempts[1..], NextRv(attempts[0], rv)) else []
  }

  method Wait(job: Option<Version>, attempts: seq<Attempt>) returns (r: Result, asked: seq<Option<nat>>)
    ensures job.None? ==> r == Err && asked == []
    ensures job.Some? && JobFinished(job.value) ==> r == Nil && asked == []
    ensures job.Some? && !JobFinished(job.value) ==>
              r == WaitFrom(attempts, Some(job.value.rv)) && asked == Asked(attempts, Some(job.value.rv))
  {
    asked := [];
    if job.None? {
      return Err, [];
    }
    if JobFinished(job.value) {
      return Nil, [];
    }
    var lastRv := Some(job.value.rv);
    for i := 0 to |attempts|
      invariant WaitFrom(attempts, Some(job.value.rv)) == WaitFrom(attempts[i..], lastRv)
      invariant Asked(attempts, Some(job.value.rv)) == asked + Asked(attempts[i..], lastRv)
    {
      assert attempts[i..][1..] == attempts[i + 1..];
      if attempts[i].Stop? {
        return Err, asked;
      }
      ghost var rest := Asked(attempts[i + 1..], NextRv(attempts[i], lastRv));
      assert (asked + [lastRv]) + rest == asked + ([lastRv] + rest);
      asked := asked + [lastRv];
      if attempts[i].InitError? {
        if attempts[i].failure == Unavailable {
          continue;
        }
        return Err, asked;
      }
      var outcome, rv := WaitForJob(attempts[i].events, lastRv);
      lastRv := rv;
      match outcome {
        case Finished => return Nil, asked;
        case Open => return Pending, asked;
        case Cancelled => return Err, asked;
        case Retry => continue;
        case Failed(f) =>
          if f == Expired {
            lastRv := None;
          } else if f == Fatal {
            return Err, asked;
          }
      }
    }
    r := Pending;
  }

  // ---------------------------------------------------------------- how watches end

  /** The events that end a watch. */
  predicate Ending(e: Event) {
    e.Closed? || e.ContextDone? || e.ErrorEvent? || (e.Modified? && JobFinished(e.job))
  }

  /** Event k is the one that ends the watch. */
  ghost predicate EndsAt(events: seq<Event>, k: int) {
    0 <= k < |events| && Ending(events[k]) && forall j :: 0 <= j < k ==> !Ending(events[j])
  }

  /** The version of the last event that has one. */
  function Seen(events: seq<Event>, rv: Option<nat>): Option<nat> {
    if events == [] then rv
    else
      match events[|events| - 1]
      case Modified(job) => Some(job.rv)
      case Added(job) => Some(job.rv)
      case Deleted(job) => Some(job.rv)
      case Bookmark(b) => Some(b)
      case _ => Seen(events[..|events| - 1], rv)
  }

  lemma {:induction false} SeenTail(events: seq<Event>, rv: Option<nat>)
    requires events != []
    ensures Seen(events, rv) == Seen(events[1..], Seen(events[..1], rv))
  {
    var n := |events|;
    if n == 1 {
      assert events[..1] == events;
    } else {
      assert events[1..][n - 2] == events[n - 1];
      assert events[1..][..n - 2] == events[..n - 1][1..] && events[..n - 1][..1] == events[..1];
      SeenTail(events[..n - 1], rv);
    }
  }

  ghost predicate StaysOpen(events: seq<Event>) {
    forall j :: 0 <= j < |events| ==> !Ending(events[j])
  }

  /** A watch stays open exactly if no event ends it, and then the last version with an event is the last seen. */
  lemma {:induction false} ScanOpen(events: seq<Event>, rv: Option<nat>)
    ensures Scan(events, rv).0 == Open <==> StaysOpen(events)
    ensures StaysOpen(events) ==> Scan(events, rv).1 == Seen(events, rv)
  {
    if events == [] {
    } else if Ending(events[0]) {
    } else {
      var rv' := Seen(events[..1], rv);
      assert events[..1][0] == events[0] && events[..1][..0] == [];
      ScanOpen(events[1..], rv');
      SeenTail(events, rv);
      assert forall j :: 1 <= j < |events| ==> events[j] == events[1..][j - 1];
      assert Scan(events, rv) == Scan(events[1..], rv');
    }
  }

  /** Otherwise the first event that ends it decides, and the events before it say what was seen. */
  lemma {:induction false} ScanEnds(events: seq<Event>, rv: Option<nat>, k: nat)
    requires EndsAt(events, k)
    ensures Scan(events, rv).1 == Seen(events[..k], rv)
    ensures var o := Scan(events, rv).0;
            match events[k]
            case Modified(_) => o == Finished
            case Closed => o == Retry
            case ErrorEvent(f) => o == Failed(f)
            case ContextDone => o == Cancelled
            case _ => false
    decreases |events|
  {
    if k == 0 {
    } else {
      var rv' := Seen(events[..1], rv);
      assert events[..1][0] == events[0] && events[..1][..0] == [];
      assert EndsAt(events[1..], k - 1);
      ScanEnds(events[1..], rv', k - 1);
      SeenTail(events[..k], rv);
      assert events[..k][1..] == events[1..][..k - 1] && events[..k][..1] == events[..1];
    }
  }

  /** A watch never forgets a version. */
  lemma {:induction false} ScanKeepsSome(events: seq<Event>, rv: Option<nat>)
    requires rv.Some?
    ensures Scan(events, rv).1.Some?
  {
    if events == [] {
    } else {
      match events[0]
      case Modified(job) => ScanKeepsSome(events[1..], Some(job.rv));
      case Added(job) => ScanKeepsSome(events[1..], Some(job.rv));
      case Deleted(job) => ScanKeepsSome(events[1..], Some(job.rv));
      case Bookmark(b) => ScanKeepsSome(events[1..], Some(b));
      case WrongType => ScanKeepsSome(events[1..], rv);
      case _ =>
    }
  }

  /** What an open watch delivers later counts from where it stands. */
  lemma {:induction false} ScanGoesOn(events: seq<Event>, more: seq<Event>, rv: Option<nat>)
    requires StaysOpen(events)
    ensures Scan(events + more, rv) == Scan(more, Scan(events, rv).1)
  {
    if events == [] {
      assert events + more == more;
    } else {
      assert (events + more)[1..] == events[1..] + more && (events + more)[0] == events[0];
      assert forall j :: 1 <= j < |events| ==> events[j] == events[1..][j - 1];
      assert !Ending(events[0]);
      var rv' := if events[0].WrongType? then rv else if events[0].Bookmark? then Some(events[0].rv)
                 else Some(events[0].job.rv);
      ScanGoesOn(events[1..], more, rv');
    }
  }

  // ---------------------------------------------------------------- what Wait returns

  ghost predicate EndsIn(a: Attempt, e: Event) {
    a.Watch? && exists k :: EndsAt(a.events, k) && a.events[k] == e
  }

  /** An attempt after which Wait tries again: the apiserver is unavailable, or the watch closed or expired. */
  ghost predicate Transient(a: Attempt) {
    || a == InitError(Unavailable)
    || EndsIn(a, Closed) || EndsIn(a, ErrorEvent(Expired)) || EndsIn(a, ErrorEvent(Unavailable))
  }

  /** An attempt that makes it give up. */
  ghost predicate Hopeless(a: Attempt) {
    || a == Stop || a == InitError(Expired) || a == InitError(Fatal)
    || EndsIn(a, ContextDone) || EndsIn(a, ErrorEvent(Fatal))
  }

  /** An attempt that sees the job finish. */
  ghost predicate Completes(a: Attempt) {
    a.Watch? && exists k :: EndsAt(a.events, k) && a.events[k].Modified?
  }

  ghost predicate AllTransient(attempts: seq<Attempt>) {
    forall i :: 0 <= i < |attempts| ==> Transient(attempts[i])
  }

  lemma {:induction false} FirstEnd(events: seq<Event>, lo: nat) returns (k: nat)
    requires lo <= |events| && (forall j :: 0 <= j < lo ==> !Ending(events[j])) && !StaysOpen(events)
    ensures EndsAt(events, k)
    decreases |events| - lo
  {
    if Ending(events[lo]) {
      k := lo;
    } else {
      k := FirstEnd(events, lo + 1);
    }
  }

  /** The four kinds of attempts, by how their watch ends. */
  lemma AttemptKinds(a: Attempt, rv: Option<nat>)
    ensures a.Watch? ==>
              var o := Scan(a.events, rv).0;
              && (Transient(a) <==> o == Retry || o == Failed(Expired) || o == Failed(Unavailable))
              && (Hopeless(a) <==> o == Cancelled || o == Failed(Fatal))
              && (Completes(a) <==> o == Finished)
              && (StaysOpen(a.events) <==> o == Open)
  {
    if a.Watch? {
      ScanOpen(a.events, rv);
      if StaysOpen(a.events) {
      } else {
        var k := FirstEnd(a.events, 0);
        ScanEnds(a.events, rv, k);
        forall j | EndsAt(a.events, j) ensures j == k {
          assert !(j < k) && !(k < j);
        }
        assert EndsIn(a, a.events[k]);
      }
    }
  }

  /** The first attempt that is not transient. */
  ghost predicate Decides(attempts: seq<Attempt>, n: int) {
    0 <= n < |attempts| && AllTransient(attempts[..n]) && !Transient(attempts[n])
  }

  /**
   What Wait returns, whatever version it starts from: it is the first attempt that is not
   transient that decides. Wait fails iff that one is hopeless, and returns nil iff it completes.
   */
  lemma {:induction false} WaitExactly(attempts: seq<Attempt>, rv: Option<nat>)
    ensures WaitFrom(attempts, rv) == Err <==> exists n :: Decides(attempts, n) && Hopeless(attempts[n])
    ensures WaitFrom(attempts, rv) == Nil <==> exists n :: Decides(attempts, n) && Completes(attempts[n])
    decreases |attempts|
  {
    if attempts == [] {
    } else {
      var a := attempts[0];
      AttemptKinds(a, rv);
      if Transient(a) {
        WaitExactly(attempts[1..], NextRv(a, rv));
        forall n ensures Decides(attempts, n) <==> Decides(attempts[1..], n - 1) {
          DecidesLater(attempts, n);
        }
        if n :| Decides(attempts[1..], n) {
          assert Decides(attempts, n + 1) && attempts[n + 1] == attempts[1..][n];
        }
        assert forall n :: Decides(attempts, n) ==> attempts[n] == attempts[1..][n - 1];
      } else {
        forall n ensures Decides(attempts, n) <==> n == 0 {
          DecidesFirst(attempts, n);
        }
      }
    }
  }

  lemma DecidesLater(attempts: seq<Attempt>, n: int)
    requires attempts != [] && Transient(attempts[0])
    ensures Decides(attempts, n) <==> Decides(attempts[1..], n - 1)
  {
    if 1 <= n < |attempts| {
      TransientTail(attempts, n);
    }
  }

  lemma DecidesFirst(attempts: seq<Attempt>, n: int)
    requires attempts != [] && !Transient(attempts[0])
    ensures Decides(attempts, n) <==> n == 0
  {
    if 0 < n < |attempts| {
      assert attempts[..n][0] == attempts[0];
    }
  }

  lemma TransientTail(attempts: seq<Attempt>, n: nat)
    requires 0 < n <= |attempts|
    ensures AllTransient(attempts[..n]) <==> Transient(attempts[0]) && AllTransient(attempts[1..][..n - 1])
  {
    var rest := attempts[1..][..n - 1];
    assert attempts[..n] == [attempts[0]] + rest;
    forall i | 0 < i < n ensures attempts[..n][i] == rest[i - 1] {
    }
    if AllTransient(attempts[..n]) {
      forall i | 0 <= i < |rest| ensures Transient(rest[i]) {
        assert rest[i] == attempts[..n][i + 1];
      }
      assert attempts[..n][0] == attempts[0];
    }
  }

  // ---------------------------------------------------------------- what Wait asks for

  /** The version to go on from: none after an expiry, otherwise the last one seen. */
  ghost predicate Resumes(a: Attempt, rv: Option<nat>, rv': Option<nat>) {
    match a
    case Stop => false
    case InitError(_) => rv' == rv
    case Watch(events) =>
      exists k :: EndsAt(events, k) && rv' == if events[k] == ErrorEvent(Expired) then None else Seen(events[..k], rv)
  }

  lemma ResumesAfter(a: Attempt, rv: Option<nat>)
    requires Transient(a)
    ensures Resumes(a, rv, NextRv(a, rv))
  {
    if a.Watch? {
      AttemptKinds(a, rv);
      var k := FirstEnd(a.events, 0);
      ScanEnds(a.events, rv, k);
    }
  }

  lemma AskedUnfold(attempts: seq<Attempt>, rv: Option<nat>)
    requires attempts != []
    ensures Asked(attempts, rv)
         == if attempts[0] == Stop then []
            else [rv] + if Transient(attempts[0]) then Asked(attempts[1..], NextRv(attempts[0], rv)) else []
  {
    AttemptKinds(attempts[0], rv);
  }

  /** An attempt is started iff all before it were transient; each one resumes where the one before it left off. */
  lemma {:induction false} AskedExactly(attempts: seq<Attempt>, rv: Option<nat>)
    ensures var asked := Asked(attempts, rv);
            && |asked| <= |attempts|
            && (forall i :: 0 <= i < |attempts| ==>
                  (i < |asked| <==> AllTransient(attempts[..i]) && attempts[i] != Stop))
            && (asked != [] ==> asked[0] == rv)
            && (forall i :: 0 < i < |asked| ==> Resumes(attempts[i - 1], asked[i - 1], asked[i]))
    decreases |attempts|
  {
    if attempts == [] {
    } else {
      var a, rest, asked := attempts[0], attempts[1..], Asked(attempts, rv);
      AskedUnfold(attempts, rv);
      if Transient(a) {
        AskedExactly(rest, NextRv(a, rv));
        ResumesAfter(a, rv);
        forall i | 0 < i < |asked| ensures Resumes(attempts[i - 1], asked[i - 1], asked[i]) {
          assert asked[i] == Asked(rest, NextRv(a, rv))[i - 1] && (i > 1 ==> attempts[i - 1] == rest[i - 2]);
        }
      }
      forall i | 0 <= i < |attempts| ensures i < |asked| <==> AllTransient(attempts[..i]) && attempts[i] != Stop {
        if i > 0 {
          TransientTail(attempts, i);
          assert attempts[i] == rest[i - 1];
        }
      }
    }
  }

  // ---------------------------------------------------------------- the apiserver

  type History = seq<Version>

  /** Resource versions increase. */
  ghost predicate Ordered(h: History) {
    h != [] && forall i, j :: 0 <= i < j < |h| ==> h[i].rv < h[j].rv
  }

  /** ... and a finished job stays finished. */
  ghost predicate WellFormed(h: History) {
    && Ordered(h)
    && (forall i, j :: 0 <= i < j < |h| && JobFinished(h[i]) ==> JobFinished(h[j]))
  }

  /** Version k is the first one after resource version rv. */
  ghost predicate FirstAfter(h: History, rv: nat, k: int) {
    0 <= k < |h| && rv < h[k].rv && forall j :: 0 <= j < k ==> h[j].rv <= rv
  }

  ghost predicate NothingIn(h: History, lo: nat, hi: nat) {
    forall j :: 0 <= j < |h| ==> h[j].rv <= lo || hi < h[j].rv
  }

  /**
   The events a watch may deliver. From a resource version: the later versions in order as
   Modified, with bookmarks in between; a deletion only when nothing is left. Without one: first
   the version current at that time, index `now` or later, replayed as Added.
   */
  ghost predicate Serves(h: History, rv: Option<nat>, events: seq<Event>, now: nat)
    decreases |events|
  {
    if events == [] then true
    else
      match events[0]
      case Modified(job) =>
        rv.Some? && (exists k :: FirstAfter(h, rv.value, k) && h[k] == job) && Serves(h, Some(job.rv), events[1..], now)
      case Added(job) =>
        rv.None? && (exists k :: now <= k < |h| && h[k] == job) && Serves(h, Some(job.rv), events[1..], now)
      case Deleted(job) =>
        rv.Some? && rv.value <= job.rv && NothingIn(h, rv.value, job.rv) && Serves(h, Some(job.rv), events[1..], now)
      case Bookmark(b) =>
        rv.Some? && rv.value <= b && NothingIn(h, rv.value, b) && Serves(h, Some(b), events[1..], now)
      case WrongType => Serves(h, rv, events[1..], now)
      case _ => true
  }

  /** Every watch that Wait starts is served from the version it asked for. */
  ghost predicate Honest(h: History, rv: Option<nat>, attempts: seq<Attempt>, now: nat)
    decreases |attempts|
  {
    if attempts == [] then true
    else
      && (attempts[0].Watch? ==> Serves(h, rv, attempts[0].events, now))
      && (Transient(attempts[0]) ==> Honest(h, NextRv(attempts[0], rv), attempts[1..], now))
  }

  lemma {:induction false} HonestMeans(h: History, rv: Option<nat>, attempts: seq<Attempt>, now: nat)
    ensures var asked := Asked(attempts, rv);
            && |asked| <= |attempts|
            && (Honest(h, rv, attempts, now) <==>
                forall i :: 0 <= i < |asked| && attempts[i].Watch? ==> Serves(h, asked[i], attempts[i].events, now))
    decreases |attempts|
  {
    if attempts == [] {
    } else {
      var a, rest, asked := attempts[0], attempts[1..], Asked(attempts, rv);
      AskedUnfold(attempts, rv);
      if Transient(a) {
        HonestMeans(h, NextRv(a, rv), rest, now);
        var later := Asked(rest, NextRv(a, rv));
        assert forall i :: 0 < i < |asked| ==> asked[i] == later[i - 1] && attempts[i] == rest[i - 1];
        assert forall i :: 0 <= i < |later| ==> later[i] == asked[i + 1] && rest[i] == attempts[i + 1];
      }
    }
  }

  // ---------------------------------------------------------------- one watch

  /**
   A watch from version rv either reports a finished version after rv, or moves lastRv forward
   past unfinished versions only.
   */
  lemma {:induction false} ScanRange(h: History, rv: nat, events: seq<Event>, now: nat)
    requires Ordered(h) && Serves(h, Some(rv), events, now)
    ensures var (outcome, rv') := Scan(events, Some(rv));
            && (outcome == Finished ==> exists k :: 0 <= k < |h| && rv < h[k].rv && JobFinished(h[k]))
            && (outcome != Finished ==>
                  && rv'.Some? && rv <= rv'.value
                  && forall k :: 0 <= k < |h| && rv < h[k].rv <= rv'.value ==> !JobFinished(h[k]))
    decreases |events|
  {
    if events == [] {
    } else {
      match events[0]
      case Modified(job) =>
        var k :| FirstAfter(h, rv, k) && h[k] == job;
        if !JobFinished(job) {
          ScanRange(h, job.rv, events[1..], now);
        }
      case Deleted(job) => ScanRange(h, job.rv, events[1..], now);
      case Bookmark(b) => ScanRange(h, b, events[1..], now);
      case WrongType => ScanRange(h, rv, events[1..], now);
      case _ =>
    }
  }

  /** A watch without a version replays version i as Added, whose status is not looked at. */
  lemma {:induction false} ScanReplay(h: History, events: seq<Event>, now: nat)
    requires Ordered(h) && Serves(h, None, events, now)
    ensures var (outcome, rv') := Scan(events, None);
            && (outcome == Finished ==> exists k :: now < k < |h| && JobFinished(h[k]))
            && (outcome != Finished && rv'.Some? ==> exists i :: now <= i < |h| && h[i].rv <= rv'.value)
    decreases |events|
  {
    if events == [] {
    } else {
      match events[0]
      case Added(job) =>
        var i :| now <= i < |h| && h[i] == job;
        ScanRange(h, job.rv, events[1..], now);
        if Scan(events, None).0 == Finished {
          var k :| 0 <= k < |h| && job.rv < h[k].rv && JobFinished(h[k]);
          assert i < k;
        }
      case WrongType => ScanReplay(h, events[1..], now);
      case _ =>
    }
  }

  // ---------------------------------------------------------------- Wait is sound

  lemma WaitUnfold(attempts: seq<Attempt>, rv: Option<nat>)
    requires attempts != []
    ensures WaitFrom(attempts, rv)
         == if Transient(attempts[0]) then WaitFrom(attempts[1..], NextRv(attempts[0], rv))
            else if Hopeless(attempts[0]) then Err
            else if Completes(attempts[0]) then Nil
            else Pending
  {
    AttemptKinds(attempts[0], rv);
  }

  /** Wait returns nil only if some version of the job is finished. */
  lemma {:induction false} WaitSound(h: History, rv: Option<nat>, attempts: seq<Attempt>, now: nat)
    requires Ordered(h) && Honest(h, rv, attempts, now) && WaitFrom(attempts, rv) == Nil
    ensures exists k :: 0 <= k < |h| && JobFinished(h[k])
    decreases |attempts|
  {
    WaitUnfold(attempts, rv);
    if Transient(attempts[0]) {
      WaitSound(h, NextRv(attempts[0], rv), attempts[1..], now);
    } else {
      AttemptKinds(attempts[0], rv);
      if rv.Some? { ScanRange(h, rv.value, attempts[0].events, now); } else { ScanReplay(h, attempts[0].events, now); }
    }
  }

  // ---------------------------------------------------------------- without a reset nothing is lost

  /** No version up to rv is finished, so a finishing one is still ahead. */
  ghost predicate Ahead(h: History, rv: nat) {
    forall k :: 0 <= k < |h| && h[k].rv <= rv ==> !JobFinished(h[k])
  }

  /** The version from which the next watch would start, or from which the open one goes on. */
  ghost function LastRv(attempts: seq<Attempt>, rv: Option<nat>): Option<nat> {
    if attempts == [] then rv
    else if Transient(attempts[0]) then LastRv(attempts[1..], NextRv(attempts[0], rv))
    else NextRv(attempts[0], rv)
  }

  /** No watch has expired. */
  ghost predicate NoReset(attempts: seq<Attempt>) {
    attempts == []
    || (!EndsIn(attempts[0], ErrorEvent(Expired)) && (Transient(attempts[0]) ==> NoReset(attempts[1..])))
  }

  /** The job seen by Get was not finished, so neither was any version before it. */
  lemma StartsAhead(h: History, i: nat)
    requires WellFormed(h) && i < |h| && !JobFinished(h[i])
    ensures Ahead(h, h[i].rv)
  {
  }

  /** One watch that neither expires nor completes leaves nothing finished behind. */
  lemma StaysAhead(h: History, rv: nat, a: Attempt, now: nat)
    requires Ordered(h) && Ahead(h, rv) && (a.Watch? ==> Serves(h, Some(rv), a.events, now))
    requires !EndsIn(a, ErrorEvent(Expired)) && !Completes(a)
    ensures NextRv(a, Some(rv)).Some? && Ahead(h, NextRv(a, Some(rv)).value)
  {
    AttemptKinds(a, Some(rv));
    if a.Watch? {
      ScanRange(h, rv, a.events, now);
      if !StaysOpen(a.events) {
        var k := FirstEnd(a.events, 0);
        ScanEnds(a.events, Some(rv), k);
      }
    }
  }

  /** Over every run that has not returned and saw no expiry, nothing finished is at or before lastRv. */
  lemma {:induction false} NoCompletionLost(h: History, rv: nat, attempts: seq<Attempt>, now: nat)
    requires Ordered(h) && Ahead(h, rv) && Honest(h, Some(rv), attempts, now)
    requires NoReset(attempts) && WaitFrom(attempts, Some(rv)) == Pending
    ensures LastRv(attempts, Some(rv)).Some? && Ahead(h, LastRv(attempts, Some(rv)).value)
    decreases |attempts|
  {
    if attempts == [] {
    } else {
      WaitUnfold(attempts, Some(rv));
      AttemptKinds(attempts[0], Some(rv));
      StaysAhead(h, rv, attempts[0], now);
      if Transient(attempts[0]) {
        NoCompletionLost(h, NextRv(attempts[0], Some(rv)).value, attempts[1..], now);
      }
    }
  }

  /** After transient attempts, the next one decides. */
  lemma {:induction false} WaitAppend(attempts: seq<Attempt>, rv: Option<nat>, a: Attempt)
    requires AllTransient(attempts)
    ensures WaitFrom(attempts, rv) == Pending
    ensures WaitFrom(attempts + [a], rv) == WaitFrom([a], LastRv(attempts, rv))
    decreases |attempts|
  {
    if attempts == [] {
      assert attempts + [a] == [a];
    } else {
      assert (attempts + [a])[0] == attempts[0] && (attempts + [a])[1..] == attempts[1..] + [a];
      WaitUnfold(attempts, rv);
      WaitUnfold(attempts + [a], rv);
      WaitAppend(attempts[1..], NextRv(attempts[0], rv), a);
    }
  }

  /** The watch has delivered everything there is. */
  ghost predicate Drained(h: History, events: seq<Event>, rv: Option<nat>)
    requires h != []
  {
    var (outcome, rv') := Scan(events, rv);
    outcome == Finished || (outcome == Open && rv'.Some? && h[|h| - 1].rv <= rv'.value)
  }

  ghost predicate Drains(h: History, events: seq<Event>, rv: Option<nat>, now: nat)
    requires h != []
  {
    Serves(h, rv, events, now) && Drained(h, events, rv)
  }

  /** A watch that delivers the rest of the history finds the completion exactly if it is after rv. */
  lemma DrainExact(h: History, rv: nat, events: seq<Event>, now: nat)
    requires Ordered(h) && Drains(h, events, Some(rv), now)
    ensures Scan(events, Some(rv)).0 == Finished <==> exists k :: 0 <= k < |h| && rv < h[k].rv && JobFinished(h[k])
  {
    ScanRange(h, rv, events, now);
    if Scan(events, Some(rv)).0 != Finished {
      forall k | 0 <= k < |h| && rv < h[k].rv ensures !JobFinished(h[k]) {
        assert h[k].rv <= h[|h| - 1].rv;
      }
    }
  }

  /** So, without a reset, a re-established watch that drains the history of a finished job ends the wait. */
  lemma DrainReturns(h: History, rv: nat, attempts: seq<Attempt>, events: seq<Event>, now: nat)
    requires WellFormed(h) && JobFinished(h[|h| - 1]) && Ahead(h, rv) && Honest(h, Some(rv), attempts, now)
    requires AllTransient(attempts) && NoReset(attempts)
    requires Drains(h, events, LastRv(attempts, Some(rv)), now)
    ensures WaitFrom(attempts + [Watch(events)], Some(rv)) == Nil
  {
    WaitAppend(attempts, Some(rv), Watch(events));
    NoCompletionLost(h, rv, attempts, now);
    DrainExact(h, LastRv(attempts, Some(rv)).value, events, now);
  }

  /**
   The whole of Wait: Get saw the unfinished version i, and the attempts so far have neither
   returned nor reset. Then no finished version is at or before lastRv; and if their watches have
   all ended, the next one ends the wait when it delivers the rest of the history of a finished job.
   */
  lemma WaitLosesNothing(h: History, i: nat, attempts: seq<Attempt>, events: seq<Event>, now: nat)
    requires WellFormed(h) && i < |h| && !JobFinished(h[i])
    requires Honest(h, Some(h[i].rv), attempts, now) && NoReset(attempts)
    requires WaitFrom(attempts, Some(h[i].rv)) == Pending
    ensures var last := LastRv(attempts, Some(h[i].rv));
            && last.Some? && Ahead(h, last.value)
            && (AllTransient(attempts) && JobFinished(h[|h| - 1]) && Drains(h, events, last, now) ==>
                  WaitFrom(attempts + [Watch(events)], Some(h[i].rv)) == Nil)
  {
    StartsAhead(h, i);
    NoCompletionLost(h, h[i].rv, attempts, now);
    var last := LastRv(attempts, Some(h[i].rv));
    if AllTransient(attempts) && JobFinished(h[|h| - 1]) && Drains(h, events, last, now) {
      DrainReturns(h, h[i].rv, attempts, events, now);
    }
  }

  // ---------------------------------------------------------------- what a watch can still find

  /** Some finished version comes after resource version rv. */
  ghost predicate FinishesAfter(h: History, rv: nat) {
    exists k :: 0 <= k < |h| && rv < h[k].rv && JobFinished(h[k])
  }

  lemma {:induction false} FindFirst(h: History, rv: nat, lo: nat) returns (k: nat)
    requires Ordered(h) && FinishesAfter(h, rv) && lo <= |h| && forall j :: 0 <= j < lo ==> h[j].rv <= rv
    ensures FirstAfter(h, rv, k)
    decreases |h| - lo
  {
    if lo == |h| {
      assert false;
    } else if rv < h[lo].rv {
      k := lo;
    } else {
      k := FindFirst(h, rv, lo + 1);
    }
  }

  /** Then a watch from rv that delivers the versions in order reports it. */
  lemma {:induction false} DeliverFrom(h: History, rv: nat, k: nat, now: nat) returns (events: seq<Event>)
    requires Ordered(h) && FinishesAfter(h, rv) && FirstAfter(h, rv, k)
    ensures Serves(h, Some(rv), events, now) && Scan(events, Some(rv)).0 == Finished
    decreases |h| - k
  {
    if JobFinished(h[k]) {
      events := [Modified(h[k])];
      assert FirstAfter(h, rv, k) && h[k] == events[0].job;
      assert Serves(h, Some(h[k].rv), events[1..], now);
    } else {
      var j :| 0 <= j < |h| && rv < h[j].rv && JobFinished(h[j]);
      assert k < j;
      var rest := DeliverFrom(h, h[k].rv, k + 1, now);
      events := [Modified(h[k])] + rest;
      assert events[1..] == rest;
      assert FirstAfter(h, rv, k) && h[k] == events[0].job;
    }
  }

  lemma Deliver(h: History, rv: nat, now: nat) returns (events: seq<Event>)
    requires Ordered(h) && FinishesAfter(h, rv)
    ensures Serves(h, Some(rv), events, now) && Scan(events, Some(rv)).0 == Finished
  {
    var k := FindFirst(h, rv, 0);
    events := DeliverFrom(h, rv, k, now);
  }

  /** A watch without a version finds a completion after the version it replays. */
  lemma DeliverReplay(h: History, now: nat) returns (events: seq<Event>)
    requires Ordered(h) && now < |h| && FinishesAfter(h, h[now].rv)
    ensures Serves(h, None, events, now) && Scan(events, None).0 == Finished
  {
    var rest := Deliver(h, h[now].rv, now);
    events := [Added(h[now])] + rest;
    assert events[1..] == rest && h[now] == events[0].job;
  }

  // ---------------------------------------------------------------- the reset

  /**
   After an expiry the next watch starts without a version and replays version i as Added. If it
   then drains the history of a finished job, it finds the completion exactly if version i is not
   the last one: a job whose last version is replayed is never seen to finish.
   */
  lemma ResetExact(
    h: History, rv: Option<nat>, attempts: seq<Attempt>, i: nat, rest: seq<Event>, now: nat)
    requires WellFormed(h) && JobFinished(h[|h| - 1]) && now <= i < |h|
    requires AllTransient(attempts) && LastRv(attempts, rv).None?
    requires Serves(h, Some(h[i].rv), rest, now) && Drained(h, [Added(h[i])] + rest, None)
    ensures WaitFrom(attempts + [Watch([Added(h[i])] + rest)], rv) == Nil <==> i < |h| - 1
  {
    var events := [Added(h[i])] + rest;
    assert events[1..] == rest;
    WaitAppend(attempts, rv, Watch(events));
    DrainExact(h, h[i].rv, rest, now);
    if i < |h| - 1 {
      assert h[i].rv < h[|h| - 1].rv;
    }
  }

  /** Once lastRv is at the end of the history, or reset after it, Wait never returns nil, whatever the attempts. */
  lemma {:induction false} NeverReturns(h: History, rv: Option<nat>, attempts: seq<Attempt>)
    requires Ordered(h) && (rv.Some? ==> h[|h| - 1].rv <= rv.value)
    requires Honest(h, rv, attempts, |h| - 1)
    ensures WaitFrom(attempts, rv) != Nil
    decreases |attempts|
  {
    if attempts == [] {
    } else {
      var a := attempts[0];
      WaitUnfold(attempts, rv);
      AttemptKinds(a, rv);
      if a.Watch? { AtEnd(h, rv, a.events); }
      if Transient(a) {
        NeverReturns(h, NextRv(a, rv), attempts[1..]);
      }
    }
  }

  lemma AtEnd(h: History, rv: Option<nat>, events: seq<Event>)
    requires Ordered(h) && (rv.Some? ==> h[|h| - 1].rv <= rv.value)
    requires Serves(h, rv, events, |h| - 1)
    ensures var (outcome, rv') := Scan(events, rv);
            outcome != Finished && (rv'.Some? ==> h[|h| - 1].rv <= rv'.value)
  {
    if rv.Some? {
      ScanRange(h, rv.value, events, |h| - 1);
      forall k | 0 <= k < |h| ensures h[k].rv <= rv.value {
        assert h[k].rv <= h[|h| - 1].rv;
      }
    } else {
      ScanReplay(h, events, |h| - 1);
    }
  }

  lemma ReplayedLast(h: History, rest: seq<Attempt>)
    requires Ordered(h) && |h| == 2 && Honest(h, Some(h[1].rv), rest, 1)
    ensures var attempts := [Watch([Added(h[1]), Closed])] + rest;
            Honest(h, None, attempts, 1) && WaitFrom(attempts, None) != Nil
  {
    var events := [Added(h[1]), Closed];
    var attempts := [Watch(events)] + rest;
    assert events[1..] == [Closed] && attempts[1..] == rest;
    assert Scan([Closed], Some(h[1].rv)) == (Retry, Some(h[1].rv));
    assert h[1] == events[0].job;
    AttemptKinds(Watch(events), None);
    assert attempts[0] == Watch(events) && NextRv(attempts[0], None) == Some(h[1].rv);
    assert Serves(h, Some(h[1].rv), events[1..], 1);
    assert Serves(h, None, events, 1);
    assert Honest(h, None, attempts, 1);
    NeverReturns(h, None, attempts);
  }

  /**
   The completion that is lost: Get sees version 1, the watch expires, the job finishes as
   version 2, the new watch replays version 2 as Added. No honest continuation ever returns nil.
   */
  lemma LostCompletion(rest: seq<Attempt>) returns (h: History, attempts: seq<Attempt>)
    ensures WellFormed(h) && !JobFinished(h[0]) && JobFinished(h[|h| - 1])
    ensures attempts == [Watch([ErrorEvent(Expired)]), Watch([Added(h[1]), Closed])] + rest
    ensures Honest(h, Some(2), rest, 1) ==>
              Honest(h, Some(h[0].rv), attempts, 1) && WaitFrom(attempts, Some(h[0].rv)) != Nil
  {
    h := [Version(1, 0, 0, 1), Version(2, 0, 1, 1)];
    var second := Watch([Added(h[1]), Closed]);
    attempts := [Watch([ErrorEvent(Expired)]), second] + rest;
    assert attempts[1..] == [second] + rest;
    AttemptKinds(attempts[0], Some(1));
    if Honest(h, Some(2), rest, 1) {
      ReplayedLast(h, rest);
      WaitUnfold(attempts, Some(1));
    }
  }
}
