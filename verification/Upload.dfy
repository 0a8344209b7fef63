/**
 Result upload: the runner script posts its result file until it sees 201 or 409; the server's
 handler copies the body into a store writer and commits it under the runner's name. Requests can
 be lost, abandoned while their handler goes on, cut short, or killed with the server, and the
 script then posts again, so several handlers of one runner can be at work at once.
 */
module Upload {
  import opened Options
  import LS = LocalStore

  /** The retry loop of the script: between attempts, waiting for one, or gone. */
  datatype Script = Looping | Waiting(attempt: nat) | Exited(code: nat)

  /** One POST on the server: just arrived, copying the body, answered, or dead with its process. */
  datatype Stage = Arrived | Copying(pos: nat) | Done(code: nat) | Dead

  datatype Handler = Handler(runner: string, stage: Stage)

  /** The result each runner uploads. Pod names are unique, so a name has one body. */
  type Bodies = map<string, LS.Bytes>

  datatype State = State(
    store: LS.State,                  // the writer of attempt a has id a
    handlers: map<nat, Handler>,
    scripts: map<string, Script>,
    commits: seq<string>              // the refs of all successful commits, in order
  )

  datatype Label =
    | Post(runner: string, attempt: nat)
    | Reject(attempt: nat, code: nat)                   // unknown runner (404), listing or open failure (500)
    | Open(attempt: nat, temp: nat, inode: nat)
    | Copy(attempt: nat, n: nat)
    | CopyFail(attempt: nat)                            // the body ended early, or a write failed
    | Commit(attempt: nat, faults: LS.Faults)
    | Finish(attempt: nat, removeFault: bool)           // the handler's deferred Close
    | Deliver(runner: string)                           // the answer reaches the script
    | Lose(runner: string)                              // curl fails: no answer, any other code
    | Kill(runner: string)                              // the pod dies
    | Crash                                             // the server restarts; its files survive

  function Init(bodies: Bodies): State {
    State(LS.EMPTY, map[], map r | r in bodies :: Looping, [])
  }

  function HttpCode(c: LS.Code): nat {
    match c
    case Committed => 201
    case AlreadyExists => 409
    case Error => 500
  }

  /** The case statement of the script. */
  function OnCode(code: nat): Script {
    if code == 201 || code == 409 then Exited(0)
    else if code == 404 then Exited(1)
    else Looping
  }

  predicate Enabled(b: Bodies, s: State, l: Label) {
    match l
    case Post(r, a) => r in s.scripts && s.scripts[r] == Looping && a !in s.handlers && a !in s.store.writers
    case Reject(a, code) => a in s.handlers && s.handlers[a].stage == Arrived && (code == 404 || code == 500)
    case Open(a, temp, inode) =>
      && a in s.handlers && s.handlers[a].stage == Arrived
      && LS.Enabled(s.store, LS.OpenWriter(a, temp, inode), false)
    case Copy(a, n) =>
      && a in s.handlers && s.handlers[a].stage.Copying? && s.handlers[a].runner in b
      && s.handlers[a].stage.pos + n <= |b[s.handlers[a].runner]|
      && LS.Enabled(s.store, LS.Write(a, []), false)
    case CopyFail(a) => a in s.handlers && s.handlers[a].stage.Copying?
    case Commit(a, _) =>
      // io.Copy returned nil: the whole body has arrived.
      && a in s.handlers && s.handlers[a].stage.Copying? && s.handlers[a].runner in b
      && s.handlers[a].stage.pos == |b[s.handlers[a].runner]|
      && a in s.store.writers
    case Finish(a, _) => a in s.handlers && s.handlers[a].stage.Done? && a in s.store.writers
    case Deliver(r) =>
      && r in s.scripts && s.scripts[r].Waiting? && s.scripts[r].attempt in s.handlers
      && s.handlers[s.scripts[r].attempt].stage.Done?
    case Lose(r) => r in s.scripts && s.scripts[r].Waiting?
    case Kill(r) => r in s.scripts && !s.scripts[r].Exited?
    case Crash => true
  }

  function Chunk(body: LS.Bytes, pos: nat, n: nat): LS.Bytes
    requires pos + n <= |body|
  {
    body[pos..pos + n]
  }

  function SetStage(s: State, a: nat, stage: Stage): State
    requires a in s.handlers
  {
    s.(handlers := s.handlers[a := s.handlers[a].(stage := stage)])
  }

  function Apply(b: Bodies, s: State, l: Label): State
    requires Enabled(b, s, l)
  {
    match l
    case Post(r, a) =>
      s.(scripts := s.scripts[r := Waiting(a)], handlers := s.handlers[a := Handler(r, Arrived)])
    case Reject(a, code) => SetStage(s, a, Done(code))
    case Open(a, temp, inode) =>
      SetStage(s, a, Copying(0)).(store := LS.Apply(s.store, LS.OpenWriter(a, temp, inode)))
    case Copy(a, n) =>
      var h := s.handlers[a];
      var chunk := Chunk(b[h.runner], h.stage.pos, n);
      SetStage(s, a, Copying(h.stage.pos + n)).(store := LS.Apply(s.store, LS.Write(a, chunk)))
    case CopyFail(a) => SetStage(s, a, Done(500))
    case Commit(a, faults) =>
      var w, r := s.store.writers[a], s.handlers[a].runner;
      var code := LS.CommitCode(s.store.files, w.temp, w.open, r, faults);
      SetStage(s, a, Done(HttpCode(code))).(
        store := LS.Apply(s.store, LS.Commit(a, r, faults)),
        commits := if code == LS.Committed then s.commits + [r] else s.commits)
    case Finish(a, fault) =>
      var closed := LS.Apply(s.store, LS.Close(a, fault));
      s.(store := LS.Apply(closed, LS.Forget(a)))
    case Deliver(r) => s.(scripts := s.scripts[r := OnCode(s.handlers[s.scripts[r].attempt].stage.code)])
    case Lose(r) => s.(scripts := s.scripts[r := Looping])
    case Kill(r) => s.(scripts := s.scripts[r := Exited(1)])
    case Crash =>
      s.(store := LS.Apply(s.store, LS.Crash),
         handlers := map a | a in s.handlers ::
           if s.handlers[a].stage.Done? then s.handlers[a] else s.handlers[a].(stage := Dead))
  }

  ghost predicate Runs(b: Bodies, s: State, ls: seq<Label>, t: State)
    decreases |ls|
  {
    if ls == [] then s == t
    else Enabled(b, s, ls[0]) && Runs(b, Apply(b, s, ls[0]), ls[1..], t)
  }

  ghost predicate Reachable(b: Bodies, t: State) {
    exists ls :: Runs(b, Init(b), ls, t)
  }

  // ---------------------------------------------------------------- invariants

  predicate Stored(st: LS.State, r: string) {
    LS.Read(st.files, r).Some?
  }

  /** Every stored value is the whole body of its runner, and was committed exactly once. */
  ghost predicate StoreOk(b: Bodies, st: LS.State, commits: seq<string>) {
    && LS.Inv(st)
    && (forall r :: r in st.files.data ==> r in b && LS.Read(st.files, r) == Some(b[r]))
    && (forall r :: multiset(commits)[r] == if r in st.files.data then 1 else 0)
  }

  /** A copying handler has written exactly the part of the body it has received. */
  ghost predicate HandlerOk(b: Bodies, st: LS.State, a: nat, h: Handler) {
    && h.runner in b
    && (h.stage.Copying? ==>
          && a in st.writers && st.writers[a].open && h.stage.pos <= |b[h.runner]|
          && st.writers[a].written == b[h.runner][..h.stage.pos])
    && (h.stage == Done(201) || h.stage == Done(409) ==> Stored(st, h.runner))
  }

  ghost predicate HandlersOk(b: Bodies, st: LS.State, hs: map<nat, Handler>) {
    forall a :: a in hs ==> HandlerOk(b, st, a, hs[a])
  }

  ghost predicate ScriptOk(b: Bodies, st: LS.State, hs: map<nat, Handler>, r: string, x: Script) {
    && r in b
    && (x.Waiting? ==> x.attempt in hs && hs[x.attempt].runner == r)
    && (x == Exited(0) ==> Stored(st, r))
  }

  ghost predicate ScriptsOk(b: Bodies, st: LS.State, hs: map<nat, Handler>, xs: map<string, Script>) {
    forall r :: r in xs ==> ScriptOk(b, st, hs, r, xs[r])
  }

  ghost predicate Inv(b: Bodies, s: State) {
    && StoreOk(b, s.store, s.commits)
    && HandlersOk(b, s.store, s.handlers)
    && ScriptsOk(b, s.store, s.handlers, s.scripts)
  }

  /** Whatever is stored stays stored, with the same value. */
  ghost predicate Keeps(st: LS.State, st': LS.State) {
    forall r :: Stored(st, r) ==> LS.Read(st'.files, r) == LS.Read(st.files, r)
  }

  /** A step of attempt a touches no other writer. */
  ghost predicate OnlyWriter(st: LS.State, st': LS.State, a: nat) {
    forall j :: j in st.writers && j != a ==> j in st'.writers && st'.writers[j] == st.writers[j]
  }

  /** Attempt a moves on: the handler gets a stage that is right for the new store. */
  lemma MoveOn(b: Bodies, st: LS.State, st': LS.State, hs: map<nat, Handler>,
               xs: map<string, Script>, a: nat, stage: Stage)
    requires HandlersOk(b, st, hs) && ScriptsOk(b, st, hs, xs) && a in hs
    requires Keeps(st, st') && OnlyWriter(st, st', a)
    requires HandlerOk(b, st', a, hs[a].(stage := stage))
    ensures HandlersOk(b, st', hs[a := hs[a].(stage := stage)])
    ensures ScriptsOk(b, st', hs[a := hs[a].(stage := stage)], xs)
  {
    forall j | j in hs && j != a ensures HandlerOk(b, st', j, hs[j]) {
      assert HandlerOk(b, st, j, hs[j]);
    }
    forall r | r in xs ensures ScriptOk(b, st', hs[a := hs[a].(stage := stage)], r, xs[r]) {
      assert ScriptOk(b, st, hs, r, xs[r]);
    }
  }

  lemma ScriptStep(b: Bodies, s: State, l: Label)
    requires Inv(b, s) && Enabled(b, s, l) && (l.Deliver? || l.Lose? || l.Kill?)
    ensures Inv(b, Apply(b, s, l)) && Apply(b, s, l).store == s.store
  {
    assert ScriptOk(b, s.store, s.handlers, l.runner, s.scripts[l.runner]);
    if l.Deliver? {
      var a := s.scripts[l.runner].attempt;
      assert HandlerOk(b, s.store, a, s.handlers[a]);
    }
  }

  lemma PostStep(b: Bodies, s: State, r: string, a: nat)
    requires Inv(b, s) && Enabled(b, s, Post(r, a))
    ensures Inv(b, Apply(b, s, Post(r, a)))
  {
    assert ScriptOk(b, s.store, s.handlers, r, s.scripts[r]);
    var t := Apply(b, s, Post(r, a));
    forall j | j in t.handlers ensures HandlerOk(b, t.store, j, t.handlers[j]) {
      assert j != a ==> HandlerOk(b, s.store, j, s.handlers[j]);
    }
    forall q | q in t.scripts ensures ScriptOk(b, t.store, t.handlers, q, t.scripts[q]) {
      assert q != r ==> ScriptOk(b, s.store, s.handlers, q, s.scripts[q]);
    }
  }

  lemma AnswerStep(b: Bodies, s: State, l: Label)
    requires Inv(b, s) && Enabled(b, s, l) && (l.Reject? || l.CopyFail?)
    ensures Inv(b, Apply(b, s, l)) && Apply(b, s, l).store == s.store
  {
    var code := if l.Reject? then l.code else 500;
    assert HandlerOk(b, s.store, l.attempt, s.handlers[l.attempt]);
    MoveOn(b, s.store, s.store, s.handlers, s.scripts, l.attempt, Done(code));
  }

  lemma StoreKept(b: Bodies, st: LS.State, commits: seq<string>, op: LS.Op)
    requires StoreOk(b, st, commits) && LS.Enabled(st, op, false) && !op.Commit? && !op.Delete?
    ensures LS.Enabled(st, op, true)
    ensures StoreOk(b, LS.Apply(st, op), commits) && Keeps(st, LS.Apply(st, op))
  {
    LS.InvStep(st, op);
    var st' := LS.Apply(st, op);
    assert st'.files.data == st.files.data;
    forall r ensures LS.Read(st'.files, r) == LS.Read(st.files, r) {
      LS.OthersInvisible(st, op, r);
    }
  }

  lemma OpenStep(b: Bodies, s: State, a: nat, temp: nat, inode: nat)
    requires Inv(b, s) && Enabled(b, s, Open(a, temp, inode))
    ensures var t := Apply(b, s, Open(a, temp, inode)); Inv(b, t) && Keeps(s.store, t.store)
  {
    var op := LS.OpenWriter(a, temp, inode);
    StoreKept(b, s.store, s.commits, op);
    assert HandlerOk(b, s.store, a, s.handlers[a]);
    MoveOn(b, s.store, LS.Apply(s.store, op), s.handlers, s.scripts, a, Copying(0));
  }

  lemma CopyHandler(b: Bodies, st: LS.State, a: nat, h: Handler, n: nat)
    requires HandlerOk(b, st, a, h) && h.stage.Copying? && h.stage.pos + n <= |b[h.runner]|
    ensures var st' := LS.Apply(st, LS.Write(a, Chunk(b[h.runner], h.stage.pos, n)));
            HandlerOk(b, st', a, h.(stage := Copying(h.stage.pos + n))) && OnlyWriter(st, st', a)
  {
    var body, p := b[h.runner], h.stage.pos;
    assert body[..p] + Chunk(body, p, n) == body[..p + n];
  }

  lemma CopyStep(b: Bodies, s: State, a: nat, n: nat)
    requires Inv(b, s) && Enabled(b, s, Copy(a, n))
    ensures var t := Apply(b, s, Copy(a, n)); Inv(b, t) && Keeps(s.store, t.store)
  {
    var h := s.handlers[a];
    var op := LS.Write(a, Chunk(b[h.runner], h.stage.pos, n));
    assert HandlerOk(b, s.store, a, h);
    StoreKept(b, s.store, s.commits, op);
    CopyHandler(b, s.store, a, h, n);
    MoveOn(b, s.store, LS.Apply(s.store, op), s.handlers, s.scripts, a, Copying(h.stage.pos + n));
  }

  lemma CommitStore(b: Bodies, st: LS.State, commits: seq<string>, a: nat, r: string, faults: LS.Faults)
    requires StoreOk(b, st, commits) && a in st.writers && r in b && st.writers[a].written == b[r]
    ensures var w, st' := st.writers[a], LS.Apply(st, LS.Commit(a, r, faults));
            var code := LS.CommitCode(st.files, w.temp, w.open, r, faults);
            && StoreOk(b, st', if code == LS.Committed then commits + [r] else commits)
            && Keeps(st, st') && (code != LS.Error ==> Stored(st', r))
  {
    LS.InvStep(st, LS.Commit(a, r, faults));
    LS.CommitIsExact(st, a, r, faults);
  }

  lemma CommitStep(b: Bodies, s: State, a: nat, faults: LS.Faults)
    requires Inv(b, s) && Enabled(b, s, Commit(a, faults))
    ensures var t := Apply(b, s, Commit(a, faults)); Inv(b, t) && Keeps(s.store, t.store)
  {
    var r, w := s.handlers[a].runner, s.store.writers[a];
    assert HandlerOk(b, s.store, a, s.handlers[a]);
    assert b[r][..|b[r]|] == b[r];
    CommitStore(b, s.store, s.commits, a, r, faults);
    var code := LS.CommitCode(s.store.files, w.temp, w.open, r, faults);
    MoveOn(b, s.store, LS.Apply(s.store, LS.Commit(a, r, faults)), s.handlers, s.scripts, a, Done(HttpCode(code)));
  }

  lemma FinishStep(b: Bodies, s: State, a: nat, fault: bool)
    requires Inv(b, s) && Enabled(b, s, Finish(a, fault))
    ensures var t := Apply(b, s, Finish(a, fault)); Inv(b, t) && Keeps(s.store, t.store)
  {
    StoreKept(b, s.store, s.commits, LS.Close(a, fault));
    var closed := LS.Apply(s.store, LS.Close(a, fault));
    StoreKept(b, closed, s.commits, LS.Forget(a));
    assert HandlerOk(b, s.store, a, s.handlers[a]);
    var t := Apply(b, s, Finish(a, fault));
    MoveOn(b, s.store, t.store, s.handlers, s.scripts, a, s.handlers[a].stage);
    assert s.handlers[a := s.handlers[a].(stage := s.handlers[a].stage)] == s.handlers;
  }

  lemma CrashStep(b: Bodies, s: State)
    requires Inv(b, s)
    ensures var t := Apply(b, s, Crash); Inv(b, t) && Keeps(s.store, t.store)
  {
    StoreKept(b, s.store, s.commits, LS.Crash);
    var t := Apply(b, s, Crash);
    forall a | a in t.handlers ensures HandlerOk(b, t.store, a, t.handlers[a]) {
      assert HandlerOk(b, s.store, a, s.handlers[a]);
    }
    forall r | r in t.scripts ensures ScriptOk(b, t.store, t.handlers, r, t.scripts[r]) {
      assert ScriptOk(b, s.store, s.handlers, r, s.scripts[r]);
    }
  }

  lemma InvStep(b: Bodies, s: State, l: Label)
    requires Inv(b, s) && Enabled(b, s, l)
    ensures Inv(b, Apply(b, s, l)) && Keeps(s.store, Apply(b, s, l).store)
  {
    match l
    case Post(r, a) => PostStep(b, s, r, a);
    case Open(a, temp, inode) => OpenStep(b, s, a, temp, inode);
    case Copy(a, n) => CopyStep(b, s, a, n);
    case Commit(a, faults) => CommitStep(b, s, a, faults);
    case Finish(a, fault) => FinishStep(b, s, a, fault);
    case Crash => CrashStep(b, s);
    case Reject(_, _) => AnswerStep(b, s, l);
    case CopyFail(_) => AnswerStep(b, s, l);
    case _ => ScriptStep(b, s, l);
  }

  lemma {:induction false} InvRuns(b: Bodies, s: State, ls: seq<Label>, t: State)
    requires Inv(b, s) && Runs(b, s, ls, t)
    ensures Inv(b, t) && Keeps(s.store, t.store)
    decreases |ls|
  {
    if ls == [] {
    } else {
      var m := Apply(b, s, ls[0]);
      InvStep(b, s, ls[0]);
      InvRuns(b, m, ls[1..], t);
      forall r | Stored(s.store, r) ensures LS.Read(t.store.files, r) == LS.Read(s.store.files, r) {
        assert Stored(m.store, r);
      }
    }
  }

  lemma ReachableInv(b: Bodies, s: State)
    requires Reachable(b, s)
    ensures Inv(b, s)
  {
    var ls :| Runs(b, Init(b), ls, s);
    InvRuns(b, Init(b), ls, s);
  }

  // ---------------------------------------------------------------- theorems

  /**
   In every reachable state: a runner has been committed at most once; whatever is stored under
   its name is its complete body; and a script that exited with 0 has its body in the store.
   */
  lemma ExactlyOnce(b: Bodies, s: State, r: string)
    requires Reachable(b, s)
    ensures multiset(s.commits)[r] <= 1
    ensures Stored(s.store, r) ==> r in b && LS.Read(s.store.files, r) == Some(b[r])
    ensures r in s.scripts && s.scripts[r] == Exited(0) ==> r in b && LS.Read(s.store.files, r) == Some(b[r])
  {
    ReachableInv(b, s);
    assert r in s.scripts ==> ScriptOk(b, s.store, s.handlers, r, s.scripts[r]);
  }

  /** ... and it stays there, over every continuation with its retries, losses and restarts. */
  lemma StoredForever(b: Bodies, s: State, ls: seq<Label>, t: State, r: string)
    requires Reachable(b, s) && Runs(b, s, ls, t) && Stored(s.store, r)
    ensures LS.Read(t.store.files, r) == LS.Read(s.store.files, r)
  {
    ReachableInv(b, s);
    InvRuns(b, s, ls, t);
  }

  // ---------------------------------------------------------------- a script can always succeed

  lemma CopyAll(b: Bodies, s: State, r: string, a: nat) returns (t: State)
    requires Inv(b, s) && a in s.handlers && s.handlers[a] == Handler(r, Copying(0))
    ensures r in b && Runs(b, s, [Copy(a, |b[r]|)], t) && Inv(b, t) && t.scripts == s.scripts
    ensures a in t.handlers && t.handlers[a] == Handler(r, Copying(|b[r]|))
    ensures t.store.files.data == s.store.files.data
  {
    assert HandlerOk(b, s.store, a, s.handlers[a]);
    var copy := Copy(a, |b[r]|);
    InvStep(b, s, copy);
    t := Apply(b, s, copy);
    assert [copy][1..] == [];
  }

  /** The whole body arrives, is committed (or had been), and the answer reaches the script. */
  lemma CopyToEnd(b: Bodies, s: State, r: string, a: nat) returns (ls: seq<Label>, t: State)
    requires Inv(b, s) && r in s.scripts && s.scripts[r] == Waiting(a)
    requires a in s.handlers && s.handlers[a] == Handler(r, Copying(0))
    ensures Runs(b, s, ls, t) && Crash !in ls && t.scripts == s.scripts[r := Exited(0)]
  {
    var m := CopyAll(b, s, r, a);
    t := CommitAndDeliver(b, m, r, a);
    RunsConcat(b, s, [Copy(a, |b[r]|)], m, [Commit(a, LS.NO_FAULTS), Deliver(r)], t);
    ls := [Copy(a, |b[r]|)] + [Commit(a, LS.NO_FAULTS), Deliver(r)];
  }

  lemma CommitAndDeliver(b: Bodies, s: State, r: string, a: nat) returns (t: State)
    requires Inv(b, s) && r in s.scripts && s.scripts[r] == Waiting(a) && r in b
    requires a in s.handlers && s.handlers[a] == Handler(r, Copying(|b[r]|))
    ensures Runs(b, s, [Commit(a, LS.NO_FAULTS), Deliver(r)], t) && t.scripts == s.scripts[r := Exited(0)]
  {
    assert HandlerOk(b, s.store, a, s.handlers[a]);
    LS.CodeIsVerdict(s.store, a, r, LS.NO_FAULTS);
    var s1 := Apply(b, s, Commit(a, LS.NO_FAULTS));
    t := Apply(b, s1, Deliver(r));
    assert [Commit(a, LS.NO_FAULTS), Deliver(r)][1..] == [Deliver(r)] && [Deliver(r)][1..] == [];
    assert Runs(b, s1, [Deliver(r)], t);
  }

  lemma PostAndOpen(b: Bodies, s: State, r: string) returns (a: nat, ls: seq<Label>, t: State)
    requires Inv(b, s) && r in s.scripts && s.scripts[r] == Looping
    ensures Runs(b, s, ls, t) && Crash !in ls && Inv(b, t) && t.scripts == s.scripts[r := Waiting(a)]
    ensures a in t.handlers && t.handlers[a] == Handler(r, Copying(0))
    ensures t.store.files.data == s.store.files.data
  {
    a := LS.Unused(s.handlers.Keys + s.store.writers.Keys);
    var s1 := Apply(b, s, Post(r, a));
    InvStep(b, s, Post(r, a));
    var temp := LS.Unused(s1.store.files.ingest.Keys + set i | i in s1.store.writers :: s1.store.writers[i].temp);
    var inode := LS.Unused(s1.store.files.blob.Keys);
    InvStep(b, s1, Open(a, temp, inode));
    t := Apply(b, s1, Open(a, temp, inode));
    ls := [Post(r, a), Open(a, temp, inode)];
    assert ls[1..] == [Open(a, temp, inode)] && ls[1..][1..] == [];
    assert Runs(b, s1, ls[1..], t);
  }

  lemma {:induction false} RunsConcat(b: Bodies, s: State, xs: seq<Label>, m: State, ys: seq<Label>, t: State)
    requires Runs(b, s, xs, m) && Runs(b, m, ys, t)
    ensures Runs(b, s, xs + ys, t)
    decreases |xs|
  {
    if xs == [] {
      assert xs + ys == ys;
    } else {
      assert (xs + ys)[1..] == xs[1..] + ys;
      RunsConcat(b, Apply(b, s, xs[0]), xs[1..], m, ys, t);
    }
  }

  lemma SucceedLooping(b: Bodies, s: State, r: string) returns (ls: seq<Label>, t: State)
    requires Inv(b, s) && r in s.scripts && s.scripts[r] == Looping
    ensures Runs(b, s, ls, t) && Crash !in ls && t.scripts == s.scripts[r := Exited(0)]
  {
    var a, xs, m := PostAndOpen(b, s, r);
    var ys;
    ys, t := CopyToEnd(b, m, r, a);
    RunsConcat(b, s, xs, m, ys, t);
    ls := xs + ys;
  }

  lemma SucceedFrom(b: Bodies, s: State, r: string) returns (ls: seq<Label>, t: State)
    requires Inv(b, s) && r in s.scripts && !s.scripts[r].Exited?
    ensures Runs(b, s, ls, t) && Crash !in ls && t.scripts == s.scripts[r := Exited(0)]
  {
    if s.scripts[r] == Looping {
      ls, t := SucceedLooping(b, s, r);
    } else {
      InvStep(b, s, Lose(r));
      ls, t := SucceedLooping(b, Apply(b, s, Lose(r)), r);
      ls := [Lose(r)] + ls;
    }
  }

  /** From every reachable state, whatever was lost or restarted, a script that has not exited can exit with 0. */
  lemma CanSucceed(b: Bodies, s: State, r: string) returns (ls: seq<Label>, t: State)
    requires Reachable(b, s) && r in s.scripts && !s.scripts[r].Exited?
    ensures Runs(b, s, ls, t) && Crash !in ls && t.scripts == s.scripts[r := Exited(0)]
  {
    ReachableInv(b, s);
    ls, t := SucceedFrom(b, s, r);
  }

  // ---------------------------------------------------------------- when a script exits

  /** The code of the answer that Deliver(r) brings. */
  function Answer(b: Bodies, s: State, r: string): nat
    requires Enabled(b, s, Deliver(r))
  {
    s.handlers[s.scripts[r].attempt].stage.code
  }

  /** Over the run the script of r is told one of the codes. */
  ghost predicate Told(b: Bodies, s: State, ls: seq<Label>, r: string, codes: set<nat>)
    decreases |ls|
  {
    && ls != [] && Enabled(b, s, ls[0])
    && ((ls[0] == Deliver(r) && Answer(b, s, r) in codes) || Told(b, Apply(b, s, ls[0]), ls[1..], r, codes))
  }

  /** A script that has exited is done: nothing is delivered to it, and its code stays. */
  lemma {:induction false} ExitedStays(b: Bodies, s: State, ls: seq<Label>, t: State, r: string, codes: set<nat>)
    requires Runs(b, s, ls, t) && r in s.scripts && s.scripts[r].Exited?
    ensures r in t.scripts && t.scripts[r] == s.scripts[r]
    ensures !Told(b, s, ls, r, codes) && Kill(r) !in ls
    decreases |ls|
  {
    if ls == [] {
    } else {
      ExitedStays(b, Apply(b, s, ls[0]), ls[1..], t, r, codes);
      assert ls == [ls[0]] + ls[1..];
    }
  }

  lemma {:induction false} ExitsFrom(b: Bodies, s: State, ls: seq<Label>, t: State, r: string)
    requires Runs(b, s, ls, t) && r in s.scripts && !s.scripts[r].Exited?
    ensures r in t.scripts
    ensures t.scripts[r] == Exited(0) <==> Told(b, s, ls, r, {201, 409})
    ensures t.scripts[r] == Exited(1) <==> Kill(r) in ls || Told(b, s, ls, r, {404})
    ensures t.scripts[r].Exited? ==> t.scripts[r].code <= 1
    decreases |ls|
  {
    if ls == [] {
    } else {
      var m := Apply(b, s, ls[0]);
      assert ls == [ls[0]] + ls[1..];
      if m.scripts[r].Exited? {
        ExitedStays(b, m, ls[1..], t, r, {201, 409});
        ExitedStays(b, m, ls[1..], t, r, {404});
      } else {
        ExitsFrom(b, m, ls[1..], t, r);
      }
    }
  }

  /**
   Over every run: a script exits with 0 iff it was told 201 or 409, and with 1 iff its pod was
   killed or it was told 404. Whatever else it is told or not told, it goes on.
   */
  lemma ExitsExactly(b: Bodies, ls: seq<Label>, s: State, r: string)
    requires Runs(b, Init(b), ls, s) && r in b
    ensures r in s.scripts
    ensures s.scripts[r] == Exited(0) <==> Told(b, Init(b), ls, r, {201, 409})
    ensures s.scripts[r] == Exited(1) <==> Kill(r) in ls || Told(b, Init(b), ls, r, {404})
    ensures s.scripts[r].Exited? ==> s.scripts[r].code <= 1
  {
    ExitsFrom(b, Init(b), ls, s, r);
  }

  /** The codes that handlers answer with. */
  ghost predicate Known(s: State) {
    forall a :: a in s.handlers && s.handlers[a].stage.Done? ==> s.handlers[a].stage.code in {201, 404, 409, 500}
  }

  lemma {:induction false} KnownCodes(b: Bodies, s: State, ls: seq<Label>, t: State)
    requires Known(s) && Runs(b, s, ls, t)
    ensures Known(t)
    decreases |ls|
  {
    if ls == [] {
    } else {
      KnownCodes(b, Apply(b, s, ls[0]), ls[1..], t);
    }
  }

  /** The deferred Close of a handler that has answered: its writer and its temporary file are gone. */
  lemma FinishCleans(b: Bodies, s: State, a: nat)
    requires a in s.handlers && s.handlers[a].stage.Done? && a in s.store.writers
    ensures Enabled(b, s, Finish(a, false))
    ensures var t := Apply(b, s, Finish(a, false));
            && a !in t.store.writers && s.store.writers[a].temp !in t.store.files.ingest
            && t.handlers == s.handlers && t.scripts == s.scripts
  {
  }

  predicate Rejects(l: Label) {
    l.Reject? && l.code == 404
  }

  /** 404 is the answer to an unknown runner only. */
  ghost predicate NoneRejected(s: State) {
    forall a :: a in s.handlers ==> s.handlers[a].stage != Done(404)
  }

  lemma {:induction false} NeverTold404(b: Bodies, s: State, ls: seq<Label>, t: State, r: string)
    requires Runs(b, s, ls, t) && NoneRejected(s) && forall l :: l in ls ==> !Rejects(l)
    ensures !Told(b, s, ls, r, {404})
    decreases |ls|
  {
    if ls == [] {
    } else {
      assert ls[0] in ls;
      NeverTold404(b, Apply(b, s, ls[0]), ls[1..], t, r);
    }
  }

  /** So a runner's result is given up only if its pod is killed or the server does not know the runner. */
  lemma GivesUpOnlyIf(b: Bodies, ls: seq<Label>, s: State, r: string)
    requires Runs(b, Init(b), ls, s) && r in s.scripts && s.scripts[r] == Exited(1)
    ensures Kill(r) in ls || exists l :: l in ls && Rejects(l)
  {
    ScriptsKept(b, Init(b), ls, s);
    ExitsExactly(b, ls, s, r);
    if forall l :: l in ls ==> !Rejects(l) {
      NeverTold404(b, Init(b), ls, s, r);
    }
  }

  lemma {:induction false} ScriptsKept(b: Bodies, s: State, ls: seq<Label>, t: State)
    requires Runs(b, s, ls, t)
    ensures t.scripts.Keys == s.scripts.Keys
    decreases |ls|
  {
    if ls == [] {
    } else {
      ScriptsKept(b, Apply(b, s, ls[0]), ls[1..], t);
    }
  }

  /** After any other answer, such as 500 for a commit whose fsync failed, the script can still succeed. */
  lemma RetryCanSucceed(b: Bodies, s: State, r: string) returns (ls: seq<Label>, t: State)
    requires Reachable(b, s) && Enabled(b, s, Deliver(r)) && Answer(b, s, r) !in {201, 404, 409}
    ensures Runs(b, s, [Deliver(r)] + ls, t) && Crash !in ls && t.scripts == s.scripts[r := Exited(0)]
  {
    ReachableInv(b, s);
    InvStep(b, s, Deliver(r));
    ls, t := SucceedFrom(b, Apply(b, s, Deliver(r)), r);
    assert ([Deliver(r)] + ls)[1..] == ls;
  }

  /** What a handler that has received the whole body answers: 201 iff this commit stored it. */
  lemma CommitAnswers(b: Bodies, s: State, a: nat, faults: LS.Faults)
    requires Reachable(b, s) && Enabled(b, s, Commit(a, faults))
    ensures var stored, t := Stored(s.store, s.handlers[a].runner), Apply(b, s, Commit(a, faults));
            && Stored(t.store, s.handlers[a].runner) == (stored || t.handlers[a].stage == Done(201))
            && (t.handlers[a].stage == Done(201) <==> !stored && !faults.sync && !faults.stat && !faults.rename)
            && (t.handlers[a].stage == Done(409) <==> stored && !faults.sync && !faults.stat)
            && t.handlers[a].stage in {Done(201), Done(409), Done(500)}
  {
    ReachableInv(b, s);
    assert HandlerOk(b, s.store, a, s.handlers[a]);
    LS.CodeIsVerdict(s.store, a, s.handlers[a].runner, faults);
    LS.CommitIsExact(s.store, a, s.handlers[a].runner, faults);
  }

  // ---------------------------------------------------------------- every answer is possible

  lemma OpenAndCopy(b: Bodies, s: State, r: string) returns (a: nat, ls: seq<Label>, t: State)
    requires Inv(b, s) && r in s.scripts && s.scripts[r] == Looping
    ensures Runs(b, s, ls, t) && Inv(b, t) && t.scripts == s.scripts[r := Waiting(a)]
    ensures r in b && a in t.handlers && t.handlers[a] == Handler(r, Copying(|b[r]|))
    ensures t.store.files.data == s.store.files.data
  {
    var xs, m;
    a, xs, m := PostAndOpen(b, s, r);
    t := CopyAll(b, m, r, a);
    RunsConcat(b, s, xs, m, [Copy(a, |b[r]|)], t);
    ls := xs + [Copy(a, |b[r]|)];
  }

  /** A script in its loop can be told 404 and 500, and 201 or 409 depending on whether its result is stored. */
  lemma CanBeTold(b: Bodies, s: State, r: string, code: nat) returns (ls: seq<Label>, t: State)
    requires Reachable(b, s) && r in s.scripts && s.scripts[r] == Looping
    requires code == 404 || code == 500 || code == if Stored(s.store, r) then 409 else 201
    ensures Runs(b, s, ls, t) && Enabled(b, t, Deliver(r)) && Answer(b, t, r) == code
  {
    ReachableInv(b, s);
    if code == 404 {
      var a := LS.Unused(s.handlers.Keys + s.store.writers.Keys);
      var m := Apply(b, s, Post(r, a));
      t := Apply(b, m, Reject(a, 404));
      ls := [Post(r, a), Reject(a, 404)];
      assert ls[1..] == [Reject(a, 404)] && ls[1..][1..] == [];
      assert Runs(b, m, ls[1..], t);
    } else {
      var a, xs, m := OpenAndCopy(b, s, r);
      var l := if code == 500 then CopyFail(a) else Commit(a, LS.NO_FAULTS);
      assert HandlerOk(b, m.store, a, m.handlers[a]);
      if code != 500 {
        assert Stored(m.store, r) == Stored(s.store, r) == (r in s.store.files.data);
        LS.CodeIsVerdict(m.store, a, r, LS.NO_FAULTS);
      }
      t := Apply(b, m, l);
      assert Runs(b, m, [l], t) by { assert [l][1..] == []; }
      RunsConcat(b, s, xs, m, [l], t);
      ls := xs + [l];
    }
  }
}
