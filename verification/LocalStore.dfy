/**
 The local store: values are ingested into temporary files and committed by renaming the file
 to its ref. Files are inodes, so an open writer keeps writing to its file after a rename; that
 no committed value ever changes is therefore something to prove.
 */
module LocalStore {
  import opened Ints
  import opened Options

  type Bytes = seq<Byte>

  /** dataDir and ingestDir map file names to inodes; blob holds the contents of every inode. */
  datatype Files = Files(data: map<string, nat>, ingest: map<nat, nat>, blob: map<nat, Bytes>)

  /** What a reader of ref gets. */
  function Read(f: Files, ref: string): Option<Bytes> {
    if ref in f.data && f.data[ref] in f.blob then Some(f.blob[f.data[ref]]) else None
  }

  function Create(f: Files, temp: nat, inode: nat): Files {
    f.(ingest := f.ingest[temp := inode], blob := f.blob[inode := []])
  }

  function Extend(f: Files, inode: nat, bytes: Bytes): Files {
    f.(blob := f.blob[inode := (if inode in f.blob then f.blob[inode] else []) + bytes])
  }

  /** Remove the temporary file of that name, whoever created it; a failed removal leaves it. */
  function RemoveTemp(f: Files, temp: nat, fault: bool): Files {
    if fault then f else f.(ingest := f.ingest - {temp})
  }

  /** Rename whatever file has that temporary name. */
  function Rename(f: Files, temp: nat, ref: string): Files {
    if temp in f.ingest then f.(data := f.data[ref := f.ingest[temp]], ingest := f.ingest - {temp}) else f
  }

  /** The system calls of one Commit that may fail on their own. */
  datatype Faults = Faults(sync: bool, stat: bool, rename: bool, remove: bool)

  const NO_FAULTS := Faults(false, false, false, false)

  datatype Code = Committed | AlreadyExists | Error

  /** Commit of a writer with the given temporary name; open tells whether its file is still open. */
  function CommitCode(f: Files, temp: nat, open: bool, ref: string, faults: Faults): Code {
    if !open || faults.sync then Error
    else if faults.stat then Error
    else if ref in f.data then AlreadyExists
    else if faults.rename || temp !in f.ingest then Error
    else Committed
  }

  function CommitFiles(f: Files, temp: nat, open: bool, ref: string, faults: Faults): Files {
    var committed := CommitCode(f, temp, open, ref, faults) == Committed;
    RemoveTemp(if committed then Rename(f, temp, ref) else f, temp, faults.remove)
  }

  // ---------------------------------------------------------------- the store as objects

  class Store {
    var files: Files

    constructor ()
      ensures files == Files(map[], map[], map[])
    {
      files := Files(map[], map[], map[]);
    }

    /** CreateTemp fails, or picks a name that no file in the ingest directory has; any inode not in use. */
    method OpenWriter(temp: nat, inode: nat, fault: bool) returns (w: Option<Writer>)
      requires temp !in files.ingest && inode !in files.blob
      modifies this
      ensures w.None? <==> fault
      ensures w.None? ==> files == old(files)
      ensures w.Some? ==>
                && fresh(w.value) && w.value.store == this && w.value.open
                && w.value.temp == temp && w.value.inode == inode
                && files == Create(old(files), temp, inode)
    {
      if fault {
        return None;
      }
      files := Create(files, temp, inode);
      var x := new Writer(this, temp, inode);
      w := Some(x);
    }

    /** A handle on the file the ref names now; an error, also of stat or open on an existing ref, is None. */
    method OpenReader(ref: string, fault: bool) returns (r: Option<Reader>)
      ensures r.Some? <==> !fault && Read(files, ref).Some?
      ensures r.Some? ==> r.value.store == this && r.value.Contents() == Read(files, ref)
    {
      if fault || ref !in files.data || files.data[ref] !in files.blob {
        return None;
      }
      var x := new Reader(this, files.data[ref]);
      r := Some(x);
    }

    /** Deleting a ref that does not exist succeeds. */
    method Delete(ref: string, statFault: bool, removeFault: bool) returns (ok: bool)
      modifies this
      ensures ok ==> files == old(files).(data := old(files).data - {ref}) && Read(files, ref) == None
      ensures !ok ==> files == old(files)
      ensures ok <==> !statFault && (ref in old(files).data ==> !removeFault)
    {
      if statFault {
        return false;
      }
      if ref !in files.data {
        assert files.data - {ref} == files.data;
        return true;
      }
      if removeFault {
        return false;
      }
      files := files.(data := files.data - {ref});
      ok := true;
    }
  }

  /** An open file: it stays readable whatever happens to its name, and is read without the store's lock. */
  class Reader {
    const store: Store
    const inode: nat

    constructor (store: Store, inode: nat)
      ensures this.store == store && this.inode == inode
    {
      this.store, this.inode := store, inode;
    }

    function Contents(): Option<Bytes>
      reads store
    {
      if inode in store.files.blob then Some(store.files.blob[inode]) else None
    }
  }

  class Writer {
    const store: Store
    const temp: nat
    const inode: nat
    var open: bool

    constructor (store: Store, temp: nat, inode: nat)
      ensures this.store == store && this.temp == temp && this.inode == inode && open
    {
      this.store, this.temp, this.inode, open := store, temp, inode, true;
    }

    /** A write can stop short: only the first n bytes arrive. */
    method Write(data: Bytes, n: nat) returns (ok: bool)
      requires n <= |data|
      modifies store
      ensures ok <==> open && n == |data|
      ensures store.files == if open then Extend(old(store.files), inode, data[..n]) else old(store.files)
    {
      ok := open && n == |data|;
      if open {
        store.files := Extend(store.files, inode, data[..n]);
      }
    }

    /** Closing twice, or after a commit, finds no file to remove and is no error. */
    method Close(removeFault: bool) returns (ok: bool)
      modifies this, store
      ensures !open && store.files == RemoveTemp(old(store.files), temp, removeFault)
      ensures ok <==> !removeFault || temp !in old(store.files).ingest
    {
      open := false;
      ok := !removeFault || temp !in store.files.ingest;
      store.files := RemoveTemp(store.files, temp, removeFault);
    }

    method Commit(ref: string, faults: Faults) returns (code: Code)
      modifies this, store
      ensures code == CommitCode(old(store.files), temp, old(open), ref, faults)
      ensures store.files == CommitFiles(old(store.files), temp, old(open), ref, faults)
      ensures !open
    {
      if !open || faults.sync || faults.stat {
        code := Error;
      } else if ref in store.files.data {
        code := AlreadyExists;
      } else if faults.rename || temp !in store.files.ingest {
        code := Error;
      } else {
        store.files := Rename(store.files, temp, ref);
        code := Committed;
      }
      var _ := Close(faults.remove);
    }
  }

  // ---------------------------------------------------------------- every interleaving of writers

  /** A live writer: its temporary name, its file, whether it is open, and what it has written. */
  datatype Handle = Handle(temp: nat, inode: nat, open: bool, written: Bytes)

  datatype State = State(files: Files, writers: map<nat, Handle>)

  const EMPTY := State(Files(map[], map[], map[]), map[])

  datatype Op =
    | OpenWriter(id: nat, temp: nat, inode: nat)
    | Write(id: nat, bytes: Bytes)
    | Commit(id: nat, ref: string, faults: Faults)
    | Close(id: nat, removeFault: bool)
    | Forget(id: nat)        // the handler that owned the writer is gone; Close came first
    | Crash                  // the process dies: files stay, writers do not
    | Delete(ref: string)

  /**
   `reuse` says whether CreateTemp may pick the name of a writer that is still live (its file
   having been renamed or removed already). The name generator makes that improbable, not impossible.
   */
  predicate Enabled(s: State, op: Op, reuse: bool) {
    match op
    case OpenWriter(id, temp, inode) =>
      && id !in s.writers && temp !in s.files.ingest && inode !in s.files.blob
      && (reuse || forall j :: j in s.writers ==> s.writers[j].temp != temp)
    case Write(id, _) => id in s.writers && s.writers[id].open
    case Commit(id, _, _) => id in s.writers
    case Close(id, _) => id in s.writers
    case Forget(id) => id in s.writers && !s.writers[id].open
    case Crash => true
    case Delete(_) => true
  }

  function Apply(s: State, op: Op): State
    requires Enabled(s, op, true)
  {
    match op
    case OpenWriter(id, temp, inode) =>
      State(Create(s.files, temp, inode), s.writers[id := Handle(temp, inode, true, [])])
    case Write(id, bytes) =>
      var w := s.writers[id];
      State(Extend(s.files, w.inode, bytes), s.writers[id := w.(written := w.written + bytes)])
    case Commit(id, ref, faults) =>
      var w := s.writers[id];
      State(CommitFiles(s.files, w.temp, w.open, ref, faults), s.writers[id := w.(open := false)])
    case Close(id, fault) =>
      var w := s.writers[id];
      State(RemoveTemp(s.files, w.temp, fault), s.writers[id := w.(open := false)])
    case Forget(id) => s.(writers := s.writers - {id})
    case Crash => s.(writers := map[])
    case Delete(ref) => s.(files := s.files.(data := s.files.data - {ref}))
  }

  ghost predicate FilesOk(f: Files) {
    && (forall r :: r in f.data ==> f.data[r] in f.blob)
    && (forall t :: t in f.ingest ==> f.ingest[t] in f.blob)
  }

  /** An open file has its temporary name, is committed under no ref, and holds what was written. */
  ghost predicate WriterOk(f: Files, w: Handle) {
    && w.inode in f.blob
    && (w.open ==> w.temp in f.ingest && f.blob[w.inode] == w.written)
    && (w.open ==> forall r :: r in f.data ==> f.data[r] != w.inode)
    && (w.temp in f.ingest ==> f.ingest[w.temp] == w.inode)
  }

  /** No two writers share a name or a file. */
  ghost predicate Unshared(ws: map<nat, Handle>) {
    forall i, j :: i in ws && j in ws && i != j ==> ws[i].temp != ws[j].temp && ws[i].inode != ws[j].inode
  }

  ghost predicate Inv(s: State) {
    FilesOk(s.files) && Unshared(s.writers) && forall i :: i in s.writers ==> WriterOk(s.files, s.writers[i])
  }

  lemma InvStep(s: State, op: Op)
    requires Inv(s) && Enabled(s, op, false)
    ensures Enabled(s, op, true) && Inv(Apply(s, op))
  {
    match op
    case OpenWriter(id, temp, inode) => InvOpen(s, id, temp, inode);
    case Write(id, bytes) => InvWrite(s, id, bytes);
    case Commit(id, ref, faults) => InvCommit(s, id, ref, faults);
    case Close(id, fault) => InvClose(s, id, fault);
    case _ =>
  }

  lemma InvOpen(s: State, id: nat, temp: nat, inode: nat)
    requires Inv(s) && Enabled(s, OpenWriter(id, temp, inode), false)
    ensures Inv(Apply(s, OpenWriter(id, temp, inode)))
  {
    var t := Apply(s, OpenWriter(id, temp, inode));
    forall i | i in s.writers ensures WriterOk(t.files, s.writers[i]) {
      assert WriterOk(s.files, s.writers[i]);
    }
    assert WriterOk(t.files, t.writers[id]);
  }

  lemma InvWrite(s: State, id: nat, bytes: Bytes)
    requires Inv(s) && Enabled(s, Write(id, bytes), false)
    ensures Inv(Apply(s, Write(id, bytes)))
  {
    var t := Apply(s, Write(id, bytes));
    assert WriterOk(s.files, s.writers[id]);
    forall i | i in s.writers && i != id ensures WriterOk(t.files, s.writers[i]) {
      assert WriterOk(s.files, s.writers[i]);
    }
  }

  lemma InvClose(s: State, id: nat, fault: bool)
    requires Inv(s) && id in s.writers
    ensures Inv(Apply(s, Close(id, fault)))
  {
    var t := Apply(s, Close(id, fault));
    forall i | i in s.writers ensures WriterOk(t.files, t.writers[i]) {
      assert WriterOk(s.files, s.writers[i]);
    }
  }

  lemma InvCommit(s: State, id: nat, ref: string, faults: Faults)
    requires Inv(s) && id in s.writers
    ensures Inv(Apply(s, Commit(id, ref, faults)))
  {
    var w, t := s.writers[id], Apply(s, Commit(id, ref, faults));
    assert WriterOk(s.files, w);
    assert FilesOk(t.files);
    forall i | i in s.writers ensures WriterOk(t.files, t.writers[i]) {
      assert WriterOk(s.files, s.writers[i]);
    }
  }

  /** Commit succeeds for a ref exactly once at a time, and then a reader sees what that writer wrote. */
  lemma CommitIsExact(s: State, id: nat, ref: string, faults: Faults)
    requires Inv(s) && id in s.writers
    ensures var w := s.writers[id];
            var t := Apply(s, Commit(id, ref, faults));
            var code := CommitCode(s.files, w.temp, w.open, ref, faults);
            && (code == Committed ==> Read(s.files, ref) == None && Read(t.files, ref) == Some(w.written))
            && (code == AlreadyExists ==> Read(s.files, ref).Some?)
            && (code != Committed ==> forall r :: Read(t.files, r) == Read(s.files, r))
            && (forall r :: r != ref ==> Read(t.files, r) == Read(s.files, r))
  {
  }

  // ---------------------------------------------------------------- temporary files

  /** An open writer has the temporary name x. */
  ghost predicate Uses(ws: map<nat, Handle>, x: nat) {
    exists i :: i in ws && ws[i].open && ws[i].temp == x
  }

  /** The temporary files are those of the open writers. */
  ghost predicate Tidy(s: State) {
    forall x :: x in s.files.ingest <==> Uses(s.writers, x)
  }

  /** The removal of a temporary file does not fail, and the process does not die. */
  predicate Orderly(op: Op) {
    match op
    case Commit(_, _, faults) => !faults.remove
    case Close(_, removeFault) => !removeFault
    case Crash => false
    case _ => true
  }

  /** The writer of the operation goes on with its name, or closes and its name is free. */
  lemma TidyMove(s: State, t: State, id: nat, w: Handle, x: nat)
    requires Inv(s) && Tidy(s) && id in s.writers && t.writers == s.writers[id := w] && w.temp == s.writers[id].temp
    requires t.files.ingest == s.files.ingest - (if w.open then {} else {w.temp})
    requires w.open ==> s.writers[id].open
    ensures x in t.files.ingest <==> Uses(t.writers, x)
  {
    if Uses(s.writers, x) {
      var i :| i in s.writers && s.writers[i].open && s.writers[i].temp == x;
      if i != id {
        assert t.writers[i] == s.writers[i];
      } else if w.open {
        assert t.writers[id].open && t.writers[id].temp == x;
      }
    }
    if Uses(t.writers, x) {
      var j :| j in t.writers && t.writers[j].open && t.writers[j].temp == x;
      assert j in s.writers && s.writers[j].open && s.writers[j].temp == x;
      assert Uses(s.writers, x) && (j == id ==> w.open);
    }
  }

  lemma TidyOpen(s: State, id: nat, temp: nat, inode: nat, x: nat)
    requires Tidy(s) && Enabled(s, OpenWriter(id, temp, inode), false)
    ensures var t := Apply(s, OpenWriter(id, temp, inode)); x in t.files.ingest <==> Uses(t.writers, x)
  {
    var t := Apply(s, OpenWriter(id, temp, inode));
    assert id in t.writers && t.writers[id].open && t.writers[id].temp == temp;
    if Uses(s.writers, x) {
      var i :| i in s.writers && s.writers[i].open && s.writers[i].temp == x;
      assert t.writers[i] == s.writers[i];
    }
    if Uses(t.writers, x) && x != temp {
      var j :| j in t.writers && t.writers[j].open && t.writers[j].temp == x;
      assert j in s.writers;
    }
  }

  lemma TidyForget(s: State, id: nat, x: nat)
    requires Tidy(s) && Enabled(s, Forget(id), false)
    ensures var t := Apply(s, Forget(id)); x in t.files.ingest <==> Uses(t.writers, x)
  {
    var t := Apply(s, Forget(id));
    if Uses(s.writers, x) {
      var i :| i in s.writers && s.writers[i].open && s.writers[i].temp == x;
      assert i in t.writers;
    }
  }

  lemma TidyStep(s: State, op: Op)
    requires Inv(s) && Tidy(s) && Enabled(s, op, false) && Orderly(op)
    ensures Enabled(s, op, true) && Tidy(Apply(s, op))
  {
    var t := Apply(s, op);
    forall x ensures x in t.files.ingest <==> Uses(t.writers, x) {
      match op
      case OpenWriter(id, temp, inode) => TidyOpen(s, id, temp, inode, x);
      case Write(id, _) => TidyMove(s, t, id, t.writers[id], x);
      case Commit(id, _, _) => TidyMove(s, t, id, t.writers[id], x);
      case Close(id, _) => TidyMove(s, t, id, t.writers[id], x);
      case Forget(id) => TidyForget(s, id, x);
      case _ =>
    }
  }

  /** Over every such interleaving no temporary file is left behind: there are only those of open writers. */
  lemma {:induction false} NothingLeftBehind(s: State, ops: seq<Op>, t: State)
    requires Inv(s) && Tidy(s) && Runs(s, ops, t, false) && forall op :: op in ops ==> Orderly(op)
    ensures Tidy(t)
    decreases |ops|
  {
    if ops == [] {
    } else {
      assert ops[0] in ops;
      InvStep(s, ops[0]);
      TidyStep(s, ops[0]);
      NothingLeftBehind(Apply(s, ops[0]), ops[1..], t);
    }
  }

  /** No other operation but Delete changes what any reader sees. */
  lemma OthersInvisible(s: State, op: Op, r: string)
    requires Inv(s) && Enabled(s, op, false) && !op.Commit?
    ensures Enabled(s, op, true) && (op != Delete(r) ==> Read(Apply(s, op).files, r) == Read(s.files, r))
  {
  }

  ghost predicate Runs(s: State, ops: seq<Op>, t: State, reuse: bool)
    decreases |ops|
  {
    if ops == [] then s == t
    else Enabled(s, ops[0], reuse) && Enabled(s, ops[0], true) && Runs(Apply(s, ops[0]), ops[1..], t, reuse)
  }

  lemma {:induction false} InvRuns(s: State, ops: seq<Op>, t: State)
    requires Inv(s) && Runs(s, ops, t, false)
    ensures Inv(t)
    decreases |ops|
  {
    if ops == [] {
    } else {
      InvStep(s, ops[0]);
      InvRuns(Apply(s, ops[0]), ops[1..], t);
    }
  }

  lemma {:induction false} KeptUntilDeleted(s: State, ops: seq<Op>, t: State, ref: string)
    requires Inv(s) && Runs(s, ops, t, false)
    requires Read(s.files, ref).Some? && forall k :: 0 <= k < |ops| ==> ops[k] != Delete(ref)
    ensures Read(t.files, ref) == Read(s.files, ref)
    decreases |ops|
  {
    if ops == [] {
    } else {
      InvStep(s, ops[0]);
      if ops[0].Commit? {
        CommitIsExact(s, ops[0].id, ops[0].ref, ops[0].faults);
      } else {
        OthersInvisible(s, ops[0], ref);
      }
      forall k | 0 <= k < |ops[1..]| ensures ops[1..][k] != Delete(ref) {
        assert ops[1..][k] == ops[k + 1];
      }
      KeptUntilDeleted(Apply(s, ops[0]), ops[1..], t, ref);
    }
  }

  ghost predicate Reachable(t: State, reuse: bool) {
    exists ops :: Runs(EMPTY, ops, t, reuse)
  }

  lemma ReachableInv(s: State)
    requires Reachable(s, false)
    ensures Inv(s)
  {
    var ops :| Runs(EMPTY, ops, s, false);
    InvRuns(EMPTY, ops, s);
  }

  /** Across every interleaving of writers, a committed value stays until its ref is deleted. */
  lemma WriteOnce(s: State, ops: seq<Op>, t: State, ref: string)
    requires Reachable(s, false) && Runs(s, ops, t, false)
    requires Read(s.files, ref).Some? && forall k :: 0 <= k < |ops| ==> ops[k] != Delete(ref)
    ensures Read(t.files, ref) == Read(s.files, ref)
  {
    ReachableInv(s);
    KeptUntilDeleted(s, ops, t, ref);
  }

  /** A file that no open writer writes to. */
  ghost predicate Frozen(s: State, inode: nat) {
    inode in s.files.blob && forall i :: i in s.writers && s.writers[i].open ==> s.writers[i].inode != inode
  }

  lemma FrozenStep(s: State, op: Op, inode: nat)
    requires Frozen(s, inode) && Enabled(s, op, true)
    ensures Frozen(Apply(s, op), inode) && Apply(s, op).files.blob[inode] == s.files.blob[inode]
  {
  }

  lemma {:induction false} FrozenRuns(s: State, ops: seq<Op>, t: State, inode: nat, reuse: bool)
    requires Frozen(s, inode) && Runs(s, ops, t, reuse)
    ensures Frozen(t, inode) && t.files.blob[inode] == s.files.blob[inode]
    decreases |ops|
  {
    if ops == [] {
    } else {
      FrozenStep(s, ops[0], inode);
      FrozenRuns(Apply(s, ops[0]), ops[1..], t, inode, reuse);
    }
  }

  /** An open reader returns the committed bytes over every continuation, also after Delete and a new commit. */
  lemma ReaderIsStable(s: State, ops: seq<Op>, t: State, ref: string)
    requires Reachable(s, false) && Runs(s, ops, t, false) && ref in s.files.data
    ensures var inode := s.files.data[ref];
            inode in t.files.blob && Read(s.files, ref) == Some(t.files.blob[inode])
  {
    ReachableInv(s);
    forall i | i in s.writers && s.writers[i].open ensures s.writers[i].inode != s.files.data[ref] {
      assert WriterOk(s.files, s.writers[i]);
    }
    FrozenRuns(s, ops, t, s.files.data[ref], false);
  }

  // ---------------------------------------------------------------- a ref can be replaced

  lemma Unused(ks: set<nat>) returns (n: nat)
    ensures n !in ks
  {
    n := 0;
    var todo := ks;
    while todo != {}
      invariant forall k :: k in ks && k !in todo ==> k < n
      decreases todo
    {
      var k :| k in todo;
      todo := todo - {k};
      n := if k < n then n else k + 1;
    }
  }

  lemma CanOpenAndWrite(s: State, bytes: Bytes) returns (ops: seq<Op>, t: State)
    requires Inv(s) && s.writers == map[]
    ensures Runs(s, ops, t, false) && Inv(t) && t.writers.Keys == {0} && t.files.data == s.files.data
    ensures t.writers[0].open && t.writers[0].written == bytes && forall r :: Read(t.files, r) == Read(s.files, r)
  {
    var temp := Unused(s.files.ingest.Keys);
    var inode := Unused(s.files.blob.Keys);
    var open, write := OpenWriter(0, temp, inode), Write(0, bytes);
    InvStep(s, open);
    var m := Apply(s, open);
    InvStep(m, write);
    t := Apply(m, write);
    forall r ensures Read(t.files, r) == Read(s.files, r) {
      OthersInvisible(s, open, r);
      OthersInvisible(m, write, r);
    }
    assert [] + bytes == bytes;
    ops := [open, write];
    assert ops[1..] == [write] && [write][1..] == [];
    assert Runs(m, ops[1..], t, false);
  }

  lemma CanDelete(s: State, ref: string) returns (t: State)
    requires Inv(s)
    ensures Runs(s, [Crash, Delete(ref)], t, false) && Inv(t) && t.writers == map[] && ref !in t.files.data
    ensures forall r :: r != ref ==> Read(t.files, r) == Read(s.files, r)
  {
    var m := Apply(s, Crash);
    t := Apply(m, Delete(ref));
    InvStep(s, Crash);
    InvStep(m, Delete(ref));
    assert [Crash, Delete(ref)][1..] == [Delete(ref)] && [Delete(ref)][1..] == [];
    assert Runs(m, [Delete(ref)], t, false);
  }

  lemma CanCommit(s: State, ref: string) returns (t: State)
    requires Inv(s) && s.writers.Keys == {0} && s.writers[0].open && ref !in s.files.data
    ensures Runs(s, [Commit(0, ref, NO_FAULTS), Forget(0)], t, false) && t.writers == map[]
    ensures Read(t.files, ref) == Some(s.writers[0].written)
    ensures forall r :: r != ref ==> Read(t.files, r) == Read(s.files, r)
  {
    var commit := Commit(0, ref, NO_FAULTS);
    CommitIsExact(s, 0, ref, NO_FAULTS);
    CodeIsVerdict(s, 0, ref, NO_FAULTS);
    var m := Apply(s, commit);
    t := Apply(m, Forget(0));
    assert [commit, Forget(0)][1..] == [Forget(0)] && [Forget(0)][1..] == [];
    assert Runs(m, [Forget(0)], t, false);
  }

  /**
   After a restart, whatever was going on, a ref can be deleted and committed anew with any value;
   no other ref changes, and no writer stays.
   */
  lemma CanReplace(s: State, ref: string, bytes: Bytes) returns (ops: seq<Op>, t: State)
    requires Reachable(s, false)
    ensures [Crash, Delete(ref)] <= ops && Runs(s, ops, t, false)
    ensures t.writers == map[] && Read(t.files, ref) == Some(bytes)
    ensures forall r :: r != ref ==> Read(t.files, r) == Read(s.files, r)
  {
    ReachableInv(s);
    var commit := [Commit(0, ref, NO_FAULTS), Forget(0)];
    var deleted := CanDelete(s, ref);
    var write, written := CanOpenAndWrite(deleted, bytes);
    t := CanCommit(written, ref);
    RunsConcat(deleted, write, written, commit, t, false);
    RunsConcat(s, [Crash, Delete(ref)], deleted, write + commit, t, false);
    ops := [Crash, Delete(ref)] + (write + commit);
  }

  lemma {:induction false} RunsConcat(s: State, xs: seq<Op>, m: State, ys: seq<Op>, t: State, reuse: bool)
    requires Runs(s, xs, m, reuse) && Runs(m, ys, t, reuse)
    ensures Runs(s, xs + ys, t, reuse)
    decreases |xs|
  {
    if xs == [] {
      assert xs + ys == ys;
    } else {
      assert (xs + ys)[1..] == xs[1..] + ys;
      RunsConcat(Apply(s, xs[0]), xs[1..], m, ys, t, reuse);
    }
  }

  // ---------------------------------------------------------------- the write-once map it implements

  datatype Session = Session(open: bool, written: Bytes)

  /** Refs with their values, and what every writer has written: no files, no names, no inodes. */
  datatype WriteOnceMap = WriteOnceMap(values: map<string, Bytes>, sessions: map<nat, Session>)

  /** The verdict on a commit, from the abstract state alone. */
  function Verdict(m: WriteOnceMap, id: nat, ref: string, faults: Faults): Code {
    if id !in m.sessions || !m.sessions[id].open || faults.sync || faults.stat then Error
    else if ref in m.values then AlreadyExists
    else if faults.rename then Error
    else Committed
  }

  function MapStep(m: WriteOnceMap, op: Op): WriteOnceMap {
    match op
    case OpenWriter(id, _, _) => m.(sessions := m.sessions[id := Session(true, [])])
    case Write(id, bytes) =>
      if id in m.sessions then m.(sessions := m.sessions[id := Session(true, m.sessions[id].written + bytes)]) else m
    case Commit(id, ref, faults) =>
      if id !in m.sessions then m
      else
        var w := m.sessions[id];
        WriteOnceMap(if Verdict(m, id, ref, faults) == Committed then m.values[ref := w.written] else m.values,
                     m.sessions[id := w.(open := false)])
    case Close(id, _) =>
      if id in m.sessions then m.(sessions := m.sessions[id := m.sessions[id].(open := false)]) else m
    case Forget(id) => m.(sessions := m.sessions - {id})
    case Crash => m.(sessions := map[])
    case Delete(ref) => m.(values := m.values - {ref})
  }

  function MapRun(m: WriteOnceMap, ops: seq<Op>): WriteOnceMap
    decreases |ops|
  {
    if ops == [] then m else MapRun(MapStep(m, ops[0]), ops[1..])
  }

  /** What the callers of Commit are told over a run, by the map ... */
  function Verdicts(m: WriteOnceMap, ops: seq<Op>): seq<Code>
    decreases |ops|
  {
    if ops == [] then []
    else
      (if ops[0].Commit? then [Verdict(m, ops[0].id, ops[0].ref, ops[0].faults)] else [])
      + Verdicts(MapStep(m, ops[0]), ops[1..])
  }

  /** ... and by the store. */
  function Codes(s: State, ops: seq<Op>): seq<Code>
    decreases |ops|
  {
    if ops == [] || !Enabled(s, ops[0], true) then []
    else
      (if ops[0].Commit? then [CodeOf(s, ops[0].id, ops[0].ref, ops[0].faults)] else [])
      + Codes(Apply(s, ops[0]), ops[1..])
  }

  function CodeOf(s: State, id: nat, ref: string, faults: Faults): Code
    requires id in s.writers
  {
    CommitCode(s.files, s.writers[id].temp, s.writers[id].open, ref, faults)
  }

  function View(s: State): WriteOnceMap {
    WriteOnceMap(map r | r in s.files.data && s.files.data[r] in s.files.blob :: s.files.blob[s.files.data[r]],
                 map i | i in s.writers :: Session(s.writers[i].open, s.writers[i].written))
  }

  function Lookup(m: map<string, Bytes>, r: string): Option<Bytes> {
    if r in m then Some(m[r]) else None
  }

  /** Readers see the values of the map. */
  lemma ViewReads(s: State, r: string)
    ensures Read(s.files, r) == Lookup(View(s).values, r)
  {
  }

  lemma SameValues(s: State, values: map<string, Bytes>)
    requires forall r :: Read(s.files, r) == Lookup(values, r)
    ensures View(s).values == values
  {
    forall r ensures Lookup(View(s).values, r) == Lookup(values, r) {
      ViewReads(s, r);
    }
    forall r ensures r in View(s).values <==> r in values {
      assert Lookup(View(s).values, r) == Lookup(values, r);
    }
    forall r | r in values ensures View(s).values[r] == values[r] {
      assert Lookup(View(s).values, r) == Lookup(values, r);
    }
  }

  /** A commit succeeds exactly if its writer is open, no call fails and nobody has committed the ref. */
  lemma CodeIsVerdict(s: State, id: nat, ref: string, faults: Faults)
    requires Inv(s) && id in s.writers
    ensures CodeOf(s, id, ref, faults) == Verdict(View(s), id, ref, faults)
    ensures CodeOf(s, id, ref, faults) == Committed <==>
              s.writers[id].open && !faults.sync && !faults.stat && !faults.rename && Read(s.files, ref).None?
  {
    assert WriterOk(s.files, s.writers[id]);
    ViewReads(s, ref);
  }

  lemma SessionsRefine(s: State, op: Op)
    requires Enabled(s, op, true)
    ensures View(Apply(s, op)).sessions == MapStep(View(s), op).sessions
  {
  }

  lemma ValuesRefine(s: State, op: Op)
    requires Inv(s) && Enabled(s, op, false)
    ensures Enabled(s, op, true) && View(Apply(s, op)).values == MapStep(View(s), op).values
  {
    var t, m := Apply(s, op), MapStep(View(s), op);
    forall r ensures Read(t.files, r) == Lookup(m.values, r) {
      ViewReads(s, r);
      if op.Commit? {
        CodeIsVerdict(s, op.id, op.ref, op.faults);
        CommitIsExact(s, op.id, op.ref, op.faults);
      } else {
        OthersInvisible(s, op, r);
      }
    }
    SameValues(t, m.values);
  }

  lemma {:induction false} RunRefines(s: State, ops: seq<Op>, t: State)
    requires Inv(s) && Runs(s, ops, t, false)
    ensures View(t) == MapRun(View(s), ops) && Codes(s, ops) == Verdicts(View(s), ops)
    decreases |ops|
  {
    if ops == [] {
    } else {
      InvStep(s, ops[0]);
      SessionsRefine(s, ops[0]);
      ValuesRefine(s, ops[0]);
      if ops[0].Commit? {
        CodeIsVerdict(s, ops[0].id, ops[0].ref, ops[0].faults);
      }
      RunRefines(Apply(s, ops[0]), ops[1..], t);
    }
  }

  const EMPTY_MAP := WriteOnceMap(map[], map[])

  /** What readers see after a run, and what committers were told in it, is that of the map. */
  ghost predicate ActsAsMap(ops: seq<Op>, t: State) {
    && Codes(EMPTY, ops) == Verdicts(EMPTY_MAP, ops)
    && forall r :: Read(t.files, r) == Lookup(MapRun(EMPTY_MAP, ops).values, r)
  }

  /** Over every interleaving of writers, the store is a write-once map. */
  lemma Linearizes(ops: seq<Op>, t: State)
    requires Runs(EMPTY, ops, t, false)
    ensures ActsAsMap(ops, t)
  {
    RunRefines(EMPTY, ops, t);
    assert View(EMPTY) == EMPTY_MAP;
    forall r { ViewReads(t, r); }
  }

  // ---------------------------------------------------------------- temporary names that are reused

  lemma {:induction false} RunsAppend(s: State, ops: seq<Op>, t: State, op: Op, reuse: bool)
    requires Runs(s, ops, t, reuse) && Enabled(t, op, reuse) && Enabled(t, op, true)
    ensures Runs(s, ops + [op], Apply(t, op), reuse)
    decreases |ops|
  {
    if ops == [] {
      assert ops + [op] == [op];
      assert Runs(Apply(s, op), [], Apply(t, op), reuse);
    } else {
      assert (ops + [op])[1..] == ops[1..] + [op];
      RunsAppend(Apply(s, ops[0]), ops[1..], t, op, reuse);
    }
  }

  lemma {:induction false} MapRunAppend(m: WriteOnceMap, ops: seq<Op>, op: Op)
    ensures MapRun(m, ops + [op]) == MapStep(MapRun(m, ops), op)
    decreases |ops|
  {
    if ops == [] {
      assert ops + [op] == [op] && [op][1..] == [];
    } else {
      assert (ops + [op])[1..] == ops[1..] + [op];
      MapRunAppend(MapStep(m, ops[0]), ops[1..], op);
    }
  }

  /** One more operation, on the store and on the map. */
  lemma Then(ops: seq<Op>, s: State, m: WriteOnceMap, op: Op) returns (ops': seq<Op>, t: State, m': WriteOnceMap)
    requires Runs(EMPTY, ops, s, true) && m == MapRun(EMPTY_MAP, ops) && Enabled(s, op, true)
    ensures Runs(EMPTY, ops', t, true) && m' == MapRun(EMPTY_MAP, ops')
    ensures t == Apply(s, op) && m' == MapStep(m, op)
  {
    ops', t, m' := ops + [op], Apply(s, op), MapStep(m, op);
    RunsAppend(EMPTY, ops, s, op, true);
    MapRunAppend(EMPTY_MAP, ops, op);
  }

  /** Writer 1 has committed and its name is free again although its handler has yet to close it. */
  lemma NameFreedEarly() returns (ops: seq<Op>, s: State, m: WriteOnceMap)
    ensures Runs(EMPTY, ops, s, true) && m == MapRun(EMPTY_MAP, ops)
    ensures s.writers.Keys == {1} && s.writers[1].temp == 0
    ensures s.files.data.Keys == {"a"} && s.files.ingest.Keys == {} && s.files.blob.Keys == {1}
    ensures "b" !in m.values
  {
    ops, s, m := [], EMPTY, EMPTY_MAP;
    ops, s, m := Then(ops, s, m, OpenWriter(1, 0, 1));
    ops, s, m := Then(ops, s, m, Write(1, [10]));
    ops, s, m := Then(ops, s, m, Commit(1, "a", NO_FAULTS));
  }

  /** Writer 2 takes the freed name, and writer 1's deferred Close removes writer 2's file. */
  lemma NameTakenAndRemoved() returns (ops: seq<Op>, s: State, m: WriteOnceMap)
    ensures Runs(EMPTY, ops, s, true) && m == MapRun(EMPTY_MAP, ops)
    ensures 2 in s.writers && s.writers[2] == Handle(0, 2, true, [20]) && 3 !in s.writers
    ensures s.files.data.Keys == {"a"} && s.files.ingest.Keys == {} && s.files.blob.Keys == {1, 2}
    ensures "b" !in m.values && 2 in m.sessions && m.sessions[2] == Session(true, [20])
  {
    ops, s, m := NameFreedEarly();
    ops, s, m := Then(ops, s, m, OpenWriter(2, 0, 2));
    var bytes: Bytes := [20];
    assert [] + bytes == bytes;
    ops, s, m := Then(ops, s, m, Write(2, bytes));
    ops, s, m := Then(ops, s, m, Close(1, false));
  }

  /**
   If CreateTemp may reuse the name of a live writer, a commit can publish another writer's
   unfinished file: writer 3 takes the name once more, and writer 2 commits writer 3's empty file.
   */
  lemma NameReuseBreaksCommit() returns (ops: seq<Op>, t: State)
    ensures Runs(EMPTY, ops, t, true) && 2 in t.writers && t.writers[2].written == [20]
    ensures Read(t.files, "b") == Some([]) && !ActsAsMap(ops, t)
  {
    var s, m;
    ops, s, m := NameTakenAndRemoved();
    ops, s, m := Then(ops, s, m, OpenWriter(3, 0, 3));
    assert s.files.ingest == map[0 := 3];
    ops, s, m := Then(ops, s, m, Commit(2, "b", NO_FAULTS));
    t := s;
    assert Lookup(m.values, "b") == Some([20]);
  }

  /** The store is a write-once map exactly if names of live temporary files are not reused. */
  lemma LinearizesExactly(reuse: bool)
    ensures (forall ops, t :: Runs(EMPTY, ops, t, reuse) ==> ActsAsMap(ops, t)) <==> !reuse
  {
    if reuse {
      var ops, t := NameReuseBreaksCommit();
    } else {
      forall ops, t | Runs(EMPTY, ops, t, reuse) ensures ActsAsMap(ops, t) {
        Linearizes(ops, t);
      }
    }
  }
}
