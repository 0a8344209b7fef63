/**
 Virtual node pools. A pool is two Helm releases, one for its nodes and one for the controller that
 keeps them ready. Create and delete are sequences of Helm actions, each of which can fail, and a
 client can die between any two. Helm actions are atomic: a failed one changes nothing.
 */
module NodePools {
  import opened Options

  const CONTROLLER_SUFFIX := "-controller"
  const LIFECYCLE_PREFIX := "lifecycle-"
  const LIFECYCLE_CRD := "lifecycle-crd"
  const LIFECYCLE_DEF := "lifecycle-def"

  predicate HasSuffix(s: string, suffix: string) {
    |s| >= |suffix| && s[|s| - |suffix|..] == suffix
  }

  predicate HasPrefix(s: string, prefix: string) {
    |s| >= |prefix| && s[..|prefix|] == prefix
  }

  datatype Config = Config(name: string, count: int, cpu: int, memory: int, maxPods: int)

  predicate Validates(c: Config) {
    c.count > 0 && c.cpu > 0 && c.memory > 0 && c.maxPods > 0 && ValidName(c.name)
  }

  predicate ValidName(name: string) {
    name != "" && !HasSuffix(name, CONTROLLER_SUFFIX)
  }

  /** What is rejected: no nodes, no resources, no pods, no name, or a name that could be that of a controller. */
  lemma ValidatesMeans(c: Config)
    ensures Validates(c) <==>
              && c.count >= 1 && c.cpu >= 1 && c.memory >= 1 && c.maxPods >= 1
              && c.name != "" && !exists pool :: c.name == pool + "-controller"
  {
    SuffixMeans(c.name, "-controller");
  }

  lemma SuffixMeans(s: string, suffix: string)
    ensures HasSuffix(s, suffix) <==> exists p :: s == p + suffix
  {
    if HasSuffix(s, suffix) {
      assert s == s[..|s| - |suffix|] + suffix;
    }
    forall p | s == p + suffix ensures HasSuffix(s, suffix) {
      assert s[|p|..] == suffix;
    }
  }

  function ControllerOf(name: string): string {
    name + CONTROLLER_SUFFIX
  }

  /** Node and controller names never collide, and no two pools share a controller. */
  lemma NamesApart(a: string, b: string)
    requires ValidName(a) && ValidName(b)
    ensures ControllerOf(a) != b && ControllerOf(a) != LIFECYCLE_CRD && ControllerOf(a) != LIFECYCLE_DEF
    ensures ControllerOf(a) == ControllerOf(b) ==> a == b
  {
    assert ControllerOf(a)[|a|..] == CONTROLLER_SUFFIX;
    assert ControllerOf(a)[..|a|] == a && ControllerOf(b)[..|b|] == b;
    assert LIFECYCLE_CRD[2] == 'f' && LIFECYCLE_DEF[2] == 'f' && CONTROLLER_SUFFIX[0] == '-';
  }

  // ---------------------------------------------------------------- one Helm action

  datatype Chart = Nodes | Controller | LifecycleCrd | LifecycleDef

  /** The live releases of the namespace and the chart each was last deployed from. */
  type Releases = map<string, Chart>

  predicate HasNodes(r: Releases, name: string) {
    name in r && r[name] == Nodes
  }

  predicate HasController(r: Releases, name: string) {
    ControllerOf(name) in r && r[ControllerOf(name)] == Controller
  }

  /** What a client does next. The first six are CreateNodepool, the last two DeleteNodepool. */
  datatype Phase =
    | Check | InstallCrd | InstallDef | InstallController | InstallNodes | Cleanup
    | DeleteNodes | DeleteController

  /** The releases after the action of a phase; for Check, `ok` is that Get found the release. */
  function Acted(r: Releases, name: string, phase: Phase, ok: bool): Releases {
    if !ok then r else
      match phase
      case Check => r
      case InstallCrd => r[LIFECYCLE_CRD := LifecycleCrd]
      case InstallDef => r[LIFECYCLE_DEF := LifecycleDef]
      case InstallController => r[ControllerOf(name) := Controller]
      case InstallNodes => r[name := Nodes]
      case Cleanup => r - {ControllerOf(name)}
      case DeleteNodes => r - {name}
      case DeleteController => r - {ControllerOf(name)}
  }

  /** None when the operation returns. */
  function Next(phase: Phase, ok: bool): Option<Phase> {
    match phase
    case Check => if ok then None else Some(InstallCrd)
    case InstallCrd => if ok then Some(InstallDef) else None
    case InstallDef => if ok then Some(InstallController) else None
    case InstallController => if ok then Some(InstallNodes) else None
    case InstallNodes => if ok then None else Some(Cleanup)
    case Cleanup => None
    case DeleteNodes => if ok then Some(DeleteController) else None
    case DeleteController => None
  }

  // ---------------------------------------------------------------- every interleaving of clients

  datatype Client = Client(name: string, phase: Phase)

  datatype State = State(releases: Releases, clients: map<nat, Client>)

  const EMPTY := State(map[], map[])

  datatype Label =
    | StartCreate(id: nat, config: Config)
    | StartDelete(id: nat, name: string)
    | Act(id: nat, ok: bool)
    | Crash(id: nat)

  /**
   accurateGet: the existence check fails only for a release that is not there.
   exclusive: no two operations on the same pool overlap.
   The code ensures neither: it takes every error of Get as absence, and it takes no lock.
   */
  datatype Policy = Policy(accurateGet: bool, exclusive: bool)

  predicate Free(p: Policy, s: State, id: nat, name: string) {
    id !in s.clients && (p.exclusive ==> forall j :: j in s.clients ==> s.clients[j].name != name)
  }

  predicate Enabled(p: Policy, s: State, l: Label) {
    match l
    case StartCreate(id, config) => Validates(config) && Free(p, s, id, config.name)
    case StartDelete(id, name) => ValidName(name) && Free(p, s, id, name)
    case Act(id, ok) =>
      && id in s.clients
      && (s.clients[id].phase == Check ==>
            var there := s.clients[id].name in s.releases;
            (ok ==> there) && (p.accurateGet ==> (there ==> ok)))
    case Crash(id) => id in s.clients
  }

  function Apply(s: State, l: Label): State
    requires !l.StartCreate? && !l.StartDelete? ==> l.id in s.clients
  {
    match l
    case StartCreate(id, config) => s.(clients := s.clients[id := Client(config.name, Check)])
    case StartDelete(id, name) => s.(clients := s.clients[id := Client(name, DeleteNodes)])
    case Act(id, ok) =>
      var c := s.clients[id];
      var next := Next(c.phase, ok);
      State(Acted(s.releases, c.name, c.phase, ok),
            if next.None? then s.clients - {id} else s.clients[id := Client(c.name, next.value)])
    case Crash(id) => s.(clients := s.clients - {id})
  }

  ghost predicate Runs(p: Policy, s: State, ls: seq<Label>, t: State)
    decreases |ls|
  {
    if ls == [] then s == t
    else Enabled(p, s, ls[0]) && Runs(p, Apply(s, ls[0]), ls[1..], t)
  }

  ghost predicate Reachable(p: Policy, t: State) {
    exists ls :: Runs(p, EMPTY, ls, t)
  }

  /** No nodes without the controller that keeps them ready. */
  ghost predicate Safe(r: Releases) {
    forall n :: HasNodes(r, n) ==> HasController(r, n)
  }

  // ---------------------------------------------------------------- charts and names, in every run

  /** A release name tells its chart: controllers have the suffix, lifecycle releases their fixed names. */
  ghost predicate Charts(r: Releases) {
    forall n :: n in r ==>
      && (r[n] == Controller <==> HasSuffix(n, CONTROLLER_SUFFIX))
      && (r[n] == Nodes ==> ValidName(n))
      && (r[n] == LifecycleCrd ==> n == LIFECYCLE_CRD)
      && (r[n] == LifecycleDef ==> n == LIFECYCLE_DEF)
  }

  ghost predicate Named(s: State) {
    Charts(s.releases) && forall i :: i in s.clients ==> ValidName(s.clients[i].name)
  }

  lemma ChartsAct(r: Releases, name: string, phase: Phase, ok: bool)
    requires Charts(r) && ValidName(name)
    ensures Charts(Acted(r, name, phase, ok))
  {
    LifecycleNames();
    assert HasSuffix(ControllerOf(name), CONTROLLER_SUFFIX) by {
      assert ControllerOf(name)[|name|..] == CONTROLLER_SUFFIX;
    }
  }

  lemma LifecycleNames()
    ensures !HasSuffix(LIFECYCLE_CRD, CONTROLLER_SUFFIX) && !HasSuffix(LIFECYCLE_DEF, CONTROLLER_SUFFIX)
  {
    assert LIFECYCLE_CRD[|LIFECYCLE_CRD| - |CONTROLLER_SUFFIX|..][0] == 'f';
    assert LIFECYCLE_DEF[|LIFECYCLE_DEF| - |CONTROLLER_SUFFIX|..][0] == 'f';
  }

  lemma NamedStep(p: Policy, s: State, l: Label)
    requires Named(s) && Enabled(p, s, l)
    ensures Named(Apply(s, l))
  {
    if l.Act? {
      ChartsAct(s.releases, s.clients[l.id].name, s.clients[l.id].phase, l.ok);
    }
  }

  lemma {:induction false} NamedRuns(p: Policy, s: State, ls: seq<Label>, t: State)
    requires Named(s) && Runs(p, s, ls, t)
    ensures Named(t)
    decreases |ls|
  {
    if ls == [] {
    } else {
      NamedStep(p, s, ls[0]);
      NamedRuns(p, Apply(s, ls[0]), ls[1..], t);
    }
  }

  // ---------------------------------------------------------------- listing

  predicate Skipped(name: string) {
    HasSuffix(name, CONTROLLER_SUFFIX) || HasPrefix(name, LIFECYCLE_PREFIX)
  }

  lemma SkippedMeans(name: string)
    ensures Skipped(name) <==>
              (exists pool :: name == pool + "-controller") || (exists rest :: name == "lifecycle-" + rest)
  {
    SuffixMeans(name, "-controller");
    if HasPrefix(name, LIFECYCLE_PREFIX) {
      assert name == "lifecycle-" + name[|LIFECYCLE_PREFIX|..];
    }
    forall rest | name == "lifecycle-" + rest ensures HasPrefix(name, LIFECYCLE_PREFIX) {
      assert name[..|LIFECYCLE_PREFIX|] == LIFECYCLE_PREFIX;
    }
  }

  /** A list without the skipped names, in the same order. */
  function Listed(releases: seq<string>): seq<string> {
    if releases == [] then []
    else Listed(releases[..|releases| - 1]) + (if Skipped(Last(releases)) then [] else [Last(releases)])
  }

  function Last(s: seq<string>): string
    requires s != []
  {
    s[|s| - 1]
  }

  method ListNodepools(releases: seq<string>) returns (res: seq<string>)
    ensures res == Listed(releases)
  {
    res := [];
    for i := 0 to |releases|
      invariant res == Listed(releases[..i])
    {
      assert releases[..i + 1][..i] == releases[..i];
      if Skipped(releases[i]) {
        continue;
      }
      res := res + [releases[i]];
    }
    assert releases[..|releases|] == releases;
  }

  /** Every other name is listed as often as it occurs. */
  lemma {:induction false} ListedCounts(releases: seq<string>, n: string)
    ensures multiset(Listed(releases))[n] == if Skipped(n) then 0 else multiset(releases)[n]
  {
    if releases == [] {
    } else {
      var init, last := releases[..|releases| - 1], Last(releases);
      ListedCounts(init, n);
      assert releases == init + [last];
      assert multiset(releases)[n] == multiset(init)[n] + multiset([last])[n];
      assert Listed(releases) == Listed(init) + if Skipped(last) then [] else [last];
    }
  }

  /** In every run, whatever overlaps or fails: listed iff it is a pool's nodes and not named `lifecycle-`. */
  lemma ListedExactly(p: Policy, s: State, name: string)
    requires Reachable(p, s) && name in s.releases
    ensures !Skipped(name) <==> HasNodes(s.releases, name) && !HasPrefix(name, LIFECYCLE_PREFIX)
  {
    var ls :| Runs(p, EMPTY, ls, s);
    NamedRuns(p, EMPTY, ls, s);
    assert HasPrefix(LIFECYCLE_CRD, LIFECYCLE_PREFIX) && HasPrefix(LIFECYCLE_DEF, LIFECYCLE_PREFIX);
  }

  /** So the listing has every live pool once and nothing else iff no live pool has a `lifecycle-` name. */
  lemma ListingIsExact(p: Policy, s: State, names: seq<string>)
    requires Reachable(p, s) && forall n :: multiset(names)[n] == if n in s.releases then 1 else 0
    ensures (forall n :: multiset(Listed(names))[n] == if HasNodes(s.releases, n) then 1 else 0)
       <==> (forall n :: HasNodes(s.releases, n) ==> !HasPrefix(n, LIFECYCLE_PREFIX))
  {
    forall n
      ensures multiset(Listed(names))[n]
           == if HasNodes(s.releases, n) && !HasPrefix(n, LIFECYCLE_PREFIX) then 1 else 0
    {
      ListedCounts(names, n);
      if n in s.releases {
        ListedExactly(p, s, n);
      }
    }
  }

  // ---------------------------------------------------------------- nodes never without a controller

  /** What a client in its phase relies on. */
  ghost predicate Relies(r: Releases, c: Client) {
    match c.phase
    case InstallCrd | InstallDef | InstallController | Cleanup | DeleteController => !HasNodes(r, c.name)
    case InstallNodes => !HasNodes(r, c.name) && HasController(r, c.name)
    case _ => true
  }

  ghost predicate Inv(s: State) {
    && Safe(s.releases)
    && (forall i :: i in s.clients ==> ValidName(s.clients[i].name) && Relies(s.releases, s.clients[i]))
    && (forall i, j :: i in s.clients && j in s.clients && i != j ==> s.clients[i].name != s.clients[j].name)
  }

  /** An action leaves the controller of every other pool alone, and deploys no nodes there. */
  lemma ActElsewhere(r: Releases, name: string, phase: Phase, ok: bool, n: string)
    requires ValidName(name) && ValidName(n) && n != name
    ensures var t := Acted(r, name, phase, ok);
            (HasNodes(t, n) ==> HasNodes(r, n)) && (HasController(t, n) <==> HasController(r, n))
  {
    NamesApart(name, n);
    NamesApart(n, name);
  }

  /** The action itself keeps nodes with their controller, given what the client relies on. */
  lemma ActHere(r: Releases, c: Client, ok: bool)
    requires ValidName(c.name) && Relies(r, c) && (HasNodes(r, c.name) ==> HasController(r, c.name))
    requires c.phase == Check ==> (ok <==> c.name in r)
    ensures var t := Acted(r, c.name, c.phase, ok);
            && (HasNodes(t, c.name) ==> HasController(t, c.name))
            && (Next(c.phase, ok).Some? ==> Relies(t, Client(c.name, Next(c.phase, ok).value)))
  {
    NamesApart(c.name, c.name);
  }

  lemma InvAct(s: State, id: nat, ok: bool)
    requires Named(s) && Inv(s) && Enabled(Policy(true, true), s, Act(id, ok))
    ensures Inv(Apply(s, Act(id, ok)))
  {
    var c := s.clients[id];
    var t := Apply(s, Act(id, ok));
    ChartsAct(s.releases, c.name, c.phase, ok);
    ActHere(s.releases, c, ok);
    forall n | HasNodes(t.releases, n) ensures HasController(t.releases, n) {
      if n != c.name {
        ActElsewhere(s.releases, c.name, c.phase, ok, n);
      }
    }
    forall i | i in t.clients ensures Relies(t.releases, t.clients[i]) {
      if i != id {
        ActElsewhere(s.releases, c.name, c.phase, ok, s.clients[i].name);
      }
    }
  }

  lemma InvStep(s: State, l: Label)
    requires Named(s) && Inv(s) && Enabled(Policy(true, true), s, l)
    ensures Inv(Apply(s, l))
  {
    if l.Act? {
      InvAct(s, l.id, l.ok);
    }
  }

  lemma {:induction false} InvRuns(s: State, ls: seq<Label>, t: State)
    requires Named(s) && Inv(s) && Runs(Policy(true, true), s, ls, t)
    ensures Inv(t)
    decreases |ls|
  {
    if ls == [] {
    } else {
      NamedStep(Policy(true, true), s, ls[0]);
      InvStep(s, ls[0]);
      InvRuns(Apply(s, ls[0]), ls[1..], t);
    }
  }

  /** Over every run of creates and deletes, with failures and crashes anywhere. */
  lemma NeverWithoutController(s: State)
    requires Reachable(Policy(true, true), s)
    ensures Safe(s.releases)
  {
    var ls :| Runs(Policy(true, true), EMPTY, ls, s);
    InvRuns(EMPTY, ls, s);
  }

  /** The last step of a create or a delete that succeeds delivers, or removes, both releases. */
  lemma LastStepDelivers(s: State, id: nat)
    requires Reachable(Policy(true, true), s) && id in s.clients
    ensures var c := s.clients[id];
            var t := Acted(s.releases, c.name, c.phase, true);
            && (c.phase == InstallNodes ==> HasNodes(t, c.name) && HasController(t, c.name))
            && (c.phase in {Cleanup, DeleteController} ==> !HasNodes(t, c.name) && !HasController(t, c.name))
  {
    var ls :| Runs(Policy(true, true), EMPTY, ls, s);
    InvRuns(EMPTY, ls, s);
    NamesApart(s.clients[id].name, s.clients[id].name);
  }

  // ---------------------------------------------------------------- both assumptions are needed

  lemma {:induction false} RunsAppend(p: Policy, s: State, ls: seq<Label>, t: State, l: Label)
    requires Runs(p, s, ls, t) && Enabled(p, t, l)
    ensures Runs(p, s, ls + [l], Apply(t, l))
    decreases |ls|
  {
    if ls == [] {
      assert ls + [l] == [l];
      assert Runs(p, Apply(s, l), [], Apply(t, l));
    } else {
      assert (ls + [l])[1..] == ls[1..] + [l];
      RunsAppend(p, Apply(s, ls[0]), ls[1..], t, l);
    }
  }

  lemma Then(p: Policy, s: State, l: Label) returns (t: State)
    requires Reachable(p, s) && Enabled(p, s, l)
    ensures Reachable(p, t) && t == Apply(s, l)
  {
    var ls :| Runs(p, EMPTY, ls, s);
    RunsAppend(p, EMPTY, ls, s, l);
    t := Apply(s, l);
  }

  /** A create of a pool that Get does not find. */
  lemma NotFound(p: Policy, s: State, id: nat, config: Config) returns (t: State)
    requires Reachable(p, s) && Enabled(p, s, StartCreate(id, config))
    requires config.name in s.releases ==> !p.accurateGet
    ensures Reachable(p, t) && t == State(s.releases, s.clients[id := Client(config.name, InstallCrd)])
  {
    t := Then(p, s, StartCreate(id, config));
    t := Then(p, t, Act(id, false));
  }

  /** The three releases that are installed before the nodes. */
  lemma Installs(p: Policy, s: State, id: nat) returns (t: State)
    requires Reachable(p, s) && id in s.clients && s.clients[id].phase == InstallCrd
    ensures Reachable(p, t) && t.clients == s.clients[id := Client(s.clients[id].name, InstallNodes)]
    ensures t.releases == s.releases[LIFECYCLE_CRD := LifecycleCrd][LIFECYCLE_DEF := LifecycleDef]
                          [ControllerOf(s.clients[id].name) := Controller]
  {
    t := Then(p, s, Act(id, true));
    t := Then(p, t, Act(id, true));
    t := Then(p, t, Act(id, true));
  }

  /** ... up to the deployment of its nodes. */
  lemma UpToNodes(p: Policy, s: State, id: nat, config: Config) returns (t: State)
    requires Reachable(p, s) && Enabled(p, s, StartCreate(id, config))
    requires config.name in s.releases ==> !p.accurateGet
    ensures Reachable(p, t) && t.clients == s.clients[id := Client(config.name, InstallNodes)]
    ensures HasController(t.releases, config.name)
    ensures forall m :: m in t.releases ==>
              m in s.releases.Keys + {LIFECYCLE_CRD, LIFECYCLE_DEF, ControllerOf(config.name)}
    ensures HasNodes(s.releases, config.name) && !HasPrefix(config.name, LIFECYCLE_PREFIX) ==>
              HasNodes(t.releases, config.name)
  {
    t := NotFound(p, s, id, config);
    t := Installs(p, t, id);
    NamesApart(config.name, config.name);
    assert HasPrefix(LIFECYCLE_CRD, LIFECYCLE_PREFIX) && HasPrefix(LIFECYCLE_DEF, LIFECYCLE_PREFIX);
  }

  const POOL := Config("a", 10, 8, 16, 110)

  /** A client that is killed on the way leaves a controller without nodes behind. */
  lemma CrashLeaks(p: Policy, config: Config) returns (s: State)
    requires Validates(config) && !HasPrefix(config.name, LIFECYCLE_PREFIX)
    ensures Reachable(p, s) && s.clients == map[] && HasController(s.releases, config.name)
    ensures !HasNodes(s.releases, config.name)
  {
    assert Runs(p, EMPTY, [], EMPTY);
    s := UpToNodes(p, EMPTY, 0, config);
    NamesApart(config.name, config.name);
    assert HasPrefix(LIFECYCLE_CRD, LIFECYCLE_PREFIX) && HasPrefix(LIFECYCLE_DEF, LIFECYCLE_PREFIX);
    s := Then(p, s, Crash(0));
  }

  /** A live pool that the listing does not show. */
  lemma LifecyclePoolIsHidden(p: Policy) returns (s: State)
    ensures Reachable(p, s) && HasNodes(s.releases, "lifecycle-a") && Skipped("lifecycle-a")
  {
    var config := POOL.(name := "lifecycle-a");
    assert config.name[..|LIFECYCLE_PREFIX|] == LIFECYCLE_PREFIX;
    assert !HasSuffix(config.name, CONTROLLER_SUFFIX) by {
      assert config.name[|config.name| - |CONTROLLER_SUFFIX|..][0] == 'l';
    }
    assert Runs(p, EMPTY, [], EMPTY);
    s := UpToNodes(p, EMPTY, 0, config);
    s := Then(p, s, Act(0, true));
  }

  // ---------------------------------------------------------------- pools named like a lifecycle release

  /** What clients of other pools do leaves the nodes of pool n in place. */
  ghost predicate KeptByOthers(p: Policy, n: string) {
    forall s, id, ok ::
      Reachable(p, s) && Enabled(p, s, Act(id, ok)) && s.clients[id].name != n && HasNodes(s.releases, n) ==>
        HasNodes(Apply(s, Act(id, ok)).releases, n)
  }

  /** The pool n, alone and idle. */
  lemma LivePool(p: Policy, config: Config) returns (s: State)
    requires Validates(config) && config.name != POOL.name
    ensures Reachable(p, s) && s.clients == map[] && HasNodes(s.releases, config.name) && POOL.name !in s.releases
  {
    assert Runs(p, EMPTY, [], EMPTY);
    s := UpToNodes(p, EMPTY, 0, config);
    s := Then(p, s, Act(0, true));
    assert |ControllerOf(config.name)| > 1;
  }

  /** Creating any other pool replaces the nodes of a pool with one of the two lifecycle names. */
  lemma LifecyclePoolIsReplaced(p: Policy, n: string) returns (s: State, ok: bool)
    requires n == LIFECYCLE_CRD || n == LIFECYCLE_DEF
    ensures Reachable(p, s) && Enabled(p, s, Act(0, ok)) && s.clients[0].name != n
    ensures HasNodes(s.releases, n) && !HasNodes(Apply(s, Act(0, ok)).releases, n)
  {
    LifecycleNames();
    s := LivePool(p, POOL.(name := n));
    assert ValidName(POOL.name);
    s := NotFound(p, s, 0, POOL);
    ok := true;
    if n == LIFECYCLE_DEF {
      s := Then(p, s, Act(0, true));
    }
  }

  /** Operations on other pools keep a live pool, exactly if it is not named like a lifecycle release. */
  lemma KeptByOthersExactly(p: Policy, n: string)
    requires ValidName(n)
    ensures KeptByOthers(p, n) <==> n != LIFECYCLE_CRD && n != LIFECYCLE_DEF
  {
    if n == LIFECYCLE_CRD || n == LIFECYCLE_DEF {
      var s, ok := LifecyclePoolIsReplaced(p, n);
    } else {
      forall s, id, ok
        | Reachable(p, s) && Enabled(p, s, Act(id, ok)) && s.clients[id].name != n && HasNodes(s.releases, n)
        ensures HasNodes(Apply(s, Act(id, ok)).releases, n)
      {
        var ls :| Runs(p, EMPTY, ls, s);
        NamedRuns(p, EMPTY, ls, s);
        NamesApart(s.clients[id].name, n);
      }
    }
  }

  // ---------------------------------------------------------------- nodes without a controller

  /** An error of Get on an existing pool, then a failed upgrade of its nodes: the cleanup takes its controller. */
  lemma GetErrorOrphansNodes(p: Policy) returns (s: State)
    requires !p.accurateGet
    ensures Reachable(p, s) && !Safe(s.releases)
  {
    assert Runs(p, EMPTY, [], EMPTY);
    s := UpToNodes(p, EMPTY, 0, POOL);
    s := Then(p, s, Act(0, true));
    s := UpToNodes(p, s, 0, POOL);
    s := FailAndCleanUp(p, s);
  }

  /** The nodes cannot be deployed, and the cleanup succeeds. */
  lemma FailAndCleanUp(p: Policy, s: State) returns (t: State)
    requires Reachable(p, s) && s.clients == map[0 := Client("a", InstallNodes)] && HasNodes(s.releases, "a")
    ensures Reachable(p, t) && !Safe(t.releases)
  {
    t := Then(p, s, Act(0, false));
    t := Then(p, t, Act(0, true));
    NamesApart("a", "a");
    assert HasNodes(t.releases, "a") && !HasController(t.releases, "a");
  }

  /** A delete of the pool whose create is about to deploy the nodes. */
  lemma DeleteMeanwhile(p: Policy, s: State) returns (t: State)
    requires !p.exclusive && Reachable(p, s) && s.clients == map[0 := Client("a", InstallNodes)]
    ensures Reachable(p, t) && t.clients == s.clients && !HasController(t.releases, "a")
  {
    t := Then(p, s, StartDelete(1, "a"));
    t := Then(p, t, Act(1, true));
    assert t.clients[1] == Client("a", DeleteController);
    t := Then(p, t, Act(1, true));
  }

  /** A delete that runs between the two deployments of a create of the same pool. */
  lemma OverlapOrphansNodes(p: Policy) returns (s: State)
    requires !p.exclusive
    ensures Reachable(p, s) && !Safe(s.releases)
  {
    assert Runs(p, EMPTY, [], EMPTY);
    s := UpToNodes(p, EMPTY, 0, POOL);
    s := DeleteMeanwhile(p, s);
    s := Then(p, s, Act(0, true));
    assert HasNodes(s.releases, "a") && !HasController(s.releases, "a");
  }

  /** Nodes never outlive their controller iff the check is accurate and operations on a pool do not overlap. */
  lemma SafeExactly(p: Policy)
    ensures (forall s :: Reachable(p, s) ==> Safe(s.releases)) <==> p.accurateGet && p.exclusive
  {
    if !p.accurateGet {
      var s := GetErrorOrphansNodes(p);
    } else if !p.exclusive {
      var s := OverlapOrphansNodes(p);
    } else {
      forall s | Reachable(p, s) ensures Safe(s.releases) {
        NeverWithoutController(s);
      }
    }
  }

  // ---------------------------------------------------------------- one client at a time

  /** The actions that fail; for Check, an error of Get, which counts as absence. */
  type Faults = set<Phase>

  function Rank(phase: Phase): nat {
    match phase
    case Check => 5
    case InstallCrd => 4
    case InstallDef => 3
    case InstallController => 2
    case InstallNodes => 1
    case Cleanup => 0
    case DeleteNodes => 1
    case DeleteController => 0
  }

  function Outcome(r: Releases, name: string, phase: Phase, faults: Faults): bool {
    phase !in faults && (phase == Check ==> name in r)
  }

  /** The releases when a client has run from a phase to its return with nobody else at work. */
  function Alone(r: Releases, name: string, phase: Phase, faults: Faults): Releases
    decreases Rank(phase)
  {
    var ok := Outcome(r, name, phase, faults);
    var t := Acted(r, name, phase, ok);
    var next := Next(phase, ok);
    if next.None? then t else Alone(t, name, next.value, faults)
  }

  /** It is one of the runs above. */
  lemma {:induction false} AloneIsARun(p: Policy, s: State, id: nat, faults: Faults) returns (t: State)
    requires Reachable(p, s) && id in s.clients && (p.accurateGet ==> Check !in faults)
    ensures Reachable(p, t) && t.releases == Alone(s.releases, s.clients[id].name, s.clients[id].phase, faults)
    decreases Rank(s.clients[id].phase)
  {
    var c := s.clients[id];
    var ok := Outcome(s.releases, c.name, c.phase, faults);
    t := Then(p, s, Act(id, ok));
    if Next(c.phase, ok).Some? {
      t := AloneIsARun(p, t, id, faults);
    }
  }

  /** A pool is created or deleted as a whole, unless an action fails on the way. */
  lemma AloneDelivers(r: Releases, name: string, faults: Faults)
    requires ValidName(name)
    ensures name !in r && faults !! {InstallCrd, InstallDef, InstallController, InstallNodes} ==>
              var t := Alone(r, name, Check, faults);
              && HasNodes(t, name) && HasController(t, name)
              && LIFECYCLE_CRD in t && LIFECYCLE_DEF in t
              && (name != LIFECYCLE_CRD ==> t[LIFECYCLE_CRD] == LifecycleCrd)
              && (name != LIFECYCLE_DEF ==> t[LIFECYCLE_DEF] == LifecycleDef)
    ensures name !in r && InstallNodes in faults && faults !! {InstallCrd, InstallDef, InstallController, Cleanup} ==>
              var t := Alone(r, name, Check, faults); !HasNodes(t, name) && !HasController(t, name)
    ensures name in r && Check !in faults ==> Alone(r, name, Check, faults) == r
    ensures faults !! {DeleteNodes, DeleteController} ==>
              var t := Alone(r, name, DeleteNodes, faults); !HasNodes(t, name) && !HasController(t, name)
  {
    NamesApart(name, name);
  }

  class Cluster {
    var releases: Releases

    constructor ()
      ensures releases == map[]
    {
      releases := map[];
    }

    /** One Helm action. */
    method Act(name: string, phase: Phase, faults: Faults) returns (ok: bool)
      modifies this
      ensures ok == Outcome(old(releases), name, phase, faults)
      ensures releases == Acted(old(releases), name, phase, ok)
    {
      ok := phase !in faults && (phase == Check ==> name in releases);
      releases := Acted(releases, name, phase, ok);
    }

    method CreateNodepool(config: Config, faults: Faults) returns (ok: bool)
      modifies this
      ensures !Validates(config) ==> !ok && releases == old(releases)
      ensures Validates(config) ==> releases == Alone(old(releases), config.name, Check, faults)
      ensures ok <==> Validates(config) && (config.name in old(releases) ==> Check in faults)
                      && faults !! {InstallCrd, InstallDef, InstallController, InstallNodes}
      ensures ok ==> HasNodes(releases, config.name) && HasController(releases, config.name)
    {
      if !Validates(config) {
        return false;
      }
      var name := config.name;
      NamesApart(name, name);
      var found := Act(name, Check, faults);
      if found {
        return false;
      }
      ok := Act(name, InstallCrd, faults);
      if !ok {
        return;
      }
      ok := Act(name, InstallDef, faults);
      if !ok {
        return;
      }
      ok := Act(name, InstallController, faults);
      if !ok {
        return;
      }
      ok := Act(name, InstallNodes, faults);
      if !ok {
        var _ := Act(name, Cleanup, faults);
      }
    }

    method DeleteNodepool(name: string, faults: Faults) returns (ok: bool)
      modifies this
      ensures !ValidName(name) ==> !ok && releases == old(releases)
      ensures ValidName(name) ==> releases == Alone(old(releases), name, DeleteNodes, faults)
      ensures ok <==> ValidName(name) && faults !! {DeleteNodes, DeleteController}
      ensures ok ==> !HasNodes(releases, name) && !HasController(releases, name)
    {
      if !ValidName(name) {
        return false;
      }
      ok := Act(name, DeleteNodes, faults);
      if !ok {
        return;
      }
      ok := Act(name, DeleteController, faults);
    }
  }
}
