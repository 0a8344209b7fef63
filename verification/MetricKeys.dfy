/** Decimal printing, as `%d` prints a non-negative integer. */
module Decimal {

  function Digit(d: nat): char
    requires d < 10
  {
    "0123456789"[d]
  }

  function Print(n: nat): (s: string)
    ensures s != ""
    ensures forall i :: 0 <= i < |s| ==> '0' <= s[i] <= '9'
  {
    if n < 10 then [Digit(n)] else Print(n / 10) + [Digit(n % 10)]
  }

  function Parse(s: string): nat
    requires forall i :: 0 <= i < |s| ==> '0' <= s[i] <= '9'
  {
    if s == "" then 0 else 10 * Parse(s[..|s| - 1]) + (s[|s| - 1] as int - '0' as int)
  }

  lemma {:induction false} RoundTrip(n: nat)
    ensures Parse(Print(n)) == n
  {
    if n >= 10 {
      RoundTrip(n / 10);
      assert Print(n)[..|Print(n)| - 1] == Print(n / 10);
    } else {
      assert Print(n)[..0] == "";
    }
  }

  lemma Injective(a: nat, b: nat)
    requires Print(a) == Print(b)
    ensures a == b
  {
    RoundTrip(a);
    RoundTrip(b);
  }
}

/**
 Metric keys: object names are unbounded, but MaskedURL hides the last path element of the
 methods that name an object, so a run produces a bounded number of keys.
 */
module MetricKeys {
  import Decimal
  import Strings

  /** The path up to, not including, its last slash (path.Dir of a clean absolute path). */
  function Dir(path: string): string {
    if path == "" || path[|path| - 1] == '/' then path[..if path == "" then 0 else |path| - 1]
    else Dir(path[..|path| - 1])
  }

  /** A suffix without a slash does not change the directory. */
  lemma {:induction false} DirIgnoresSuffix(path: string, suffix: string)
    requires '/' !in suffix
    ensures Dir(path + suffix) == Dir(path)
    decreases |suffix|
  {
    if suffix == "" {
      assert path + suffix == path;
    } else {
      var full := path + suffix;
      assert full[..|full| - 1] == path + suffix[..|suffix| - 1];
      assert full[|full| - 1] == suffix[|suffix| - 1];
      DirIgnoresSuffix(path, suffix[..|suffix| - 1]);
    }
  }

  /** The directory of d/name is d. */
  lemma DirOf(d: string, name: string)
    requires '/' !in name
    ensures Dir(d + "/" + name) == d
  {
    DirIgnoresSuffix(d + "/", name);
    assert (d + "/")[|d + "/"| - 1] == '/' && (d + "/")[..|d|] == d;
  }

  datatype Request = Request(verb: string, path: string, query: string)

  function MaskedURL(r: Request): string {
    (if r.verb in {"DELETE", "PATCH", "PUT"} then Dir(r.path) + "/:name" else r.path) + r.query
  }

  /** The key under which ObserveLatency files a request. */
  function Key(r: Request): string {
    r.verb + " " + MaskedURL(r)
  }

  // ---------------------------------------------------------------- builders

  datatype Resource = Resource(group: string, version: string, namespace: string, resource: string)

  datatype Entry =
    | Fixed(verb: string, path: string, query: string)   // GET, LIST, WATCHLIST, POD_LOG: nothing varies
    | Patch(on: Resource, name: string)
    | Put(on: Resource, name: string)
    | PostDel(on: Resource)

  /** What a call of Build draws: a key in the key space; for POST/DELETE the operation and the object name. */
  datatype Draw = Draw(suffix: nat, delete: bool, timestamp: nat, counter: nat)

  /** AbsPath of clean components. */
  function Path(comps: seq<string>): string {
    if comps == [] then "" else "/" + comps[0] + Path(comps[1..])
  }

  function Comps(r: Resource): seq<string> {
    (if r.group == "" then ["api", r.version] else ["apis", r.group, r.version])
    + (if r.namespace == "" then [] else ["namespaces", r.namespace])
    + [r.resource]
  }

  function Base(r: Resource): string {
    Path(Comps(r))
  }

  function PutBase(r: Resource): string {
    Path(["api", r.version, "namespaces", r.namespace, r.resource])
  }

  ghost predicate Plain(comps: seq<string>) {
    forall i :: 0 <= i < |comps| ==> '/' !in comps[i]
  }

  /** A path tells its components. */
  lemma {:induction false} PathInjective(a: seq<string>, b: seq<string>)
    requires Plain(a) && Plain(b) && Path(a) == Path(b)
    ensures a == b
  {
    if a == [] || b == [] {
    } else {
      assert Path(a)[1..] == a[0] + Path(a[1..]) && Path(b)[1..] == b[0] + Path(b[1..]);
      FirstComponent(a[0], a[1..], b[0], b[1..]);
      PathInjective(a[1..], b[1..]);
      assert a == [a[0]] + a[1..] && b == [b[0]] + b[1..];
    }
  }

  lemma FirstComponent(x: string, a: seq<string>, y: string, b: seq<string>)
    requires '/' !in x && '/' !in y && x + Path(a) == y + Path(b)
    ensures x == y && Path(a) == Path(b)
  {
    var p := if a == [] then "" else a[0] + Path(a[1..]);
    var q := if b == [] then "" else b[0] + Path(b[1..]);
    assert a != [] ==> Path(a) == "/" + p && x + Path(a) == x + "/" + p;
    assert b != [] ==> Path(b) == "/" + q && y + Path(b) == y + "/" + q;
    assert x + "" == x && y + "" == y;
    if a == [] && b == [] {
    } else if a == [] {
      Strings.NoSlash(x, y, q);
    } else if b == [] {
      Strings.NoSlash(y, x, p);
    } else {
      Strings.FirstSlash(x, p, y, q);
    }
  }

  /** Different resources have different paths. */
  lemma BaseInjective(a: Resource, b: Resource)
    requires Plain(Comps(a)) && Plain(Comps(b)) && Base(a) == Base(b)
    ensures a == b
  {
    PathInjective(Comps(a), Comps(b));
    var x, y := Comps(a), Comps(b);
    assert x[0] == (if a.group == "" then "api" else "apis") && y[0] == (if b.group == "" then "api" else "apis");
    assert |"api"| != |"apis"|;
    assert a.group != "" ==> x[1] == a.group && x[2] == a.version;
    assert b.group != "" ==> y[1] == b.group && y[2] == b.version;
    assert a.group == "" ==> x[1] == a.version;
    assert b.group == "" ==> y[1] == b.version;
    assert x[|x| - 1] == a.resource && y[|y| - 1] == b.resource;
    assert a.namespace != "" ==> x[|x| - 2] == a.namespace;
    assert b.namespace != "" ==> y[|y| - 2] == b.namespace;
  }

  function Build(e: Entry, d: Draw): Request {
    match e
    case Fixed(verb, path, query) => Request(verb, path, query)
    case Patch(on, name) => Request("PATCH", Base(on) + "/" + name + "-" + Decimal.Print(d.suffix), "")
    case Put(on, name) => Request("PUT", PutBase(on) + "/" + name + "-" + Decimal.Print(d.suffix), "")
    case PostDel(on) =>
      if d.delete then Request("DELETE", Base(on) + "/" + ObjectName(d.timestamp, d.counter), "")
      else Request("POST", Base(on), "")
  }

  /** The name of a created object: timestamp and counter. */
  function ObjectName(timestamp: nat, counter: nat): string {
    Decimal.Print(timestamp) + "-" + Decimal.Print(counter)
  }

  /** The counter of a builder never repeats a value, so its object names are pairwise distinct. */
  lemma NamesDistinct(t1: nat, c1: nat, t2: nat, c2: nat)
    requires ObjectName(t1, c1) == ObjectName(t2, c2)
    ensures c1 == c2 && t1 == t2
  {
    var n1, n2 := ObjectName(t1, c1), ObjectName(t2, c2);
    var k1, k2 := |Decimal.Print(t1)|, |Decimal.Print(t2)|;
    assert n1[k1] == '-' && n2[k2] == '-';
    assert n1[..k1] == Decimal.Print(t1) && n2[..k2] == Decimal.Print(t2);
    assert n1[k1 + 1..] == Decimal.Print(c1) && n2[k2 + 1..] == Decimal.Print(c2);
    Decimal.Injective(c1, c2);
    Decimal.Injective(t1, t2);
  }

  /** A POST/DELETE entry deletes iff it draws so, and its DELETE requests tell their objects apart. */
  lemma DeleteTellsObject(on: Resource, d: Draw, e: Draw)
    ensures Build(PostDel(on), d).verb == if d.delete then "DELETE" else "POST"
    ensures d.delete && e.delete && Build(PostDel(on), d).path == Build(PostDel(on), e).path ==>
              d.timestamp == e.timestamp && d.counter == e.counter
  {
    var p, x, y := Base(on) + "/", ObjectName(d.timestamp, d.counter), ObjectName(e.timestamp, e.counter);
    if d.delete && e.delete && p + x == p + y {
      assert (p + x)[|p|..] == x && (p + y)[|p|..] == y;
      NamesDistinct(d.timestamp, d.counter, e.timestamp, e.counter);
    }
  }

  // ---------------------------------------------------------------- the bound

  /** What varies between two requests of the same entry and verb is hidden by the mask. */
  lemma MaskHidesSuffix(verb: string, path: string, suffix: string, query: string)
    requires verb in {"DELETE", "PATCH", "PUT"} && '/' !in suffix
    ensures Key(Request(verb, path + suffix, query)) == Key(Request(verb, path, query))
  {
    DirIgnoresSuffix(path, suffix);
  }

  /** The mask keeps the directory and replaces the name. */
  lemma MaskKeepsDir(verb: string, d: string, name: string, query: string)
    requires verb in {"DELETE", "PATCH", "PUT"} && '/' !in name
    ensures Key(Request(verb, d + "/" + name, query)) == verb + " " + d + "/:name" + query
  {
    DirOf(d, name);
    assert verb + " " + (d + "/:name" + query) == verb + " " + d + "/:name" + query;
  }

  /** Requests for objects in different directories are filed under different keys. */
  lemma DirsApart(verb: string, d: string, x: string, e: string, y: string)
    requires verb in {"DELETE", "PATCH", "PUT"} && '/' !in x && '/' !in y && d != e
    ensures Key(Request(verb, d + "/" + x, "")) != Key(Request(verb, e + "/" + y, ""))
  {
    MaskKeepsDir(verb, d, x, "");
    MaskKeepsDir(verb, e, y, "");
    var a, b := verb + " " + d + "/:name" + "", verb + " " + e + "/:name" + "";
    var n := |verb| + 1;
    assert a[n..|a| - 6] == d && b[n..|b| - 6] == e;
  }

  /** All keys an entry can ever produce, written without reference to any draw. */
  function KeysOf(e: Entry): set<string> {
    match e
    case Fixed(verb, path, query) => {Key(Request(verb, path, query))}
    case Patch(on, name) => {Key(Request("PATCH", Base(on) + "/" + name + "-", ""))}
    case Put(on, name) => {Key(Request("PUT", PutBase(on) + "/" + name + "-", ""))}
    case PostDel(on) => {Key(Request("POST", Base(on), "")), Key(Request("DELETE", Base(on) + "/", ""))}
  }

  lemma KeyIgnoresDraw(e: Entry, d: Draw)
    ensures Key(Build(e, d)) in KeysOf(e)
  {
    match e
    case Fixed(_, _, _) =>
    case Patch(on, name) => MaskHidesSuffix("PATCH", Base(on) + "/" + name + "-", Decimal.Print(d.suffix), "");
    case Put(on, name) => MaskHidesSuffix("PUT", PutBase(on) + "/" + name + "-", Decimal.Print(d.suffix), "");
    case PostDel(on) => MaskHidesSuffix("DELETE", Base(on) + "/", ObjectName(d.timestamp, d.counter), "");
  }

  /** Entries that create and delete, or patch, different resources share no key. */
  lemma KeysApart(a: Resource, b: Resource, x: string, y: string)
    requires Plain(Comps(a)) && Plain(Comps(b)) && a != b && '/' !in x && '/' !in y
    ensures KeysOf(PostDel(a)) !! KeysOf(PostDel(b)) && KeysOf(Patch(a, x)) !! KeysOf(Patch(b, y))
  {
    var p, q := Base(a), Base(b);
    assert p != q by {
      if p == q { BaseInjective(a, b); }
    }
    PostDelApart(p, q);
    DirsApart("PATCH", p, x + "-", q, y + "-");
    assert p + "/" + (x + "-") == p + "/" + x + "-" && q + "/" + (y + "-") == q + "/" + y + "-";
  }

  lemma PostDelApart(p: string, q: string)
    requires p != q
    ensures {Key(Request("POST", p, "")), Key(Request("DELETE", p + "/", ""))}
            !! {Key(Request("POST", q, "")), Key(Request("DELETE", q + "/", ""))}
  {
    DirsApart("DELETE", p, "", q, "");
    assert p + "/" + "" == p + "/" && q + "/" + "" == q + "/";
    assert Key(Request("POST", p, ""))[5..] == p && Key(Request("POST", q, ""))[5..] == q;
    assert Key(Request("POST", p, ""))[0] == 'P' && Key(Request("POST", q, ""))[0] == 'P';
    assert Key(Request("DELETE", p + "/", ""))[0] == 'D' && Key(Request("DELETE", q + "/", ""))[0] == 'D';
  }

  function AllKeys(es: seq<Entry>): set<string> {
    if es == [] then {} else KeysOf(es[0]) + AllKeys(es[1..])
  }

  function Budget(es: seq<Entry>): nat {
    if es == [] then 0 else (if es[0].PostDel? then 2 else 1) + Budget(es[1..])
  }

  lemma {:induction false} AllKeysBounded(es: seq<Entry>)
    ensures |AllKeys(es)| <= Budget(es)
    ensures forall i :: 0 <= i < |es| ==> KeysOf(es[i]) <= AllKeys(es)
  {
    if es == [] {
    } else {
      AllKeysBounded(es[1..]);
      var a, b := KeysOf(es[0]), AllKeys(es[1..]);
      assert |a + b| + |a * b| == |a| + |b|;
      assert |a| <= if es[0].PostDel? then 2 else 1;
      assert forall i :: 1 <= i < |es| ==> es[i] == es[1..][i - 1];
    }
  }

  lemma KeysOfSize(e: Entry)
    ensures |KeysOf(e)| == if e.PostDel? then 2 else 1
  {
    if e.PostDel? {
      assert Key(Request("POST", Base(e.on), ""))[0] == 'P' && Key(Request("DELETE", Base(e.on) + "/", ""))[0] == 'D';
    }
  }

  /** The bound is reached by entries that share no keys. */
  lemma {:induction false} AllKeysTight(es: seq<Entry>)
    requires forall i, j :: 0 <= i < j < |es| ==> KeysOf(es[i]) !! KeysOf(es[j])
    ensures |AllKeys(es)| == Budget(es)
    ensures forall k :: k in AllKeys(es) ==> exists i :: 0 <= i < |es| && k in KeysOf(es[i])
  {
    if es == [] {
    } else {
      var rest := es[1..];
      AllKeysTight(rest);
      KeysOfSize(es[0]);
      forall k | k in AllKeys(rest) ensures k !in KeysOf(es[0]) && exists i :: 0 <= i < |es| && k in KeysOf(es[i]) {
        var i :| 0 <= i < |rest| && k in KeysOf(rest[i]);
        assert rest[i] == es[i + 1];
      }
    }
  }

  /** The keys of a run: a sequence of picked entries with whatever was drawn for each. */
  function RunKeys(es: seq<Entry>, run: seq<(nat, Draw)>): set<string>
    requires forall k :: 0 <= k < |run| ==> run[k].0 < |es|
  {
    set k | 0 <= k < |run| :: Key(Build(es[run[k].0], run[k].1))
  }

  lemma Subset(a: set<string>, b: set<string>)
    requires a <= b
    ensures |a| <= |b|
  {
    assert b == a + (b - a);
    assert a !! (b - a);
  }

  /** However long the run, one key per entry, two for a POST/DELETE entry. */
  lemma KeysBounded(es: seq<Entry>, run: seq<(nat, Draw)>)
    requires forall k :: 0 <= k < |run| ==> run[k].0 < |es|
    ensures |RunKeys(es, run)| <= Budget(es)
  {
    AllKeysBounded(es);
    forall k | 0 <= k < |run| ensures Key(Build(es[run[k].0], run[k].1)) in AllKeys(es) {
      KeyIgnoresDraw(es[run[k].0], run[k].1);
    }
    Subset(RunKeys(es, run), AllKeys(es));
  }
}
