/**
 Raw observations and what any report about them has to say. Every layer of aggregation
 (metric, spec results, runner report, group summary) is compared with these definitions.
 */
module Observations {
  import opened Ints
  import opened ErrorStats

  /** One call of an observe method. A failure carries its classified error record. */
  datatype Observation =
    | Received(bytes: Int64)
    | Latency(key: string, seconds: real)
    | Failure(error: ResponseError)

  /** What an int64 counter holds after all of them. */
  function Bytes(obs: seq<Observation>): Int64 {
    if obs == [] then 0
    else Add64(if obs[0].Received? then obs[0].bytes else 0, Bytes(obs[1..]))
  }

  /** The received bytes added up, as integers. */
  function SumBytes(obs: seq<Observation>): int {
    if obs == [] then 0 else (if obs[0].Received? then obs[0].bytes else 0) + SumBytes(obs[1..])
  }

  /** The sum if that fits, and always up to a multiple of the width. */
  predicate IsTotal(b: Int64, obs: seq<Observation>) {
    Congruent(b, SumBytes(obs)) && (FitsInt64(SumBytes(obs)) ==> b == SumBytes(obs))
  }

  lemma {:induction false} BytesAreSum(obs: seq<Observation>)
    ensures IsTotal(Bytes(obs), obs)
  {
    if obs == [] {
    } else {
      BytesAreSum(obs[1..]);
      AddIsSum(if obs[0].Received? then obs[0].bytes else 0, Bytes(obs[1..]), SumBytes(obs[1..]));
    }
  }

  function ErrorsOf(obs: seq<Observation>): seq<ResponseError> {
    if obs == [] then []
    else (if obs[0].Failure? then [obs[0].error] else []) + ErrorsOf(obs[1..])
  }

  function LatenciesOf(obs: seq<Observation>, key: string): seq<real> {
    if obs == [] then []
    else (if obs[0].Latency? && obs[0].key == key then [obs[0].seconds] else []) + LatenciesOf(obs[1..], key)
  }

  function AllLatencies(obs: seq<Observation>): seq<real> {
    if obs == [] then []
    else (if obs[0].Latency? then [obs[0].seconds] else []) + AllLatencies(obs[1..])
  }

  lemma {:induction false} ConcatBytes(a: seq<Observation>, b: seq<Observation>)
    ensures Bytes(a + b) == Add64(Bytes(a), Bytes(b))
  {
    if a == [] {
      assert a + b == b;
    } else {
      assert (a + b)[1..] == a[1..] + b;
      ConcatBytes(a[1..], b);
    }
  }

  lemma {:induction false} ConcatErrors(a: seq<Observation>, b: seq<Observation>)
    ensures ErrorsOf(a + b) == ErrorsOf(a) + ErrorsOf(b)
  {
    if a == [] {
      assert a + b == b;
    } else {
      assert (a + b)[0] == a[0] && (a + b)[1..] == a[1..] + b;
      ConcatErrors(a[1..], b);
      var first := if a[0].Failure? then [a[0].error] else [];
      assert first + (ErrorsOf(a[1..]) + ErrorsOf(b)) == first + ErrorsOf(a[1..]) + ErrorsOf(b);
    }
  }

  lemma {:induction false} ConcatAll(a: seq<Observation>, b: seq<Observation>)
    ensures AllLatencies(a + b) == AllLatencies(a) + AllLatencies(b)
  {
    if a == [] {
      assert a + b == b;
    } else {
      assert (a + b)[0] == a[0] && (a + b)[1..] == a[1..] + b;
      ConcatAll(a[1..], b);
      var first := if a[0].Latency? then [a[0].seconds] else [];
      assert first + (AllLatencies(a[1..]) + AllLatencies(b)) == first + AllLatencies(a[1..]) + AllLatencies(b);
    }
  }

  lemma {:induction false} ConcatLatencies(a: seq<Observation>, b: seq<Observation>, key: string)
    ensures LatenciesOf(a + b, key) == LatenciesOf(a, key) + LatenciesOf(b, key)
  {
    if a == [] {
      assert a + b == b;
    } else {
      assert (a + b)[1..] == a[1..] + b;
      ConcatLatencies(a[1..], b, key);
    }
  }

  lemma ErrorsAppend(h: seq<Observation>, o: Observation)
    ensures ErrorsOf(h + [o]) == ErrorsOf(h) + if o.Failure? then [o.error] else []
  {
    ConcatErrors(h, [o]);
    assert [o][1..] == [];
  }

  lemma BytesAppend(h: seq<Observation>, o: Observation)
    ensures Bytes(h + [o]) == Add64(Bytes(h), if o.Received? then o.bytes else 0)
  {
    ConcatBytes(h, [o]);
    assert [o][1..] == [];
  }

  // ---------------------------------------------------------------- latencies by key

  type Latencies = map<string, seq<real>>

  function Get(m: Latencies, k: string): seq<real> {
    if k in m then m[k] else []
  }

  /** Key-wise concatenation. */
  function Add(a: Latencies, b: Latencies): Latencies {
    map k | k in a.Keys + b.Keys :: Get(a, k) + Get(b, k)
  }

  /** The same when the keys of b in todo have not been looked at yet. */
  function AddSome(a: Latencies, b: Latencies, todo: set<string>): Latencies {
    map k | k in a.Keys + (b.Keys - todo) :: if k in todo then Get(a, k) else Get(a, k) + Get(b, k)
  }

  /** Keys can be taken in any order. */
  lemma AddSomeStep(a: Latencies, b: Latencies, todo: set<string>, k: string)
    requires k in todo && k in b
    ensures var m := AddSome(a, b, todo);
            m[k := Get(m, k) + b[k]] == AddSome(a, b, todo - {k})
  {
  }

  lemma AddSomeEnds(a: Latencies, b: Latencies)
    ensures AddSome(a, b, b.Keys) == a && AddSome(a, b, {}) == Add(a, b)
  {
    forall k | k in a && k !in b ensures Get(a, k) + Get(b, k) == a[k] {
    }
  }

  /** All latencies of all keys, as a bag: what remains when the iteration order of a map is forgotten. */
  ghost function Bag(m: Latencies): multiset<real>
    decreases m.Keys
  {
    if m.Keys == {} then multiset{}
    else
      var k :| k in m.Keys;
      multiset(m[k]) + Bag(m - {k})
  }

  /** The bag can be taken apart at any key. */
  lemma {:induction false} BagAt(m: Latencies, k: string)
    requires k in m
    ensures Bag(m) == multiset(m[k]) + Bag(m - {k})
    decreases m.Keys
  {
    var j :| j in m.Keys && Bag(m) == multiset(m[j]) + Bag(m - {j});
    if j != k {
      BagAt(m - {j}, k);
      BagAt(m - {k}, j);
      assert m - {j} - {k} == m - {k} - {j};
    }
  }

  lemma BagUpdate(m: Latencies, k: string, more: seq<real>)
    ensures Bag(m[k := Get(m, k) + more]) == Bag(m) + multiset(more)
  {
    var n := m[k := Get(m, k) + more];
    BagAt(n, k);
    assert n - {k} == m - {k};
    if k in m {
      BagAt(m, k);
    } else {
      assert m - {k} == m;
    }
  }

  lemma BagExtend(m: Latencies, k: string, values: seq<real>)
    requires k !in m
    ensures Bag(m[k := values]) == Bag(m) + multiset(values)
  {
    BagUpdate(m, k, values);
    assert Get(m, k) + values == values;
  }

  // ---------------------------------------------------------------- the relation

  /** A map of latencies holds exactly the observed ones: same keys, same bag under each key. */
  ghost predicate Holds(m: Latencies, obs: seq<Observation>) {
    forall k :: && (k in m <==> LatenciesOf(obs, k) != [])
                && multiset(Get(m, k)) == multiset(LatenciesOf(obs, k))
  }

  lemma HoldsAdd(a: Latencies, x: seq<Observation>, b: Latencies, y: seq<Observation>)
    requires Holds(a, x) && Holds(b, y)
    ensures Holds(Add(a, b), x + y)
  {
    forall k ensures && (k in Add(a, b) <==> LatenciesOf(x + y, k) != [])
                     && multiset(Get(Add(a, b), k)) == multiset(LatenciesOf(x + y, k))
    {
      ConcatLatencies(x, y, k);
      assert Get(Add(a, b), k) == Get(a, k) + Get(b, k);
    }
  }

  /** Maps with the same keys and the same bag under each key have the same bag. */
  lemma {:induction false} BagSame(m: Latencies, n: Latencies)
    requires m.Keys == n.Keys && forall k :: k in m ==> multiset(m[k]) == multiset(n[k])
    ensures Bag(m) == Bag(n)
    decreases m.Keys
  {
    if m.Keys == {} {
    } else {
      var k :| k in m.Keys;
      BagAt(m, k);
      BagAt(n, k);
      BagSame(m - {k}, n - {k});
    }
  }

  /** File each latency under its key, in the order of observation. */
  function Collect(obs: seq<Observation>): Latencies {
    if obs == [] then map[]
    else
      var m, o := Collect(obs[..|obs| - 1]), obs[|obs| - 1];
      if o.Latency? then m[o.key := Get(m, o.key) + [o.seconds]] else m
  }

  lemma {:induction false} CollectAt(obs: seq<Observation>, k: string)
    ensures Get(Collect(obs), k) == LatenciesOf(obs, k)
    ensures k in Collect(obs) <==> LatenciesOf(obs, k) != []
  {
    if obs == [] {
    } else {
      var init, o := obs[..|obs| - 1], obs[|obs| - 1];
      CollectAt(init, k);
      assert obs == init + [o];
      ConcatLatencies(init, [o], k);
    }
  }

  lemma CollectHolds(obs: seq<Observation>)
    ensures Holds(Collect(obs), obs)
  {
    forall k { CollectAt(obs, k); }
  }

  lemma CollectAppend(init: seq<Observation>, o: Observation)
    ensures var m := Collect(init);
            Collect(init + [o]) == if o.Latency? then m[o.key := Get(m, o.key) + [o.seconds]] else m
    ensures AllLatencies(init + [o]) == AllLatencies(init) + if o.Latency? then [o.seconds] else []
  {
    assert (init + [o])[..|init + [o]| - 1] == init;
    ConcatAll(init, [o]);
    assert [o][1..] == [];
  }

  lemma {:induction false} CollectBag(obs: seq<Observation>)
    ensures Bag(Collect(obs)) == multiset(AllLatencies(obs))
  {
    if obs == [] {
    } else {
      var init, o := obs[..|obs| - 1], obs[|obs| - 1];
      assert obs == init + [o];
      CollectBag(init);
      CollectAppend(init, o);
      if o.Latency? {
        BagUpdate(Collect(init), o.key, [o.seconds]);
      }
    }
  }

  /** The bag over all keys is the bag of all observed latencies. */
  lemma BagIsAll(m: Latencies, obs: seq<Observation>)
    requires Holds(m, obs)
    ensures Bag(m) == multiset(AllLatencies(obs))
  {
    CollectHolds(obs);
    CollectBag(obs);
    var n := Collect(obs);
    forall k ensures (k in m <==> k in n) && multiset(Get(m, k)) == multiset(Get(n, k)) {
      assert k in m <==> LatenciesOf(obs, k) != [];
      assert k in n <==> LatenciesOf(obs, k) != [];
    }
    forall k | k in m ensures k in n && multiset(m[k]) == multiset(n[k]) {
      assert Get(m, k) == m[k];
    }
    BagSame(m, n);
  }
}
