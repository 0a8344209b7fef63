/** Helm values as trees: what merging one tree into another means. */
module Values {
  import opened Options

  /** A value is a scalar (anything that is not a map: number, string, list, null) or a map. */
  datatype Value = Scalar(text: string) | Map(entries: map<string, Value>)

  type Tree = map<string, Value>

  /** applyValues on trees: from wins, except that two maps under one key are merged. */
  function Merge(to: Tree, from: Tree): Tree
    decreases Map(from)
  {
    map k | k in to.Keys + from.Keys ::
      if k !in from then to[k]
      else if k in to && to[k].Map? && from[k].Map? then Map(Merge(to[k].entries, from[k].entries))
      else from[k]
  }

  type Path = seq<string>

  /** The value at a path. */
  function At(t: Tree, p: Path): Option<Value>
    requires p != []
    decreases |p|
  {
    if p[0] !in t then None
    else if |p| == 1 then Some(t[p[0]])
    else if t[p[0]].Map? then At(t[p[0]].entries, p[1..])
    else None
  }

  /** from says something about the path: it binds it, or has a non-map at a proper prefix of it. */
  ghost predicate Overrides(from: Tree, p: Path)
    requires p != []
    decreases |p|
  {
    p[0] in from && (|p| == 1 || from[p[0]].Scalar? || Overrides(from[p[0]].entries, p[1..]))
  }

  /** Overriding, in terms of what is found at the path and its prefixes. */
  lemma {:induction false} OverridesMeans(from: Tree, p: Path)
    requires p != []
    ensures Overrides(from, p) <==>
              At(from, p).Some? || exists n :: 1 <= n < |p| && At(from, p[..n]).Some? && At(from, p[..n]).value.Scalar?
    decreases |p|
  {
    if p[0] in from && |p| > 1 {
      assert p[..1] == [p[0]];
      assert At(from, p[..1]) == Some(from[p[0]]);
      if from[p[0]].Map? {
        var sub, q := from[p[0]].entries, p[1..];
        OverridesMeans(sub, q);
        forall n | 1 <= n < |q| ensures At(from, p[..n + 1]) == At(sub, q[..n]) {
          assert p[..n + 1][1..] == q[..n];
        }
        forall n | 2 <= n < |p| ensures At(from, p[..n]) == At(sub, q[..n - 1]) {
          assert p[..n][1..] == q[..n - 1];
        }
      }
    } else if |p| > 1 {
      forall n | 1 <= n < |p| ensures At(from, p[..n]).None? {
        assert p[..n][0] == p[0];
      }
    }
  }

  /** Every scalar of from is in the result, at its path. */
  lemma {:induction false} MergeKeepsFrom(to: Tree, from: Tree, p: Path)
    requires p != [] && At(from, p).Some? && At(from, p).value.Scalar?
    ensures At(Merge(to, from), p) == At(from, p)
    decreases |p|
  {
    var k := p[0];
    if |p| > 1 && k in to && to[k].Map? {
      MergeKeepsFrom(to[k].entries, from[k].entries, p[1..]);
    }
  }

  /** A scalar of to survives exactly when from does not override its path. */
  lemma {:induction false} MergeKeepsTo(to: Tree, from: Tree, p: Path)
    requires p != [] && At(to, p).Some? && At(to, p).value.Scalar?
    ensures !Overrides(from, p) ==> At(Merge(to, from), p) == At(to, p)
    ensures Overrides(from, p) ==> At(Merge(to, from), p) == At(from, p)
    decreases |p|
  {
    var k := p[0];
    if |p| > 1 && k in from && from[k].Map? {
      MergeKeepsTo(to[k].entries, from[k].entries, p[1..]);
    }
  }

  /** Nothing else is in the result. */
  lemma {:induction false} MergeAddsNothing(to: Tree, from: Tree, p: Path)
    requires p != [] && At(Merge(to, from), p).Some? && At(Merge(to, from), p).value.Scalar?
    ensures At(Merge(to, from), p) == At(from, p) || At(Merge(to, from), p) == At(to, p)
    decreases |p|
  {
    var k := p[0];
    if |p| > 1 && k in from && k in to && from[k].Map? && to[k].Map? {
      MergeAddsNothing(to[k].entries, from[k].entries, p[1..]);
    }
  }

  /** Merging a tree into itself changes nothing. */
  lemma {:induction false} MergeSelf(t: Tree)
    ensures Merge(t, t) == t
    decreases Map(t)
  {
    forall k | k in t && t[k].Map? {
      MergeSelf(t[k].entries);
    }
  }

  /** Applying the same values twice is the same as applying them once. */
  lemma {:induction false} MergeTwice(to: Tree, from: Tree)
    ensures Merge(Merge(to, from), from) == Merge(to, from)
    decreases Map(from)
  {
    var once := Merge(to, from);
    forall k | k in from && from[k].Map?
      ensures once[k].Map? ==> Merge(once[k].entries, from[k].entries) == once[k].entries
    {
      if k in to && to[k].Map? {
        MergeTwice(to[k].entries, from[k].entries);
      } else {
        MergeSelf(from[k].entries);
      }
    }
  }

  /** Every key of a, at every level, is also in c: then a adds nothing below c. */
  ghost predicate Covered(a: Tree, c: Tree)
    decreases Map(a)
  {
    forall k :: k in a ==> k in c && (a[k].Map? && c[k].Map? ==> Covered(a[k].entries, c[k].entries))
  }

  lemma {:induction false} CoveredMeans(a: Tree, c: Tree)
    ensures Merge(a, c) == c <==> Covered(a, c)
    decreases Map(a)
  {
    forall k | k in a && k in c && a[k].Map? && c[k].Map? {
      CoveredMeans(a[k].entries, c[k].entries);
    }
    if Merge(a, c) == c {
      forall k | k in a ensures k in c && (a[k].Map? && c[k].Map? ==> Covered(a[k].entries, c[k].entries)) {
        assert k in Merge(a, c);
      }
    }
  }

  /** No scalar of b stands between a map of a and a map of c that does not cover it. */
  ghost predicate NoScalarBetween(a: Tree, b: Tree, c: Tree)
    decreases Map(a)
  {
    forall k :: k in a && k in b && k in c && a[k].Map? && c[k].Map? ==>
      if b[k].Map? then NoScalarBetween(a[k].entries, b[k].entries, c[k].entries)
      else Covered(a[k].entries, c[k].entries)
  }

  ghost predicate Between(a: Tree, b: Tree, c: Tree, k: string) {
    k in a && k in b && k in c && a[k].Map? && c[k].Map?
  }

  ghost predicate KeyOk(a: Tree, b: Tree, c: Tree, k: string) {
    Between(a, b, c, k) ==>
      if b[k].Map? then NoScalarBetween(a[k].entries, b[k].entries, c[k].entries)
      else Covered(a[k].entries, c[k].entries)
  }

  ghost predicate SameAt(s: Tree, t: Tree, k: string) {
    (k in s <==> k in t) && (k in s && k in t ==> s[k] == t[k])
  }

  lemma {:induction false} RegroupAt(a: Tree, b: Tree, c: Tree, k: string)
    ensures SameAt(Merge(Merge(a, b), c), Merge(a, Merge(b, c)), k) <==> KeyOk(a, b, c, k)
    decreases Map(a), 0
  {
    if Between(a, b, c, k) {
      if b[k].Map? {
        AssociativeExactly(a[k].entries, b[k].entries, c[k].entries);
      } else {
        CoveredMeans(a[k].entries, c[k].entries);
      }
    }
  }

  /** Exactly when two merges can be regrouped. */
  lemma {:induction false} AssociativeExactly(a: Tree, b: Tree, c: Tree)
    ensures Merge(Merge(a, b), c) == Merge(a, Merge(b, c)) <==> NoScalarBetween(a, b, c)
    decreases Map(a), 1
  {
    var left, right := Merge(Merge(a, b), c), Merge(a, Merge(b, c));
    EqualAtEveryKey(left, right);
    OkAtEveryKey(a, b, c);
    forall k ensures SameAt(left, right, k) <==> KeyOk(a, b, c, k) {
      RegroupAt(a, b, c, k);
    }
  }

  lemma EqualAtEveryKey(s: Tree, t: Tree)
    ensures s == t <==> forall k :: SameAt(s, t, k)
  {
    if forall k :: SameAt(s, t, k) {
      forall k ensures (k in s <==> k in t) && (k in s ==> s[k] == t[k]) {
        assert SameAt(s, t, k);
      }
      assert s.Keys == t.Keys;
    }
  }

  lemma OkAtEveryKey(a: Tree, b: Tree, c: Tree)
    ensures NoScalarBetween(a, b, c) <==> forall k :: KeyOk(a, b, c, k)
  {
    if forall k :: KeyOk(a, b, c, k) {
      forall k | Between(a, b, c, k)
        ensures if b[k].Map? then NoScalarBetween(a[k].entries, b[k].entries, c[k].entries)
                else Covered(a[k].entries, c[k].entries)
      {
        assert KeyOk(a, b, c, k);
      }
    }
  }

  /** ... which is not always: a scalar between two maps makes the difference. */
  lemma NotAssociative() returns (a: Tree, b: Tree, c: Tree)
    ensures Merge(Merge(a, b), c) != Merge(a, Merge(b, c))
  {
    a := map["k" := Map(map["x" := Scalar("1")])];
    b := map["k" := Scalar("2")];
    c := map["k" := Map(map["y" := Scalar("3")])];
    assert "x" !in Merge(Merge(a, b), c)["k"].entries;
    assert "x" in Merge(a, Merge(b, c))["k"].entries;
  }

  // ---------------------------------------------------------------- without copies

  /** Every value of b is in a already. */
  ghost predicate Within(b: Tree, a: Tree)
    decreases Map(b)
  {
    forall k :: k in b ==>
      k in a && (if a[k].Map? && b[k].Map? then Within(b[k].entries, a[k].entries) else a[k] == b[k])
  }

  lemma {:induction false} WithinMeans(a: Tree, b: Tree)
    ensures Merge(a, b) == a <==> Within(b, a)
    decreases Map(b)
  {
    forall k | k in b && k in a && a[k].Map? && b[k].Map? {
      WithinMeans(a[k].entries, b[k].entries);
    }
    if Merge(a, b) == a {
      forall k | k in b
        ensures k in a && (if a[k].Map? && b[k].Map? then Within(b[k].entries, a[k].entries) else a[k] == b[k])
      {
        assert k in Merge(a, b) && Merge(a, b)[k] == a[k];
      }
    }
  }

  /**
   What the maps captured with tree a hold after a, then b, were merged into v without copying:
   where v had no map of its own, the map of a became part of v and b was merged into it.
   */
  function Written(v: Tree, a: Tree, b: Tree): Tree
    decreases Map(a)
  {
    map k | k in a :: WrittenAt(v, a, b, k)
  }

  function WrittenAt(v: Tree, a: Tree, b: Tree, k: string): Value
    requires k in a
    decreases Map(a), 0
  {
    if !a[k].Map? || k !in b || !b[k].Map? then a[k]
    else if k in v && v[k].Map? then Map(Written(v[k].entries, a[k].entries, b[k].entries))
    else Map(Merge(a[k].entries, b[k].entries))
  }

  /** Where v has no map of its own, b brings nothing that a does not have. */
  ghost predicate Harmless(v: Tree, a: Tree, b: Tree)
    decreases Map(a)
  {
    forall k :: k in a && a[k].Map? && k in b && b[k].Map? ==>
      if k in v && v[k].Map? then Harmless(v[k].entries, a[k].entries, b[k].entries)
      else Within(b[k].entries, a[k].entries)
  }

  /** Exactly when the captured maps are as they were. */
  lemma {:induction false} HarmlessMeans(v: Tree, a: Tree, b: Tree)
    ensures Written(v, a, b) == a <==> Harmless(v, a, b)
    decreases Map(a)
  {
    forall k | k in a && a[k].Map? && k in b && b[k].Map?
      ensures WrittenAt(v, a, b, k) == a[k] <==>
                if k in v && v[k].Map? then Harmless(v[k].entries, a[k].entries, b[k].entries)
                else Within(b[k].entries, a[k].entries)
    {
      if k in v && v[k].Map? {
        HarmlessMeans(v[k].entries, a[k].entries, b[k].entries);
      } else {
        WithinMeans(a[k].entries, b[k].entries);
      }
    }
    var w := Written(v, a, b);
    assert forall k :: k in a ==> w[k] == WrittenAt(v, a, b, k);
    if w == a {
      assert forall k :: k in a ==> WrittenAt(v, a, b, k) == a[k];
    }
  }

  /** A target without the key, a map captured under it, and a later map that brings something new. */
  lemma NotHarmless() returns (v: Tree, a: Tree, b: Tree)
    ensures v == map[] && a == map["k" := Map(map[])] && b == map["k" := Map(map["x" := Scalar("1")])]
    ensures !Harmless(v, a, b) && Written(v, a, b) == b
  {
    v, a, b := map[], map["k" := Map(map[])], map["k" := Map(map["x" := Scalar("1")])];
    assert "x" in b["k"].entries;
    assert Merge(map[], b["k"].entries) == b["k"].entries;
    assert WrittenAt(v, a, b, "k") == b["k"];
    HarmlessMeans(v, a, b);
  }
}
