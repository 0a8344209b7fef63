/**
 The same merge on Go maps, which are references: applyValues updates its target in place and
 stores sub-maps of its source in it without copying. Maps may therefore be shared, but only at
 one and the same path below their roots; that is what a layout records, and no call breaks it.
 */
module ValuesOnHeap {
  import opened Options
  import V = Values

  datatype Node = Leaf(text: string) | Ref(dict: Dict)

  class Dict {
    var entries: map<string, Node>

    constructor ()
      ensures entries == map[]
    {
      entries := map[];
    }
  }

  /** The path at which each map of a region belongs. */
  datatype Layout = Layout(at: map<Dict, V.Path>, height: nat)

  /** The contents of all maps at one moment. */
  type Heap = map<Dict, map<string, Node>>

  ghost function Now(lay: Layout): Heap
    reads lay.at.Keys
  {
    map d | d in lay.at :: d.entries
  }

  ghost predicate Fits(h: Heap, lay: Layout, d: Dict)
    requires d in lay.at && d in h
  {
    forall k :: k in h[d] && h[d][k].Ref? ==> h[d][k].dict in lay.at && lay.at[h[d][k].dict] == lay.at[d] + [k]
  }

  /** A region is closed: what its maps refer to is in it, one key further down. */
  ghost predicate Region(h: Heap, lay: Layout) {
    forall d :: d in lay.at ==> d in h && |lay.at[d]| <= lay.height && Fits(h, lay, d)
  }

  /** The maps at a path and below it. */
  function Under(lay: Layout, p: V.Path): set<Dict> {
    set d | d in lay.at && p <= lay.at[d]
  }

  // ---------------------------------------------------------------- shapes: trees with identities

  /** What is found below a map, with the identity of every map on the way. */
  datatype Shape = Scalar(text: string) | Shared(dict: Dict, entries: map<string, Shape>)

  ghost function ShapeOf(d: Dict, h: Heap, lay: Layout): (s: Shape)
    requires Region(h, lay) && d in lay.at
    ensures s.Shared? && s.dict == d && s.entries.Keys == h[d].Keys
    decreases lay.height - |lay.at[d]|
  {
    assert Fits(h, lay, d);
    Shared(d, map k | k in h[d] :: NodeShape(d, k, h, lay))
  }

  ghost function NodeShape(d: Dict, k: string, h: Heap, lay: Layout): Shape
    requires Region(h, lay) && d in lay.at && k in h[d]
    decreases lay.height - |lay.at[d]|, 0
  {
    assert Fits(h, lay, d);
    if h[d][k].Leaf? then Scalar(h[d][k].text)
    else
      assert |lay.at[h[d][k].dict]| <= lay.height;
      ShapeOf(h[d][k].dict, h, lay)
  }

  function Look(s: Shape, j: string): Option<Shape> {
    if s.Shared? && j in s.entries then Some(s.entries[j]) else None
  }

  /** A shape depends on the maps at the path and below it only. */
  lemma {:induction false} ShapeAgrees(d: Dict, h: Heap, h': Heap, lay: Layout)
    requires Region(h, lay) && Region(h', lay) && d in lay.at
    requires forall e :: e in Under(lay, lay.at[d]) ==> h[e] == h'[e]
    ensures ShapeOf(d, h, lay) == ShapeOf(d, h', lay)
    decreases lay.height - |lay.at[d]|
  {
    assert Fits(h, lay, d) && d in Under(lay, lay.at[d]);
    forall k | k in h[d] ensures NodeShape(d, k, h, lay) == NodeShape(d, k, h', lay) {
      KeyAgrees(d, k, h, h', lay);
    }
  }

  /** What is found under one key depends on the entry and on the maps below that key only. */
  lemma {:induction false} KeyAgrees(d: Dict, k: string, h: Heap, h': Heap, lay: Layout)
    requires Region(h, lay) && Region(h', lay) && d in lay.at
    requires (k in h[d] <==> k in h'[d]) && (k in h[d] ==> h[d][k] == h'[d][k])
    requires forall e :: e in Under(lay, lay.at[d] + [k]) ==> h[e] == h'[e]
    ensures Look(ShapeOf(d, h, lay), k) == Look(ShapeOf(d, h', lay), k)
    ensures k in h[d] ==> NodeShape(d, k, h, lay) == NodeShape(d, k, h', lay)
    decreases lay.height - |lay.at[d]|, 0
  {
    assert Fits(h, lay, d) && Fits(h', lay, d);
    if k in h[d] && h[d][k].Ref? {
      ShapeAgrees(h[d][k].dict, h, h', lay);
    }
  }

  lemma SameShape(s: Shape, t: Shape)
    requires s.Shared? && t.Shared? && s.dict == t.dict && forall j :: Look(s, j) == Look(t, j)
    ensures s == t
  {
    forall j ensures (j in s.entries <==> j in t.entries) && (j in s.entries ==> s.entries[j] == t.entries[j]) {
      assert Look(s, j) == Look(t, j);
    }
    assert s.entries == t.entries;
  }

  // ---------------------------------------------------------------- what a merge does to shapes

  /** The target: its own maps stay and take in what the source has; everything else is the source's. */
  function MergeShape(to: Shape, from: Shape): Shape
    decreases from
  {
    if to.Shared? && from.Shared? then
      Shared(to.dict, map k | k in to.entries.Keys + from.entries.Keys ::
        if k !in from.entries then to.entries[k]
        else if k in to.entries then MergeShape(to.entries[k], from.entries[k])
        else from.entries[k])
    else from
  }

  /** Any other map: it changes where it shares a map with the target. */
  function AfterShape(c: Shape, to: Shape, from: Shape): Shape
    decreases from
  {
    if !c.Shared? || !to.Shared? || !from.Shared? then c
    else if c.dict == to.dict then MergeShape(to, from)
    else
      Shared(c.dict, map k | k in c.entries ::
        if k in to.entries && k in from.entries then AfterShape(c.entries[k], to.entries[k], from.entries[k])
        else c.entries[k])
  }

  /** The same, key by key. */
  function AfterKey(same: bool, c: Option<Shape>, to: Option<Shape>, from: Option<Shape>): Option<Shape> {
    if from.None? then c
    else if same then Some(if to.Some? then MergeShape(to.value, from.value) else from.value)
    else if c.Some? && to.Some? then Some(AfterShape(c.value, to.value, from.value))
    else c
  }

  lemma AfterByKey(c: Shape, to: Shape, from: Shape, j: string)
    requires c.Shared? && to.Shared? && from.Shared? && (c.dict == to.dict ==> c == to)
    ensures Look(AfterShape(c, to, from), j) == AfterKey(c.dict == to.dict, Look(c, j), Look(to, j), Look(from, j))
  {
  }

  // ---------------------------------------------------------------- one key

  /** Only `to`, at key k, and maps below that key have changed. */
  ghost predicate ChangedAt(h: Heap, h': Heap, lay: Layout, to: Dict, k: string)
    requires to in lay.at && lay.at.Keys <= h.Keys && lay.at.Keys <= h'.Keys
  {
    && (forall d :: d in lay.at && d != to && d !in Under(lay, lay.at[to] + [k]) ==> h'[d] == h[d])
    && h'[to] - {k} == h[to] - {k}
  }

  lemma OtherKey(h: Heap, h': Heap, lay: Layout, to: Dict, k: string, c: Dict, j: string)
    requires Region(h, lay) && Region(h', lay) && to in lay.at && c in lay.at && lay.at[c] == lay.at[to]
    requires j != k && ChangedAt(h, h', lay, to, k)
    ensures Look(ShapeOf(c, h', lay), j) == Look(ShapeOf(c, h, lay), j)
  {
    var p := lay.at[to];
    forall e | e in Under(lay, p + [j]) ensures h[e] == h'[e] {
      assert lay.at[e][|p|] == (p + [j])[|p|] == j && (p + [k])[|p|] == k;
    }
    if c == to {
      assert j in h[to] <==> j in h[to] - {k};
      assert j in h'[to] <==> j in h'[to] - {k};
      assert j in h[to] ==> h[to][j] == (h[to] - {k})[j] && (j in h'[to] ==> h'[to][j] == (h'[to] - {k})[j]);
    } else {
      assert c !in Under(lay, p + [k]);
    }
    KeyAgrees(c, j, h, h', lay);
  }

  /** The maps at the path of `to` after a turn. */
  ghost predicate Turned(h: Heap, h': Heap, lay: Layout, to: Dict, from: Dict, k: string)
    requires Region(h, lay) && Region(h', lay) && to in lay.at && from in lay.at
  {
    forall c :: c in lay.at && lay.at[c] == lay.at[to] ==>
      Look(ShapeOf(c, h', lay), k)
      == AfterKey(c == to, Look(ShapeOf(c, h, lay), k),
                  Look(ShapeOf(to, h, lay), k), Look(ShapeOf(from, h, lay), k))
  }

  /** to[k] = v, for a value that is not merged. */
  lemma PutTurns(h: Heap, lay: Layout, to: Dict, from: Dict, k: string)
    requires Region(h, lay) && to in lay.at && from in lay.at && lay.at[to] == lay.at[from] && k in h[from]
    requires !(k in h[to] && h[to][k].Ref? && h[from][k].Ref?)
    ensures var h' := h[to := h[to][k := h[from][k]]];
            Region(h', lay) && ChangedAt(h, h', lay, to, k) && Turned(h, h', lay, to, from, k)
  {
    var h' := h[to := h[to][k := h[from][k]]];
    assert Fits(h, lay, from) && Fits(h, lay, to);
    forall d | d in lay.at ensures Fits(h', lay, d) {
      assert Fits(h, lay, d);
    }
    forall c | c in lay.at && lay.at[c] == lay.at[to]
      ensures Look(ShapeOf(c, h', lay), k)
           == AfterKey(c == to, Look(ShapeOf(c, h, lay), k),
                       Look(ShapeOf(to, h, lay), k), Look(ShapeOf(from, h, lay), k))
    {
      PutKey(h, lay, to, from, k, c);
    }
  }

  lemma PutKey(h: Heap, lay: Layout, to: Dict, from: Dict, k: string, c: Dict)
    requires Region(h, lay) && to in lay.at && from in lay.at && lay.at[to] == lay.at[from] && k in h[from]
    requires !(k in h[to] && h[to][k].Ref? && h[from][k].Ref?) && Region(h[to := h[to][k := h[from][k]]], lay)
    requires c in lay.at && lay.at[c] == lay.at[to]
    ensures var h' := h[to := h[to][k := h[from][k]]];
            Look(ShapeOf(c, h', lay), k)
            == AfterKey(c == to, Look(ShapeOf(c, h, lay), k),
                        Look(ShapeOf(to, h, lay), k), Look(ShapeOf(from, h, lay), k))
  {
    var h' := h[to := h[to][k := h[from][k]]];
    assert to !in Under(lay, lay.at[to] + [k]);
    if c == to {
      assert Fits(h, lay, from);
      if h[from][k].Ref? {
        ShapeAgrees(h[from][k].dict, h, h', lay);
      }
    } else {
      KeyAgrees(c, k, h, h', lay);
    }
  }

  /** The effect of a whole merge on every map at the path of its target. */
  ghost predicate Merged(h: Heap, h': Heap, lay: Layout, to: Dict, from: Dict)
    requires Region(h, lay) && Region(h', lay) && to in lay.at && from in lay.at
  {
    forall c :: c in lay.at && lay.at[c] == lay.at[to] ==>
      ShapeOf(c, h', lay) == AfterShape(ShapeOf(c, h, lay), ShapeOf(to, h, lay), ShapeOf(from, h, lay))
  }

  /** Both have a map under the key, and the two are merged. */
  lemma MergeTurns(h: Heap, h': Heap, lay: Layout, to: Dict, from: Dict, k: string)
    requires Region(h, lay) && Region(h', lay) && to in lay.at && from in lay.at && lay.at[to] == lay.at[from]
    requires k in h[to] && h[to][k].Ref? && k in h[from] && h[from][k].Ref?
    requires h[to][k].dict in lay.at && h[from][k].dict in lay.at
    requires forall d :: d in lay.at && d !in Under(lay, lay.at[to] + [k]) ==> h'[d] == h[d]
    requires Merged(h, h', lay, h[to][k].dict, h[from][k].dict)
    ensures ChangedAt(h, h', lay, to, k) && Turned(h, h', lay, to, from, k)
  {
    var p := lay.at[to];
    assert Fits(h, lay, to) && Fits(h, lay, from);
    forall c | c in lay.at && lay.at[c] == p
      ensures Look(ShapeOf(c, h', lay), k)
           == AfterKey(c == to, Look(ShapeOf(c, h, lay), k),
                       Look(ShapeOf(to, h, lay), k), Look(ShapeOf(from, h, lay), k))
    {
      assert c !in Under(lay, p + [k]) && Fits(h, lay, c);
      assert k in h[c] && h[c][k].Ref? ==> lay.at[h[c][k].dict] == p + [k];
    }
  }

  /** After the keys outside todo have been taken. */
  ghost predicate Progress(h: Heap, h': Heap, lay: Layout, to: Dict, from: Dict, todo: set<string>)
    requires Region(h, lay) && Region(h', lay) && to in lay.at && from in lay.at
  {
    forall c, j :: c in lay.at && lay.at[c] == lay.at[to] ==>
      Look(ShapeOf(c, h', lay), j)
      == if j in todo then Look(ShapeOf(c, h, lay), j)
         else AfterKey(c == to, Look(ShapeOf(c, h, lay), j),
                       Look(ShapeOf(to, h, lay), j), Look(ShapeOf(from, h, lay), j))
  }

  lemma ProgressStep(h: Heap, m: Heap, h': Heap, lay: Layout, to: Dict, from: Dict, todo: set<string>, k: string)
    requires Region(h, lay) && Region(m, lay) && Region(h', lay)
    requires to in lay.at && from in lay.at && lay.at[to] == lay.at[from]
    requires Progress(h, m, lay, to, from, todo) && k in todo
    requires ChangedAt(m, h', lay, to, k) && Turned(m, h', lay, to, from, k)
    ensures Progress(h, h', lay, to, from, todo - {k})
  {
    forall c, j | c in lay.at && lay.at[c] == lay.at[to]
      ensures Look(ShapeOf(c, h', lay), j)
           == if j in todo - {k} then Look(ShapeOf(c, h, lay), j)
              else AfterKey(c == to, Look(ShapeOf(c, h, lay), j),
                            Look(ShapeOf(to, h, lay), j), Look(ShapeOf(from, h, lay), j))
    {
      if j != k {
        OtherKey(m, h', lay, to, k, c, j);
      }
    }
  }

  lemma ProgressStarts(h: Heap, lay: Layout, to: Dict, from: Dict)
    requires Region(h, lay) && to in lay.at && from in lay.at
    ensures Progress(h, h, lay, to, from, h[from].Keys)
  {
  }

  lemma ProgressEnds(h: Heap, h': Heap, lay: Layout, to: Dict, from: Dict)
    requires Region(h, lay) && Region(h', lay) && to in lay.at && from in lay.at
    requires Progress(h, h', lay, to, from, {})
    ensures Merged(h, h', lay, to, from)
  {
    forall c | c in lay.at && lay.at[c] == lay.at[to]
      ensures ShapeOf(c, h', lay) == AfterShape(ShapeOf(c, h, lay), ShapeOf(to, h, lay), ShapeOf(from, h, lay))
    {
      var x, y, z := ShapeOf(c, h, lay), ShapeOf(to, h, lay), ShapeOf(from, h, lay);
      forall j ensures Look(ShapeOf(c, h', lay), j) == Look(AfterShape(x, y, z), j) {
        AfterByKey(x, y, z, j);
      }
      SameShape(ShapeOf(c, h', lay), AfterShape(x, y, z));
    }
  }

  // ---------------------------------------------------------------- applyValues

  /** to[k] = v: a sub-map is stored by reference. */
  method PutEntry(to: Dict, from: Dict, k: string, ghost lay: Layout)
    requires Region(Now(lay), lay) && to in lay.at && from in lay.at && lay.at[to] == lay.at[from] && k in from.entries
    requires !(k in to.entries && to.entries[k].Ref? && from.entries[k].Ref?)
    modifies to
    ensures Region(Now(lay), lay) && ChangedAt(old(Now(lay)), Now(lay), lay, to, k)
    ensures Turned(old(Now(lay)), Now(lay), lay, to, from, k)
  {
    ghost var h := Now(lay);
    PutTurns(h, lay, to, from, k);
    to.entries := to.entries[k := from.entries[k]];
    assert Now(lay) == h[to := h[to][k := h[from][k]]];
  }

  /** One turn of the loop in applyValues. */
  method ApplyKey(to: Dict, from: Dict, k: string, ghost lay: Layout)
    requires Region(Now(lay), lay) && to in lay.at && from in lay.at && lay.at[to] == lay.at[from] && k in from.entries
    modifies {to} + Under(lay, lay.at[to] + [k])
    ensures Region(Now(lay), lay) && ChangedAt(old(Now(lay)), Now(lay), lay, to, k)
    ensures Turned(old(Now(lay)), Now(lay), lay, to, from, k)
    decreases lay.height - |lay.at[to]|, 0
  {
    if k in to.entries && to.entries[k].Ref? && from.entries[k].Ref? {
      ghost var h := Now(lay);
      assert Fits(h, lay, to) && Fits(h, lay, from);
      ApplyValues(to.entries[k].dict, from.entries[k].dict, lay);
      MergeTurns(h, Now(lay), lay, to, from, k);
    } else {
      PutEntry(to, from, k, lay);
    }
  }

  /**
   applyValues, in whatever order the keys of from come. It says what becomes of every map at the
   path of the target: the target, the source, and any other that shares maps with them.
   */
  method ApplyValues(to: Dict, from: Dict, ghost lay: Layout)
    requires Region(Now(lay), lay) && to in lay.at && from in lay.at && lay.at[to] == lay.at[from]
    modifies Under(lay, lay.at[to])
    ensures Region(Now(lay), lay) && Merged(old(Now(lay)), Now(lay), lay, to, from)
    decreases lay.height - |lay.at[to]|, 1
  {
    ghost var h := Now(lay);
    ProgressStarts(h, lay, to, from);
    var todo := from.entries.Keys;
    while todo != {}
      invariant Region(Now(lay), lay) && Progress(h, Now(lay), lay, to, from, todo)
      invariant todo <= h[from].Keys
      decreases todo
    {
      var k :| k in todo;
      ghost var m := Now(lay);
      assert Look(ShapeOf(from, m, lay), k) == Look(ShapeOf(from, h, lay), k);
      ApplyKey(to, from, k, lay);
      ProgressStep(h, m, Now(lay), lay, to, from, todo, k);
      todo := todo - {k};
    }
    ProgressEnds(h, Now(lay), lay, to, from);
  }

  // ---------------------------------------------------------------- shapes and trees

  /** The values in a shape, without identities. */
  function Erase(s: Shape): V.Value
    decreases s, 1
  {
    if s.Scalar? then V.Scalar(s.text) else V.Map(TreeOf(s))
  }

  function TreeOf(s: Shape): V.Tree
    decreases s, 0
  {
    if s.Shared? then map k | k in s.entries :: Erase(s.entries[k]) else map[]
  }

  lemma {:induction false} EraseKey(to: Shape, from: Shape, k: string)
    requires to.Shared? && from.Shared? && k in MergeShape(to, from).entries
    ensures var m := V.Merge(TreeOf(to), TreeOf(from)); k in m && Erase(MergeShape(to, from).entries[k]) == m[k]
    decreases from, 0
  {
    if k in from.entries && k in to.entries && from.entries[k].Shared? && to.entries[k].Shared? {
      EraseMerge(to.entries[k], from.entries[k]);
    }
  }

  /** In place the target becomes the merge of the two trees. */
  lemma {:induction false} EraseMerge(to: Shape, from: Shape)
    requires to.Shared? && from.Shared?
    ensures TreeOf(MergeShape(to, from)) == V.Merge(TreeOf(to), TreeOf(from))
    decreases from, 1
  {
    var m, t := MergeShape(to, from), V.Merge(TreeOf(to), TreeOf(from));
    forall k | k in m.entries ensures k in t && TreeOf(m)[k] == t[k] {
      EraseKey(to, from, k);
    }
    assert TreeOf(m).Keys == t.Keys;
  }

  /** The map d occurs in the shape. */
  predicate Has(s: Shape, d: Dict) {
    s.Shared? && (s.dict == d || exists k :: k in s.entries && Has(s.entries[k], d))
  }

  /** No map occurs in both. */
  predicate Apart(x: Shape, y: Shape) {
    x.Shared? ==> !Has(y, x.dict) && forall k :: k in x.entries ==> Apart(x.entries[k], y)
  }

  lemma {:induction false} ApartMono(x: Shape, y: Shape, z: Shape)
    requires Apart(x, y) && forall d :: Has(z, d) ==> Has(y, d)
    ensures Apart(x, z)
    decreases x
  {
    if x.Shared? {
      forall k | k in x.entries ensures Apart(x.entries[k], z) {
        ApartMono(x.entries[k], y, z);
      }
    }
  }

  lemma {:induction false} ApartHas(x: Shape, y: Shape, d: Dict)
    requires Apart(x, y) && Has(x, d)
    ensures !Has(y, d)
    decreases x
  {
    if x.dict != d {
      var k :| k in x.entries && Has(x.entries[k], d);
      ApartHas(x.entries[k], y, d);
    }
  }

  lemma {:induction false} MergeHas(to: Shape, from: Shape, d: Dict)
    requires Has(MergeShape(to, from), d)
    ensures Has(to, d) || Has(from, d)
    decreases from
  {
    var m := MergeShape(to, from);
    if to.Shared? && from.Shared? && d != to.dict {
      var k :| k in m.entries && Has(m.entries[k], d);
      if k in to.entries && k in from.entries {
        MergeHas(to.entries[k], from.entries[k], d);
      }
    }
  }

  lemma {:induction false} AfterHas(c: Shape, to: Shape, from: Shape, d: Dict)
    requires Has(AfterShape(c, to, from), d)
    ensures Has(c, d) || Has(to, d) || Has(from, d)
    decreases from
  {
    if c.Shared? && to.Shared? && from.Shared? {
      if c.dict == to.dict {
        MergeHas(to, from, d);
      } else if d != c.dict {
        var m := AfterShape(c, to, from);
        var k :| k in m.entries && Has(m.entries[k], d);
        if k in to.entries && k in from.entries {
          AfterHas(c.entries[k], to.entries[k], from.entries[k], d);
        }
      }
    }
  }

  /** What shares nothing with the target stays as it is. */
  lemma {:induction false} AfterApart(c: Shape, to: Shape, from: Shape)
    requires Apart(c, to)
    ensures AfterShape(c, to, from) == c
    decreases from
  {
    if c.Shared? && to.Shared? && from.Shared? {
      forall k | k in c.entries && k in to.entries && k in from.entries
        ensures AfterShape(c.entries[k], to.entries[k], from.entries[k]) == c.entries[k]
      {
        ApartMono(c.entries[k], to, to.entries[k]);
        AfterApart(c.entries[k], to.entries[k], from.entries[k]);
      }
    }
  }

  /** The target has everything of the source already, with the same maps. */
  ghost predicate Absorbed(to: Shape, from: Shape)
    decreases from
  {
    if to.Shared? && from.Shared? then
      forall k :: k in from.entries ==> k in to.entries && Absorbed(to.entries[k], from.entries[k])
    else to == from
  }

  lemma {:induction false} AbsorbedMeans(to: Shape, from: Shape)
    ensures MergeShape(to, from) == to <==> Absorbed(to, from)
    decreases from
  {
    if to.Shared? && from.Shared? {
      var m := MergeShape(to, from);
      forall k | k in from.entries && k in to.entries {
        AbsorbedMeans(to.entries[k], from.entries[k]);
      }
      if m == to {
        forall k | k in from.entries ensures k in to.entries && Absorbed(to.entries[k], from.entries[k]) {
          assert k in m.entries && m.entries[k] == to.entries[k];
        }
      }
    }
  }

  /** Shapes of one heap: the same map has the same shape. */
  ghost predicate Coherent(c: Shape, to: Shape)
    decreases c
  {
    c.Shared? && to.Shared? ==>
      if c.dict == to.dict then c == to
      else forall k :: k in c.entries && k in to.entries ==> Coherent(c.entries[k], to.entries[k])
  }

  lemma {:induction false} OneHeap(c: Dict, d: Dict, h: Heap, lay: Layout)
    requires Region(h, lay) && c in lay.at && d in lay.at
    ensures Coherent(ShapeOf(c, h, lay), ShapeOf(d, h, lay))
    decreases lay.height - |lay.at[c]|
  {
    var x, y := ShapeOf(c, h, lay), ShapeOf(d, h, lay);
    if c != d {
      forall k | k in x.entries && k in y.entries ensures Coherent(x.entries[k], y.entries[k]) {
        assert Fits(h, lay, c) && Fits(h, lay, d);
        assert x.entries[k] == NodeShape(c, k, h, lay) && y.entries[k] == NodeShape(d, k, h, lay);
        if h[c][k].Ref? && h[d][k].Ref? {
          assert |lay.at[h[c][k].dict]| <= lay.height;
          OneHeap(h[c][k].dict, h[d][k].dict, h, lay);
        }
      }
    }
  }

  /** Wherever c shares a map with the target, the source brings nothing new. */
  ghost predicate Quiet(c: Shape, to: Shape, from: Shape)
    decreases from
  {
    c.Shared? && to.Shared? && from.Shared? ==>
      if c.dict == to.dict then Absorbed(to, from)
      else
        forall k :: k in c.entries && k in to.entries && k in from.entries ==>
          Quiet(c.entries[k], to.entries[k], from.entries[k])
  }

  /** Exactly when a merge does not write a map. */
  lemma {:induction false} QuietMeans(c: Shape, to: Shape, from: Shape)
    requires Coherent(c, to)
    ensures AfterShape(c, to, from) == c <==> Quiet(c, to, from)
    decreases from
  {
    if c.Shared? && to.Shared? && from.Shared? {
      if c.dict == to.dict {
        AbsorbedMeans(to, from);
      } else {
        var w := AfterShape(c, to, from);
        forall k | k in c.entries && k in to.entries && k in from.entries {
          QuietMeans(c.entries[k], to.entries[k], from.entries[k]);
        }
        if w == c {
          forall k | k in c.entries && k in to.entries && k in from.entries
            ensures Quiet(c.entries[k], to.entries[k], from.entries[k])
          {
            assert w.entries[k] == c.entries[k];
          }
        }
      }
    }
  }

  // ---------------------------------------------------------------- appliers

  /** An applier: the values it applies before it returns, and whether it returns an error. */
  datatype Applier = Applier(values: Dict, fails: bool)

  /** The appliers that are left after the first, as it has changed them. */
  function Rest(v: Shape, xs: seq<Shape>): seq<Shape>
    requires xs != []
  {
    seq(|xs| - 1, i requires 0 <= i < |xs| - 1 => AfterShape(xs[i + 1], v, xs[0]))
  }

  /** What becomes of any map c when the appliers xs are folded into v, sharing or not. */
  function FoldOn(c: Shape, v: Shape, xs: seq<Shape>): Shape
    decreases |xs|
  {
    if xs == [] then c else FoldOn(AfterShape(c, v, xs[0]), MergeShape(v, xs[0]), Rest(v, xs))
  }

  /** The appliers up to the first one that fails. */
  function Applied(appliers: seq<Applier>): nat {
    if appliers == [] then 0
    else if appliers[0].fails then 1
    else 1 + Applied(appliers[1..])
  }

  lemma {:induction false} AppliedMeans(appliers: seq<Applier>)
    ensures Applied(appliers) <= |appliers|
    ensures forall i :: 0 <= i < Applied(appliers) - 1 ==> !appliers[i].fails
    ensures Applied(appliers) < |appliers| ==> Applied(appliers) > 0 && appliers[Applied(appliers) - 1].fails
  {
    if appliers == [] {
    } else {
      AppliedMeans(appliers[1..]);
      assert forall i :: 1 <= i < |appliers| ==> appliers[i] == appliers[1..][i - 1];
    }
  }

  /** A root: a map that stands at the empty path. */
  predicate Root(lay: Layout, d: Dict) {
    d in lay.at && lay.at[d] == []
  }

  predicate Roots(lay: Layout, appliers: seq<Applier>) {
    forall i :: 0 <= i < |appliers| ==> Root(lay, appliers[i].values)
  }

  ghost function ShapesOf(appliers: seq<Applier>, h: Heap, lay: Layout): seq<Shape>
    requires Region(h, lay) && Roots(lay, appliers)
  {
    seq(|appliers|, i requires 0 <= i < |appliers| => ShapeOf(appliers[i].values, h, lay))
  }

  /** The effect of folding appliers into values on every root. */
  ghost predicate Folded(h: Heap, h': Heap, lay: Layout, values: Dict, appliers: seq<Applier>)
    requires Region(h, lay) && Region(h', lay) && Root(lay, values) && Roots(lay, appliers)
  {
    forall c :: c in lay.at && Root(lay, c) ==>
      ShapeOf(c, h', lay) == FoldOn(ShapeOf(c, h, lay), ShapeOf(values, h, lay), ShapesOf(appliers, h, lay))
  }

  /** Folding `rest` from m on has the effect that folding `all` had from h on. */
  ghost predicate SameFold(h: Heap, m: Heap, lay: Layout, values: Dict, all: seq<Applier>, rest: seq<Applier>)
    requires Region(h, lay) && Region(m, lay) && Root(lay, values) && Roots(lay, all) && Roots(lay, rest)
  {
    forall c :: c in lay.at && Root(lay, c) ==>
      FoldOn(ShapeOf(c, h, lay), ShapeOf(values, h, lay), ShapesOf(all, h, lay))
      == FoldOn(ShapeOf(c, m, lay), ShapeOf(values, m, lay), ShapesOf(rest, m, lay))
  }

  lemma FoldStep(h: Heap, m: Heap, m': Heap, lay: Layout, values: Dict, all: seq<Applier>, rest: seq<Applier>)
    requires Region(h, lay) && Region(m, lay) && Region(m', lay)
    requires Root(lay, values) && Roots(lay, all) && Roots(lay, rest)
    requires SameFold(h, m, lay, values, all, rest) && rest != [] && Merged(m, m', lay, values, rest[0].values)
    ensures SameFold(h, m', lay, values, all, rest[1..])
  {
    var xs, v := ShapesOf(rest, m, lay), ShapeOf(values, m, lay);
    assert Rest(v, xs) == ShapesOf(rest[1..], m', lay);
  }

  /** The fold over the appliers, up to the first error. */
  method RunAppliers(values: Dict, appliers: seq<Applier>, ghost lay: Layout) returns (ok: bool)
    requires Region(Now(lay), lay) && Root(lay, values) && Roots(lay, appliers)
    modifies lay.at.Keys
    ensures Applied(appliers) <= |appliers|
    ensures Region(Now(lay), lay) && Folded(old(Now(lay)), Now(lay), lay, values, appliers[..Applied(appliers)])
    ensures ok <==> forall i :: 0 <= i < |appliers| ==> !appliers[i].fails
  {
    AppliedMeans(appliers);
    ghost var h, n := Now(lay), Applied(appliers);
    ghost var all := appliers[..n];
    assert all[0..] == all;
    for i := 0 to |appliers|
      invariant i <= n && Region(Now(lay), lay) && Roots(lay, all[i..])
      invariant SameFold(h, Now(lay), lay, values, all, all[i..])
      invariant forall j :: 0 <= j < i ==> !appliers[j].fails
    {
      assert i < n && all[i..][0] == appliers[i] && all[i..][1..] == all[i + 1..];
      ghost var m := Now(lay);
      ApplyValues(values, appliers[i].values, lay);
      FoldStep(h, m, Now(lay), lay, values, all, all[i..]);
      if appliers[i].fails {
        return false;
      }
    }
    ok := true;
  }

  // ---------------------------------------------------------------- who is not written

  /** c shares nothing with the target nor with any applier. */
  predicate Isolated(c: Shape, v: Shape, xs: seq<Shape>) {
    Apart(c, v) && forall i :: 0 <= i < |xs| ==> Apart(c, xs[i])
  }

  lemma ApartAfter(c: Shape, x: Shape, v: Shape, y: Shape)
    requires Apart(c, x) && Apart(c, v) && Apart(c, y)
    ensures Apart(c, AfterShape(x, v, y))
  {
    forall d | Has(AfterShape(x, v, y), d) ensures Has(x, d) || Has(v, d) || Has(y, d) {
      AfterHas(x, v, y, d);
    }
    ApartUnion(c, x, v, y, AfterShape(x, v, y));
  }

  lemma {:induction false} ApartUnion(c: Shape, x: Shape, y: Shape, z: Shape, u: Shape)
    requires Apart(c, x) && Apart(c, y) && Apart(c, z)
    requires forall d :: Has(u, d) ==> Has(x, d) || Has(y, d) || Has(z, d)
    ensures Apart(c, u)
    decreases c
  {
    if c.Shared? {
      forall k | k in c.entries ensures Apart(c.entries[k], u) {
        ApartUnion(c.entries[k], x, y, z, u);
      }
    }
  }

  lemma ApartMerge(c: Shape, v: Shape, x: Shape)
    requires Apart(c, v) && Apart(c, x)
    ensures Apart(c, MergeShape(v, x))
  {
    forall d | Has(MergeShape(v, x), d) ensures Has(v, d) || Has(x, d) {
      MergeHas(v, x, d);
    }
    ApartUnion(c, v, x, x, MergeShape(v, x));
  }

  /** An isolated map is not written, whatever the appliers share among themselves. */
  lemma {:induction false} FoldKeeps(c: Shape, v: Shape, xs: seq<Shape>)
    requires Isolated(c, v, xs)
    ensures FoldOn(c, v, xs) == c
    decreases |xs|
  {
    if xs == [] {
    } else {
      AfterApart(c, v, xs[0]);
      ApartMerge(c, v, xs[0]);
      var ys := Rest(v, xs);
      forall i | 0 <= i < |ys| ensures Apart(c, ys[i]) {
        ApartAfter(c, xs[i + 1], v, xs[0]);
      }
      FoldKeeps(c, MergeShape(v, xs[0]), ys);
    }
  }

  // ---------------------------------------------------------------- stage by stage

  lemma {:induction false} CoherentSym(x: Shape, y: Shape)
    requires Coherent(x, y)
    ensures Coherent(y, x)
    decreases x
  {
    if x.Shared? && y.Shared? && x.dict != y.dict {
      forall k | k in y.entries && k in x.entries ensures Coherent(y.entries[k], x.entries[k]) {
        CoherentSym(x.entries[k], y.entries[k]);
      }
    }
  }

  /** The shapes of four maps at one path of one heap. */
  ghost predicate World(a: Shape, b: Shape, to: Shape, from: Shape) {
    && Coherent(a, b) && Coherent(a, to) && Coherent(b, to)
    && Coherent(a, from) && Coherent(b, from) && Coherent(to, from)
  }

  /** A merge leaves two maps coherent: what is one map stays one. */
  lemma {:induction false} AfterCoherent(a: Shape, b: Shape, to: Shape, from: Shape)
    requires World(a, b, to, from)
    ensures Coherent(AfterShape(a, to, from), AfterShape(b, to, from))
    decreases from, 1
  {
    if a.Shared? && b.Shared? && to.Shared? && from.Shared? && a.dict != b.dict {
      var x, y := AfterShape(a, to, from), AfterShape(b, to, from);
      forall k | k in x.entries && k in y.entries ensures Coherent(x.entries[k], y.entries[k]) {
        if b.dict == to.dict {
          CoherentSym(a, b);
          CoherentKey(b, a, to, from, k);
          CoherentSym(y.entries[k], x.entries[k]);
        } else {
          CoherentKey(a, b, to, from, k);
        }
      }
    }
  }

  lemma {:induction false} CoherentKey(a: Shape, b: Shape, to: Shape, from: Shape, k: string)
    requires World(a, b, to, from) && a.Shared? && b.Shared? && to.Shared? && from.Shared?
    requires a.dict != b.dict && b.dict != to.dict
    requires k in AfterShape(a, to, from).entries && k in AfterShape(b, to, from).entries
    ensures Coherent(AfterShape(a, to, from).entries[k], AfterShape(b, to, from).entries[k])
    decreases from, 0
  {
    if k in to.entries && k in from.entries {
      if a.dict == to.dict {
        assert a == to;
        if to.entries[k].Shared? && from.entries[k].Shared? {
          SelfCoherent(to.entries[k]);
          KeyWorld(to, b, to, from, k);
          AfterCoherent(to.entries[k], b.entries[k], to.entries[k], from.entries[k]);
        } else {
          assert MergeShape(to.entries[k], from.entries[k]) == from.entries[k];
          assert AfterShape(b.entries[k], to.entries[k], from.entries[k]) == b.entries[k];
          PairAt(b, from, k);
          CoherentSym(b.entries[k], from.entries[k]);
        }
      } else {
        KeyWorld(a, b, to, from, k);
        AfterCoherent(a.entries[k], b.entries[k], to.entries[k], from.entries[k]);
      }
    } else if a.dict == to.dict && k in from.entries {
      assert a == to;
      PairAt(b, from, k);
      CoherentSym(b.entries[k], from.entries[k]);
    } else {
      PairAt(a, b, k);
    }
  }

  lemma SelfCoherent(x: Shape)
    ensures Coherent(x, x)
  {
  }

  lemma PairAt(x: Shape, y: Shape, k: string)
    requires x.Shared? && y.Shared? && Coherent(x, y) && k in x.entries && k in y.entries
    ensures Coherent(x.entries[k], y.entries[k])
  {
    if x.dict == y.dict { SelfCoherent(x.entries[k]); }
  }

  lemma KeyWorld(a: Shape, b: Shape, to: Shape, from: Shape, k: string)
    requires World(a, b, to, from) && a.Shared? && b.Shared? && to.Shared? && from.Shared?
    requires k in a.entries && k in b.entries && k in to.entries && k in from.entries
    ensures World(a.entries[k], b.entries[k], to.entries[k], from.entries[k])
  {
    PairAt(a, b, k);
    PairAt(a, to, k);
    PairAt(b, to, k);
    PairAt(a, from, k);
    PairAt(b, from, k);
    PairAt(to, from, k);
  }

  /** Roots of one heap. */
  ghost predicate OneWorld(c: Shape, v: Shape, xs: seq<Shape>) {
    && c.Shared? && v.Shared? && Coherent(c, v)
    && (forall i :: 0 <= i < |xs| ==> xs[i].Shared? && Coherent(c, xs[i]) && Coherent(v, xs[i]))
    && (forall i, j :: 0 <= i < |xs| && 0 <= j < |xs| ==> Coherent(xs[i], xs[j]))
  }

  lemma WorldStep(c: Shape, v: Shape, xs: seq<Shape>)
    requires OneWorld(c, v, xs) && xs != []
    ensures OneWorld(AfterShape(c, v, xs[0]), MergeShape(v, xs[0]), Rest(v, xs))
  {
    var x, ys := xs[0], Rest(v, xs);
    SelfCoherent(v);
    assert MergeShape(v, x) == AfterShape(v, v, x);
    AfterCoherent(c, v, v, x);
    forall i | 0 <= i < |ys|
      ensures ys[i].Shared? && Coherent(AfterShape(c, v, x), ys[i]) && Coherent(AfterShape(v, v, x), ys[i])
    {
      CoherentSym(v, xs[i + 1]);
      AfterCoherent(c, xs[i + 1], v, x);
      AfterCoherent(v, xs[i + 1], v, x);
    }
    forall i, j | 0 <= i < |ys| && 0 <= j < |ys| ensures Coherent(ys[i], ys[j]) {
      CoherentSym(v, xs[i + 1]);
      CoherentSym(v, xs[j + 1]);
      AfterCoherent(xs[i + 1], xs[j + 1], v, x);
    }
  }

  /** At no stage does an applier bring anything new to a map that c shares with the target. */
  ghost predicate QuietAlong(c: Shape, v: Shape, xs: seq<Shape>)
    decreases |xs|
  {
    xs == [] || (Quiet(c, v, xs[0]) && QuietAlong(c, MergeShape(v, xs[0]), Rest(v, xs)))
  }

  lemma FoldStage(c: Shape, v: Shape, xs: seq<Shape>, n: nat)
    requires 0 < n <= |xs|
    ensures FoldOn(c, v, xs[..n]) == FoldOn(AfterShape(c, v, xs[0]), MergeShape(v, xs[0]), Rest(v, xs)[..n - 1])
  {
    assert Rest(v, xs[..n]) == Rest(v, xs)[..n - 1];
  }

  /** Exactly when a map is as it was after each of the appliers. */
  lemma {:induction false} StagesExactly(c: Shape, v: Shape, xs: seq<Shape>)
    requires OneWorld(c, v, xs)
    ensures (forall n :: 0 <= n <= |xs| ==> FoldOn(c, v, xs[..n]) == c) <==> QuietAlong(c, v, xs)
    decreases |xs|
  {
    if xs == [] {
      assert xs[..0] == [];
    } else {
      QuietMeans(c, v, xs[0]);
      FoldStage(c, v, xs, 1);
      if Quiet(c, v, xs[0]) {
        var ys := Rest(v, xs);
        WorldStep(c, v, xs);
        StagesExactly(c, MergeShape(v, xs[0]), ys);
        forall n | 1 <= n <= |xs| ensures FoldOn(c, v, xs[..n]) == FoldOn(c, MergeShape(v, xs[0]), ys[..n - 1]) {
          FoldStage(c, v, xs, n);
        }
        assert forall n :: 0 <= n <= |ys| ==> FoldOn(c, v, xs[..n + 1]) == FoldOn(c, MergeShape(v, xs[0]), ys[..n]);
        assert xs[..0] == [];
      } else {
        assert FoldOn(c, v, xs[..1]) != c;
      }
    }
  }

  /** ... for every root of a region. */
  lemma StagesOnHeap(h: Heap, lay: Layout, c: Dict, values: Dict, appliers: seq<Applier>)
    requires Region(h, lay) && Root(lay, c) && Root(lay, values) && Roots(lay, appliers)
    ensures var x, v, xs := ShapeOf(c, h, lay), ShapeOf(values, h, lay), ShapesOf(appliers, h, lay);
            (forall n :: 0 <= n <= |appliers| ==> FoldOn(x, v, xs[..n]) == x) <==> QuietAlong(x, v, xs)
  {
    var x, v, xs := ShapeOf(c, h, lay), ShapeOf(values, h, lay), ShapesOf(appliers, h, lay);
    OneHeap(c, values, h, lay);
    forall i | 0 <= i < |xs| ensures Coherent(x, xs[i]) && Coherent(v, xs[i]) {
      OneHeap(c, appliers[i].values, h, lay);
      OneHeap(values, appliers[i].values, h, lay);
    }
    forall i, j | 0 <= i < |xs| && 0 <= j < |xs| ensures Coherent(xs[i], xs[j]) {
      OneHeap(appliers[i].values, appliers[j].values, h, lay);
    }
    StagesExactly(x, v, xs);
  }

  // ---------------------------------------------------------------- the meaning of the fold

  function MergeAll(t: V.Tree, xs: seq<Shape>): V.Tree
    decreases |xs|
  {
    if xs == [] then t else MergeAll(V.Merge(t, TreeOf(xs[0])), xs[1..])
  }

  /** No applier shares a map with the target or with an earlier applier. */
  predicate Unshared(v: Shape, xs: seq<Shape>) {
    && (forall i :: 0 <= i < |xs| ==> xs[i].Shared? && Apart(xs[i], v))
    && (forall i, j :: 0 <= i < j < |xs| ==> Apart(xs[j], xs[i]))
  }

  /** Without sharing the fold is the fold of the merges of the trees. */
  lemma {:induction false} FoldMeans(v: Shape, xs: seq<Shape>)
    requires v.Shared? && Unshared(v, xs)
    ensures FoldOn(v, v, xs).Shared? && TreeOf(FoldOn(v, v, xs)) == MergeAll(TreeOf(v), xs)
    decreases |xs|
  {
    if xs == [] {
    } else {
      var ys := Rest(v, xs);
      forall i | 0 <= i < |ys| ensures ys[i] == xs[i + 1] && Apart(ys[i], MergeShape(v, xs[0])) {
        AfterApart(xs[i + 1], v, xs[0]);
        ApartMerge(xs[i + 1], v, xs[0]);
      }
      assert ys == xs[1..];
      EraseMerge(v, xs[0]);
      FoldMeans(MergeShape(v, xs[0]), ys);
    }
  }

  lemma FoldOne(c: Shape, v: Shape, x: Shape)
    ensures FoldOn(c, v, [x]) == AfterShape(c, v, x)
  {
    assert Rest(v, [x]) == [];
  }

  lemma FoldTwo(c: Shape, v: Shape, x: Shape, y: Shape)
    ensures FoldOn(c, v, [x, y]) == FoldOn(AfterShape(c, v, x), MergeShape(v, x), [AfterShape(y, v, x)])
  {
    assert Rest(v, [x, y]) == [AfterShape(y, v, x)];
  }

  lemma FoldThree(c: Shape, v: Shape, x: Shape, y: Shape, z: Shape)
    ensures FoldOn(c, v, [x, y, z])
         == FoldOn(AfterShape(c, v, x), MergeShape(v, x), [AfterShape(y, v, x), AfterShape(z, v, x)])
  {
    assert Rest(v, [x, y, z]) == [AfterShape(y, v, x), AfterShape(z, v, x)];
  }

  // ---------------------------------------------------------------- captured maps are written

  /** The first of two appliers, after the second was folded into what the first had left. */
  lemma {:induction false} AfterMerged(v: Shape, a: Shape, b: Shape)
    requires v.Shared? && a.Shared? && b.Shared? && Apart(a, v)
    ensures AfterShape(a, MergeShape(v, a), b).Shared?
    ensures TreeOf(AfterShape(a, MergeShape(v, a), b)) == V.Written(TreeOf(v), TreeOf(a), TreeOf(b))
    decreases a, 1
  {
    var w := AfterShape(a, MergeShape(v, a), b);
    forall k | k in a.entries ensures Erase(w.entries[k]) == V.WrittenAt(TreeOf(v), TreeOf(a), TreeOf(b), k) {
      AfterMergedKey(v, a, b, k);
    }
    assert TreeOf(w) == V.Written(TreeOf(v), TreeOf(a), TreeOf(b));
  }

  lemma {:induction false} AfterMergedKey(v: Shape, a: Shape, b: Shape, k: string)
    requires v.Shared? && a.Shared? && b.Shared? && Apart(a, v) && k in a.entries
    ensures var w := AfterShape(a, MergeShape(v, a), b);
            w.Shared? && k in w.entries && w.entries.Keys == a.entries.Keys
            && Erase(w.entries[k]) == V.WrittenAt(TreeOf(v), TreeOf(a), TreeOf(b), k)
    decreases a, 0
  {
    var x := a.entries[k];
    assert Has(v, v.dict);
    if k in b.entries && x.Shared? && b.entries[k].Shared? {
      if k in v.entries && v.entries[k].Shared? {
        ApartMono(x, v, v.entries[k]);
        AfterMerged(v.entries[k], x, b.entries[k]);
      } else {
        EraseMerge(x, b.entries[k]);
      }
    }
  }

  lemma EarlierAfter(v: Shape, a: Shape, b: Shape)
    requires v.Shared? && Unshared(v, [a, b])
    ensures FoldOn(a, v, [a, b]).Shared? && TreeOf(FoldOn(a, v, [a, b])) == V.Written(TreeOf(v), TreeOf(a), TreeOf(b))
  {
    var xs := [a, b];
    assert xs[0] == a && xs[1] == b;
    AfterApart(a, v, a);
    AfterApart(b, v, a);
    assert Rest(v, xs) == [b];
    FoldOne(a, MergeShape(v, a), b);
    AfterMerged(v, a, b);
  }

  /**
   What the missing copy in applyValues costs: after two appliers, the maps captured by the first
   have changed, unless the second brings nothing new wherever the target had no map of its own.
   */
  method LaterApplierWritesEarlier(values: Dict, a: Dict, b: Dict, ghost lay: Layout)
    requires Region(Now(lay), lay) && Root(lay, values) && Root(lay, a) && Root(lay, b)
    requires Unshared(ShapeOf(values, Now(lay), lay), [ShapeOf(a, Now(lay), lay), ShapeOf(b, Now(lay), lay)])
    modifies lay.at.Keys
    ensures Region(Now(lay), lay)
    ensures var h, h' := old(Now(lay)), Now(lay);
            var v, x, y := TreeOf(ShapeOf(values, h, lay)), TreeOf(ShapeOf(a, h, lay)), TreeOf(ShapeOf(b, h, lay));
            && TreeOf(ShapeOf(a, h', lay)) == V.Written(v, x, y)
            && (TreeOf(ShapeOf(a, h', lay)) == x <==> V.Harmless(v, x, y))
  {
    ghost var h := Now(lay);
    var appliers := [Applier(a, false), Applier(b, false)];
    var _ := RunAppliers(values, appliers, lay);
    assert Applied(appliers) == 2 && appliers[..2] == appliers by {
      assert appliers[1..] == [Applier(b, false)] && appliers[1..][1..] == [];
    }
    ghost var v, x, y := ShapeOf(values, h, lay), ShapeOf(a, h, lay), ShapeOf(b, h, lay);
    assert ShapesOf(appliers, h, lay) == [x, y];
    EarlierAfter(v, x, y);
    V.HarmlessMeans(TreeOf(v), TreeOf(x), TreeOf(y));
  }

  // ---------------------------------------------------------------- deep copies

  function Join(a: Layout, b: Layout): Layout {
    Layout(a.at + b.at, if a.height < b.height then b.height else a.height)
  }

  /** Two regions that have no map in common are one region. */
  lemma JoinRegion(h: Heap, a: Layout, g: Heap, b: Layout)
    requires Region(h, a) && Region(g, b) && a.at.Keys !! b.at.Keys
    requires forall d :: d in a.at ==> d in g && g[d] == h[d]
    ensures Region(g, Join(a, b))
  {
    var lay := Join(a, b);
    forall d | d in lay.at ensures d in g && Fits(g, lay, d) {
      assert if d in a.at then Fits(h, a, d) else Fits(g, b, d);
    }
  }

  /** A shape is the same in every region around it. */
  lemma {:induction false} ShapeSub(d: Dict, h: Heap, sub: Layout, g: Heap, lay: Layout)
    requires Region(h, sub) && Region(g, lay) && d in sub.at
    requires forall e :: e in sub.at ==> e in lay.at && sub.at[e] == lay.at[e] && h[e] == g[e]
    ensures ShapeOf(d, h, sub) == ShapeOf(d, g, lay)
    decreases sub.height - |sub.at[d]|
  {
    assert Fits(h, sub, d) && Fits(g, lay, d);
    forall k | k in h[d] ensures NodeShape(d, k, h, sub) == NodeShape(d, k, g, lay) {
      if h[d][k].Ref? {
        assert |sub.at[h[d][k].dict]| <= sub.height;
        ShapeSub(h[d][k].dict, h, sub, g, lay);
      }
    }
  }

  /** json.Marshal: the tree of a map. */
  ghost function Marshal(d: Dict, h: Heap, lay: Layout): V.Tree
    requires Region(h, lay) && d in lay.at
  {
    TreeOf(ShapeOf(d, h, lay))
  }

  /** A new entry under an unused key; v is what is found below it. */
  lemma AddEntry(h: Heap, lay: Layout, g: Heap, lay': Layout, d: Dict, k: string, v: V.Value)
    requires Region(h, lay) && Region(g, lay') && d in lay.at && k !in h[d]
    requires forall e :: e in lay.at ==> e in lay'.at && lay.at[e] == lay'.at[e]
    requires k in g[d]
    requires forall e :: e in lay.at && e != d ==> g[e] == h[e]
    requires g[d] - {k} == h[d] && Erase(NodeShape(d, k, g, lay')) == v
    ensures Marshal(d, g, lay') == Marshal(d, h, lay)[k := v]
  {
    assert Fits(h, lay, d) && Fits(g, lay', d);
    forall j | j in h[d] ensures j in g[d] && NodeShape(d, j, h, lay) == NodeShape(d, j, g, lay') {
      assert j in g[d] - {k};
      assert h[d][j] == (g[d] - {k})[j] == g[d][j];
      if h[d][j].Ref? {
        BelowAgrees(h[d][j].dict, d, h, lay, g, lay');
      }
    }
    assert g[d].Keys == h[d].Keys + {k} by {
      assert forall j :: j in g[d] && j != k ==> j in g[d] - {k};
    }
  }

  /** Below a child of d nothing changes when d does. */
  lemma {:induction false} BelowAgrees(e: Dict, d: Dict, h: Heap, lay: Layout, g: Heap, lay': Layout)
    requires Region(h, lay) && Region(g, lay') && d in lay.at && e in lay.at && |lay.at[e]| > |lay.at[d]|
    requires forall x :: x in lay.at ==> x in lay'.at && lay.at[x] == lay'.at[x]
    requires forall x :: x in lay.at && x != d ==> g[x] == h[x]
    ensures ShapeOf(e, h, lay) == ShapeOf(e, g, lay')
    decreases lay.height - |lay.at[e]|
  {
    assert Fits(h, lay, e) && Fits(g, lay', e);
    forall k | k in h[e] ensures NodeShape(e, k, h, lay) == NodeShape(e, k, g, lay') {
      if h[e][k].Ref? {
        assert |lay.at[h[e][k].dict]| <= lay.height;
        BelowAgrees(h[e][k].dict, d, h, lay, g, lay');
      }
    }
  }

  lemma LeafFits(h: Heap, g: Heap, lay: Layout, d: Dict, k: string, text: string)
    requires Region(h, lay) && d in lay.at && k !in h[d] && g == h[d := h[d][k := Leaf(text)]]
    ensures Region(g, lay) && Marshal(d, g, lay) == Marshal(d, h, lay)[k := V.Scalar(text)]
  {
    forall e | e in lay.at ensures Fits(g, lay, e) {
      assert Fits(h, lay, e);
    }
    assert g[d] - {k} == h[d];
    AddEntry(h, lay, g, lay, d, k, V.Scalar(text));
  }

  lemma ChildRegion(h: Heap, lay: Layout, g: Heap, sub: Layout, h': Heap, d: Dict, k: string, e: Dict)
    requires Region(h, lay) && Region(g, sub) && lay.at.Keys !! sub.at.Keys
    requires d in lay.at && e in sub.at && sub.at[e] == lay.at[d] + [k]
    requires h' == (h + g)[d := h[d][k := Ref(e)]] && h.Keys == lay.at.Keys && g.Keys == sub.at.Keys
    ensures Region(h', Join(lay, sub))
  {
    var all := Join(lay, sub);
    forall x | x in lay.at ensures Fits(h', all, x) {
      assert Fits(h, lay, x);
    }
    forall x | x in sub.at ensures Fits(h', all, x) {
      assert Fits(g, sub, x);
    }
  }

  lemma ChildFits(h: Heap, lay: Layout, g: Heap, sub: Layout, h': Heap, d: Dict, k: string, e: Dict)
    requires Region(h, lay) && Region(g, sub) && lay.at.Keys !! sub.at.Keys
    requires d in lay.at && e in sub.at && sub.at[e] == lay.at[d] + [k] && k !in h[d]
    requires h' == (h + g)[d := h[d][k := Ref(e)]] && h.Keys == lay.at.Keys && g.Keys == sub.at.Keys
    ensures Region(h', Join(lay, sub))
    ensures Marshal(d, h', Join(lay, sub)) == Marshal(d, h, lay)[k := V.Map(Marshal(e, g, sub))]
  {
    ChildRegion(h, lay, g, sub, h', d, k, e);
    ShapeSub(e, g, sub, h', Join(lay, sub));
    assert h'[d] - {k} == h[d];
    AddEntry(h, lay, h', Join(lay, sub), d, k, V.Map(Marshal(e, g, sub)));
  }

  method SetLeaf(d: Dict, k: string, text: string, ghost lay: Layout)
    requires Region(Now(lay), lay) && d in lay.at && k !in d.entries
    modifies d
    ensures Region(Now(lay), lay) && Marshal(d, Now(lay), lay) == old(Marshal(d, Now(lay), lay))[k := V.Scalar(text)]
  {
    ghost var h := Now(lay);
    d.entries := d.entries[k := Leaf(text)];
    assert Now(lay) == h[d := h[d][k := Leaf(text)]];
    LeafFits(h, Now(lay), lay, d, k, text);
  }

  method SetChild(d: Dict, k: string, e: Dict, ghost lay: Layout, ghost sub: Layout)
    requires Region(Now(lay), lay) && Region(Now(sub), sub) && lay.at.Keys !! sub.at.Keys
    requires d in lay.at && e in sub.at && sub.at[e] == lay.at[d] + [k] && k !in d.entries
    modifies d
    ensures Region(Now(Join(lay, sub)), Join(lay, sub))
    ensures Marshal(d, Now(Join(lay, sub)), Join(lay, sub))
         == old(Marshal(d, Now(lay), lay)[k := V.Map(Marshal(e, Now(sub), sub))])
  {
    ghost var h: Heap, g: Heap := Now(lay), Now(sub);
    ghost var all: Heap := h + g;
    d.entries := d.entries[k := Ref(e)];
    assert Now(Join(lay, sub)) == all[d := h[d][k := Ref(e)]];
    ChildFits(h, lay, g, sub, Now(Join(lay, sub)), d, k, e);
  }

  /** json.Unmarshal, or that of YAML: new maps for a tree. */
  method Unmarshal(t: V.Tree, ghost p: V.Path) returns (d: Dict, ghost lay: Layout)
    ensures fresh(lay.at.Keys) && d in lay.at && lay.at[d] == p
    ensures Region(Now(lay), lay) && Marshal(d, Now(lay), lay) == t
    decreases V.Map(t)
  {
    d := new Dict();
    lay := Layout(map[d := p], |p|);
    var todo := t.Keys;
    while todo != {}
      invariant todo <= t.Keys && fresh(lay.at.Keys) && d in lay.at && lay.at[d] == p
      invariant Region(Now(lay), lay) && Marshal(d, Now(lay), lay) == t - todo
      decreases todo
    {
      var k :| k in todo;
      assert k !in t - todo && (t - todo)[k := t[k]] == t - (todo - {k});
      if t[k].Scalar? {
        SetLeaf(d, k, t[k].text, lay);
      } else {
        var e, sub := Unmarshal(t[k].entries, p + [k]);
        SetChild(d, k, e, lay, sub);
        lay := Join(lay, sub);
      }
      todo := todo - {k};
    }
  }

  /** json.Marshal as it runs, map by map. */
  function Encode(d: Dict, ghost lay: Layout): V.Tree
    requires Region(Now(lay), lay) && d in lay.at
    reads lay.at.Keys
    decreases lay.height - |lay.at[d]|
  {
    assert Fits(Now(lay), lay, d) && Now(lay)[d] == d.entries;
    map k | k in d.entries ::
      if d.entries[k].Leaf? then V.Scalar(d.entries[k].text)
      else
        assert d.entries[k].dict in lay.at && |lay.at[d.entries[k].dict]| <= lay.height;
        V.Map(Encode(d.entries[k].dict, lay))
  }

  lemma {:induction false} EncodeMeans(d: Dict, lay: Layout)
    requires Region(Now(lay), lay) && d in lay.at
    ensures Encode(d, lay) == Marshal(d, Now(lay), lay)
    decreases lay.height - |lay.at[d]|
  {
    var h := Now(lay);
    assert Fits(h, lay, d) && h[d] == d.entries;
    forall k | k in d.entries ensures Encode(d, lay)[k] == Erase(NodeShape(d, k, h, lay)) {
      if d.entries[k].Ref? {
        assert |lay.at[d.entries[k].dict]| <= lay.height;
        EncodeMeans(d.entries[k].dict, lay);
      }
    }
  }

  /** copyValues: an equal tree of new maps. */
  method CopyValues(src: Dict, ghost lay: Layout) returns (dst: Dict, ghost sub: Layout)
    requires Region(Now(lay), lay) && src in lay.at
    ensures fresh(sub.at.Keys) && Root(sub, dst) && Region(Now(sub), sub)
    ensures Marshal(dst, Now(sub), sub) == Marshal(src, Now(lay), lay)
  {
    var data := Encode(src, lay);
    EncodeMeans(src, lay);
    dst, sub := Unmarshal(data, []);
  }

  // ---------------------------------------------------------------- isolation

  lemma {:induction false} ShapeIn(d: Dict, h: Heap, lay: Layout, e: Dict)
    requires Region(h, lay) && d in lay.at && Has(ShapeOf(d, h, lay), e)
    ensures e in lay.at
    decreases lay.height - |lay.at[d]|
  {
    if e != d {
      var s := ShapeOf(d, h, lay);
      var k :| k in s.entries && Has(s.entries[k], e);
      assert Fits(h, lay, d) && s.entries[k] == NodeShape(d, k, h, lay);
      assert |lay.at[h[d][k].dict]| <= lay.height;
      ShapeIn(h[d][k].dict, h, lay, e);
    }
  }

  lemma {:induction false} ApartByPlace(x: Shape, y: Shape, place: set<Dict>)
    requires forall d :: Has(x, d) ==> d in place
    requires forall d :: Has(y, d) ==> d !in place
    ensures Apart(x, y)
    decreases x
  {
    if x.Shared? {
      assert Has(x, x.dict);
      forall k | k in x.entries ensures Apart(x.entries[k], y) {
        ApartByPlace(x.entries[k], y, place);
      }
    }
  }

  /** Maps of different regions share nothing. */
  lemma ApartRegions(c: Dict, h: Heap, lay: Layout, d: Dict, g: Heap, sub: Layout)
    requires Region(h, lay) && Region(g, sub) && c in lay.at && d in sub.at && lay.at.Keys !! sub.at.Keys
    ensures Apart(ShapeOf(c, h, lay), ShapeOf(d, g, sub))
  {
    var x, y := ShapeOf(c, h, lay), ShapeOf(d, g, sub);
    forall e | Has(x, e) ensures e in lay.at { ShapeIn(c, h, lay, e); }
    forall e | Has(y, e) ensures e !in lay.at { ShapeIn(d, g, sub, e); }
    ApartByPlace(x, y, lay.at.Keys);
  }

  /** No two appliers share a map. */
  predicate Disjoint(xs: seq<Shape>) {
    forall i, j :: 0 <= i < j < |xs| ==> Apart(xs[j], xs[i])
  }

  /** The region after copying: what was there, and the copy. */
  ghost predicate Extends(lay: Layout, lay': Layout) {
    forall d :: d in lay.at ==> d in lay'.at && lay.at[d] == lay'.at[d]
  }

  /** The map c shares nothing with any applier. */
  ghost predicate Unwritten(c: Dict, appliers: seq<Applier>, h: Heap, lay: Layout)
    requires Region(h, lay) && c in lay.at && Roots(lay, appliers)
  {
    forall i :: 0 <= i < |appliers| ==> Apart(ShapeOf(c, h, lay), ShapeOf(appliers[i].values, h, lay))
  }

  /** lay with heap h, and a copy sub with heap g, seen as one region with heap m. */
  ghost predicate Joined(h: Heap, lay: Layout, g: Heap, sub: Layout, m: Heap) {
    && Region(h, lay) && Region(g, sub) && lay.at.Keys !! sub.at.Keys
    && (forall d :: d in lay.at ==> d in m && m[d] == h[d])
    && (forall d :: d in sub.at ==> d in m && m[d] == g[d])
  }

  lemma JoinedRegion(h: Heap, lay: Layout, g: Heap, sub: Layout, m: Heap)
    requires Joined(h, lay, g, sub, m)
    ensures Region(m, Join(lay, sub))
  {
    forall d | d in sub.at ensures Fits(m, sub, d) {
      assert Fits(g, sub, d);
    }
    JoinRegion(h, lay, m, sub);
  }

  lemma JoinedShapes(h: Heap, lay: Layout, g: Heap, sub: Layout, m: Heap, appliers: seq<Applier>, v: Dict)
    requires Joined(h, lay, g, sub, m) && Roots(lay, appliers) && v in sub.at
    ensures Region(m, Join(lay, sub)) && Roots(Join(lay, sub), appliers)
    ensures ShapesOf(appliers, m, Join(lay, sub)) == ShapesOf(appliers, h, lay)
    ensures ShapeOf(v, m, Join(lay, sub)) == ShapeOf(v, g, sub)
  {
    JoinedRegion(h, lay, g, sub, m);
    forall i | 0 <= i < |appliers|
      ensures ShapeOf(appliers[i].values, m, Join(lay, sub)) == ShapeOf(appliers[i].values, h, lay)
    {
      ShapeSub(appliers[i].values, h, lay, m, Join(lay, sub));
    }
    ShapeSub(v, g, sub, m, Join(lay, sub));
  }

  /** After the fold, a map that shares nothing with the appliers is as it was. */
  lemma RunKeeps(h: Heap, lay: Layout, g: Heap, sub: Layout, m: Heap, n: Heap, v: Dict, appliers: seq<Applier>, c: Dict)
    requires Joined(h, lay, g, sub, m) && Roots(lay, appliers) && Root(sub, v) && Root(lay, c)
    requires Region(m, Join(lay, sub)) && Region(n, Join(lay, sub)) && Roots(Join(lay, sub), appliers)
    requires Folded(m, n, Join(lay, sub), v, appliers) && Unwritten(c, appliers, h, lay)
    ensures ShapeOf(c, n, Join(lay, sub)) == ShapeOf(c, h, lay)
  {
    JoinedShapes(h, lay, g, sub, m, appliers, v);
    ShapeSub(c, h, lay, m, Join(lay, sub));
    ApartRegions(c, h, lay, v, g, sub);
    FoldKeeps(ShapeOf(c, h, lay), ShapeOf(v, g, sub), ShapesOf(appliers, h, lay));
  }

  /** ... and, without sharing among them, the copy holds the fold of the merges. */
  lemma RunMeans(h: Heap, lay: Layout, g: Heap, sub: Layout, m: Heap, n: Heap, v: Dict, appliers: seq<Applier>)
    requires Joined(h, lay, g, sub, m) && Roots(lay, appliers) && Root(sub, v)
    requires Region(m, Join(lay, sub)) && Region(n, Join(lay, sub)) && Roots(Join(lay, sub), appliers)
    requires Folded(m, n, Join(lay, sub), v, appliers) && Disjoint(ShapesOf(appliers, h, lay))
    ensures Marshal(v, n, Join(lay, sub)) == MergeAll(Marshal(v, g, sub), ShapesOf(appliers, h, lay))
  {
    JoinedShapes(h, lay, g, sub, m, appliers, v);
    var xs := ShapesOf(appliers, h, lay);
    forall i | 0 <= i < |xs| ensures Apart(xs[i], ShapeOf(v, g, sub)) {
      ApartRegions(appliers[i].values, h, lay, v, g, sub);
    }
    FoldMeans(ShapeOf(v, g, sub), xs);
  }

  /** The exact effect of folding `run` into a copy: on the copy, and on every root there was. */
  ghost predicate Ran(h: Heap, lay: Layout, copy: Shape, n: Heap, lay': Layout, run: seq<Applier>)
    requires Region(h, lay) && Roots(lay, run) && Region(n, lay') && Extends(lay, lay')
    requires copy.Shared? && copy.dict in lay'.at
  {
    && ShapeOf(copy.dict, n, lay') == FoldOn(copy, copy, ShapesOf(run, h, lay))
    && (forall c :: c in lay.at && Root(lay, c) ==>
          && Apart(ShapeOf(c, h, lay), copy)
          && ShapeOf(c, n, lay') == FoldOn(ShapeOf(c, h, lay), copy, ShapesOf(run, h, lay)))
  }

  lemma RunIsExact(h: Heap, lay: Layout, g: Heap, sub: Layout, m: Heap, n: Heap, v: Dict, run: seq<Applier>)
    requires Joined(h, lay, g, sub, m) && Roots(lay, run) && Root(sub, v)
    requires Region(m, Join(lay, sub)) && Region(n, Join(lay, sub)) && Roots(Join(lay, sub), run)
    requires Folded(m, n, Join(lay, sub), v, run)
    ensures Ran(h, lay, ShapeOf(v, g, sub), n, Join(lay, sub), run)
  {
    JoinedShapes(h, lay, g, sub, m, run, v);
    forall c | c in lay.at && Root(lay, c)
      ensures ShapeOf(c, m, Join(lay, sub)) == ShapeOf(c, h, lay)
      ensures Apart(ShapeOf(c, h, lay), ShapeOf(v, g, sub))
    {
      ShapeSub(c, h, lay, m, Join(lay, sub));
      ApartRegions(c, h, lay, v, g, sub);
    }
  }

  lemma RunEnds(h: Heap, lay: Layout, g: Heap, sub: Layout, m: Heap, n: Heap, v: Dict, appliers: seq<Applier>)
    requires Joined(h, lay, g, sub, m) && Roots(lay, appliers) && Root(sub, v)
    requires Region(m, Join(lay, sub)) && Region(n, Join(lay, sub)) && Roots(Join(lay, sub), appliers)
    requires Applied(appliers) <= |appliers| && Folded(m, n, Join(lay, sub), v, appliers[..Applied(appliers)])
    ensures forall c :: c in lay.at && Root(lay, c) && Unwritten(c, appliers, h, lay) ==>
              ShapeOf(c, n, Join(lay, sub)) == ShapeOf(c, h, lay)
    ensures (forall i :: 0 <= i < |appliers| ==> !appliers[i].fails) && Disjoint(ShapesOf(appliers, h, lay)) ==>
              Marshal(v, n, Join(lay, sub)) == MergeAll(Marshal(v, g, sub), ShapesOf(appliers, h, lay))
  {
    AppliedMeans(appliers);
    var run := appliers[..Applied(appliers)];
    forall c | c in lay.at && Root(lay, c) && Unwritten(c, appliers, h, lay)
      ensures ShapeOf(c, n, Join(lay, sub)) == ShapeOf(c, h, lay)
    {
      RunKeeps(h, lay, g, sub, m, n, v, run, c);
    }
    if (forall i :: 0 <= i < |appliers| ==> !appliers[i].fails) && Disjoint(ShapesOf(appliers, h, lay)) {
      assert run == appliers;
      RunMeans(h, lay, g, sub, m, n, v, appliers);
    }
  }

  /**
   Copy values and fold appliers into the copy, as NewReleaseCli and initValues do. A map that
   shares nothing with the appliers is as it was, whatever the appliers share among themselves and
   whether or not one of them fails. If they share nothing either, the result is the fold of the merges.
   */
  method CopyAndRun(src: Dict, appliers: seq<Applier>, ghost lay: Layout)
    returns (ok: bool, values: Dict, ghost copy: Shape, ghost lay': Layout)
    requires Region(Now(lay), lay) && Root(lay, src) && Roots(lay, appliers)
    modifies lay.at.Keys
    ensures Extends(lay, lay') && fresh(lay'.at.Keys - lay.at.Keys) && Region(Now(lay'), lay') && Root(lay', values)
    ensures copy.Shared? && copy.dict == values && TreeOf(copy) == old(Marshal(src, Now(lay), lay))
    ensures Applied(appliers) <= |appliers|
    ensures Ran(old(Now(lay)), lay, copy, Now(lay'), lay', appliers[..Applied(appliers)])
    ensures ok <==> forall i :: 0 <= i < |appliers| ==> !appliers[i].fails
    ensures forall c :: c in lay.at && Root(lay, c) && old(Unwritten(c, appliers, Now(lay), lay)) ==>
              ShapeOf(c, Now(lay'), lay') == old(ShapeOf(c, Now(lay), lay))
    ensures var xs := old(ShapesOf(appliers, Now(lay), lay));
            ok && Disjoint(xs) ==> Marshal(values, Now(lay'), lay') == MergeAll(old(Marshal(src, Now(lay), lay)), xs)
  {
    ghost var h := Now(lay);
    ghost var sub;
    values, sub := CopyValues(src, lay);
    lay', copy := Join(lay, sub), ShapeOf(values, Now(sub), sub);
    ghost var g, m := Now(sub), Now(lay');
    assert Joined(h, lay, g, sub, m);
    JoinedRegion(h, lay, g, sub, m);
    ok := RunAppliers(values, appliers, lay');
    RunIsExact(h, lay, g, sub, m, Now(lay'), values, appliers[..Applied(appliers)]);
    RunEnds(h, lay, g, sub, m, Now(lay'), values, appliers);
  }

  function Single(d: Dict, k: string, s: Shape): Shape {
    Shared(d, map[k := s])
  }

  lemma SingleAfter(c: Dict, d: Dict, e: Dict, k: string, s: Shape, u: Shape, w: Shape)
    requires c != d
    ensures AfterShape(Single(c, k, s), Single(d, k, u), Single(e, k, w)) == Single(c, k, AfterShape(s, u, w))
  {
  }

  lemma SingleMerge(d: Dict, e: Dict, k: string, u: Shape, w: Shape)
    ensures MergeShape(Single(d, k, u), Single(e, k, w)) == Single(d, k, MergeShape(u, w))
  {
    assert {k} + {k} == {k};
  }

  /**
   Values that share a map s with an applier need not be isolated. The copy has a map u of its own
   in its place; a scalar, then s, then w are applied under that key: the scalar replaces u, s is
   stored without a copy, and w is merged into s, that is, into the values themselves.
   */
  lemma SharedMapIsWritten(k: string, s: Shape, u: Shape, w: Shape, x: Dict, v: Dict, a: Dict, c: Dict, b: Dict)
    requires s.Shared? && u.Shared? && w.Shared? && x != v && c != v && b != v
    ensures FoldOn(Single(x, k, s), Single(v, k, u), [Single(a, k, Scalar("")), Single(c, k, s), Single(b, k, w)])
         == Single(x, k, MergeShape(s, w))
  {
    var none := Scalar("");
    FoldThree(Single(x, k, s), Single(v, k, u), Single(a, k, none), Single(c, k, s), Single(b, k, w));
    SingleAfter(x, v, a, k, s, u, none);
    SingleAfter(c, v, a, k, s, u, none);
    SingleAfter(b, v, a, k, w, u, none);
    SingleMerge(v, a, k, u, none);
    FoldTwo(Single(x, k, s), Single(v, k, none), Single(c, k, s), Single(b, k, w));
    SingleAfter(x, v, c, k, s, none, s);
    SingleAfter(b, v, c, k, w, none, s);
    SingleMerge(v, c, k, none, s);
    FoldOne(Single(x, k, s), Single(v, k, s), Single(b, k, w));
    SingleAfter(x, v, b, k, s, s, w);
  }

  class ReleaseCli {
    var values: Dict

    constructor (values: Dict)
      ensures this.values == values
    {
      this.values := values;
    }

    /** NewReleaseCli: the chart's default values are copied before anything is applied. */
    static method New(chart: Dict, appliers: seq<Applier>, ghost lay: Layout)
      returns (cli: Option<ReleaseCli>, ghost copy: Shape, ghost lay': Layout)
      requires Region(Now(lay), lay) && Root(lay, chart) && Roots(lay, appliers)
      modifies lay.at.Keys
      ensures Extends(lay, lay') && fresh(lay'.at.Keys - lay.at.Keys) && Region(Now(lay'), lay')
      ensures copy.Shared? && Root(lay', copy.dict) && TreeOf(copy) == old(Marshal(chart, Now(lay), lay))
      ensures Applied(appliers) <= |appliers|
      ensures Ran(old(Now(lay)), lay, copy, Now(lay'), lay', appliers[..Applied(appliers)])
      ensures old(Unwritten(chart, appliers, Now(lay), lay)) ==>
                ShapeOf(chart, Now(lay'), lay') == old(ShapeOf(chart, Now(lay), lay))
      ensures cli.None? <==> exists i :: 0 <= i < |appliers| && appliers[i].fails
      ensures cli.Some? ==> fresh(cli.value) && cli.value.values == copy.dict
      ensures var xs := old(ShapesOf(appliers, Now(lay), lay));
              cli.Some? && Disjoint(xs) ==>
                Marshal(cli.value.values, Now(lay'), lay') == MergeAll(old(Marshal(chart, Now(lay), lay)), xs)
    {
      var ok, values;
      ok, values, copy, lay' := CopyAndRun(chart, appliers, lay);
      if !ok {
        return None, copy, lay';
      }
      var c := new ReleaseCli(values);
      cli := Some(c);
    }

    /** initValues: works on a copy, so the client's own values are as before even when an applier fails. */
    method InitValues(appliers: seq<Applier>, ghost lay: Layout)
      returns (r: Option<Dict>, ghost copy: Shape, ghost lay': Layout)
      requires Region(Now(lay), lay) && Root(lay, values) && Roots(lay, appliers)
      modifies lay.at.Keys
      ensures unchanged(this) && Extends(lay, lay') && Region(Now(lay'), lay')
      ensures copy.Shared? && Root(lay', copy.dict) && TreeOf(copy) == old(Marshal(values, Now(lay), lay))
      ensures Applied(appliers) <= |appliers|
      ensures Ran(old(Now(lay)), lay, copy, Now(lay'), lay', appliers[..Applied(appliers)])
      ensures old(Unwritten(values, appliers, Now(lay), lay)) ==>
                ShapeOf(values, Now(lay'), lay') == old(ShapeOf(values, Now(lay), lay))
      ensures r.None? <==> exists i :: 0 <= i < |appliers| && appliers[i].fails
      ensures r.Some? ==> r.value == copy.dict
      ensures var xs := old(ShapesOf(appliers, Now(lay), lay));
              r.Some? && Disjoint(xs) ==>
                Marshal(r.value, Now(lay'), lay') == MergeAll(old(Marshal(values, Now(lay), lay)), xs)
    {
      var ok, target;
      ok, target, copy, lay' := CopyAndRun(values, appliers, lay);
      r := if ok then Some(target) else None;
    }
  }

  // ---------------------------------------------------------------- values that are written

  /** New values beside those of a region, as an applier reads them from YAML or JSON. */
  method LoadValues(t: V.Tree, ghost lay: Layout) returns (d: Dict, ghost lay': Layout)
    requires Region(Now(lay), lay)
    ensures Extends(lay, lay') && fresh(lay'.at.Keys - lay.at.Keys) && Region(Now(lay'), lay')
    ensures d !in lay.at && Root(lay', d) && Marshal(d, Now(lay'), lay') == t
    ensures forall c :: c in lay.at ==>
              && ShapeOf(c, Now(lay'), lay') == old(ShapeOf(c, Now(lay), lay))
              && Apart(ShapeOf(d, Now(lay'), lay'), ShapeOf(c, Now(lay'), lay'))
  {
    ghost var h := Now(lay);
    ghost var sub;
    d, sub := Unmarshal(t, []);
    lay' := Join(lay, sub);
    ghost var g, m := Now(sub), Now(lay');
    assert Joined(h, lay, g, sub, m);
    JoinedRegion(h, lay, g, sub, m);
    ShapeSub(d, g, sub, m, lay');
    forall c | c in lay.at
      ensures ShapeOf(c, m, lay') == ShapeOf(c, h, lay) && Apart(ShapeOf(d, m, lay'), ShapeOf(c, m, lay'))
    {
      ShapeSub(c, h, lay, m, lay');
      ApartRegions(d, g, sub, c, h, lay);
    }
  }

  /** Two appliers on a chart without values: the map that the first has captured ends up changed. */
  method CapturedMapChanges() returns (before: V.Tree, after: V.Tree, a: Dict, ghost lay: Layout)
    ensures Region(Now(lay), lay) && Root(lay, a) && after == Marshal(a, Now(lay), lay)
    ensures before == map["k" := V.Map(map[])] && after == map["k" := V.Map(map["x" := V.Scalar("1")])]
  {
    var values, b;
    values, lay := Unmarshal(map[], []);
    a, lay := LoadValues(map["k" := V.Map(map[])], lay);
    b, lay := LoadValues(map["k" := V.Map(map["x" := V.Scalar("1")])], lay);
    before := Encode(a, lay);
    EncodeMeans(a, lay);
    LaterApplierWritesEarlier(values, a, b, lay);
    ghost var v, x, y := V.NotHarmless();
    after := Encode(a, lay);
    EncodeMeans(a, lay);
  }

  /** A shape whose tree has one entry. */
  lemma SingleTree(s: Shape, k: string, v: V.Value)
    requires s.Shared? && TreeOf(s) == map[k := v]
    ensures k in s.entries && s == Single(s.dict, k, s.entries[k]) && Erase(s.entries[k]) == v
  {
    assert TreeOf(s).Keys == s.entries.Keys == {k};
    assert TreeOf(s)[k] == v;
    assert s.entries == map[k := s.entries[k]];
  }

  lemma TreeOfSingle(d: Dict, k: string, s: Shape)
    ensures TreeOf(Single(d, k, s)) == map[k := Erase(s)]
  {
  }

  /** Under k, which is all they hold, the values and the applier c have one and the same map s. */
  ghost predicate Shares(values: Dict, c: Dict, k: string, s: Shape, h: Heap, lay: Layout)
    requires Region(h, lay)
  {
    && Root(lay, values) && Root(lay, c) && s.Shared?
    && ShapeOf(values, h, lay) == Single(values, k, s) && ShapeOf(c, h, lay) == Single(c, k, s)
  }

  /** A scalar, the shared map and then w, folded into a copy of such values. */
  lemma RunWrites(h: Heap, lay: Layout, copy: Shape, n: Heap, lay': Layout, appliers: seq<Applier>,
                  values: Dict, k: string, s: Shape, w: Shape)
    requires Region(h, lay) && Roots(lay, appliers) && Region(n, lay') && Extends(lay, lay')
    requires copy.Shared? && copy.dict in lay'.at && Ran(h, lay, copy, n, lay', appliers)
    requires |appliers| == 3 && Shares(values, appliers[1].values, k, s, h, lay)
    requires TreeOf(copy) == Marshal(values, h, lay) && w.Shared?
    requires ShapeOf(appliers[0].values, h, lay) == Single(appliers[0].values, k, Scalar(""))
    requires ShapeOf(appliers[2].values, h, lay) == Single(appliers[2].values, k, w)
    ensures values in lay'.at && ShapeOf(values, n, lay') == Single(values, k, MergeShape(s, w))
  {
    var v, a, c, b := copy.dict, appliers[0].values, appliers[1].values, appliers[2].values;
    assert ShapesOf(appliers, h, lay) == [Single(a, k, Scalar("")), Single(c, k, s), Single(b, k, w)];
    TreeOfSingle(values, k, s);
    SingleTree(copy, k, Erase(s));
    assert Has(copy, v);
    SharedMapIsWritten(k, s, copy.entries[k], w, values, v, a, c, b);
  }

  /**
   initValues on a client that shares a map s with an applier c, between an applier with a scalar
   and one with a map w: the client's own values take w in.
   */
  method InitValuesWritesClient(cli: ReleaseCli, k: string, a: Dict, c: Dict, b: Dict,
                                ghost s: Shape, ghost w: Shape, ghost lay: Layout)
    returns (ghost lay': Layout)
    requires Region(Now(lay), lay) && Shares(cli.values, c, k, s, Now(lay), lay)
    requires Root(lay, a) && ShapeOf(a, Now(lay), lay) == Single(a, k, Scalar(""))
    requires Root(lay, b) && ShapeOf(b, Now(lay), lay) == Single(b, k, w) && w.Shared?
    modifies lay.at.Keys
    ensures unchanged(cli) && Region(Now(lay'), lay') && Root(lay', cli.values)
    ensures ShapeOf(cli.values, Now(lay'), lay') == Single(cli.values, k, MergeShape(s, w))
    ensures ShapeOf(cli.values, Now(lay'), lay') == Single(cli.values, k, s) <==> Absorbed(s, w)
  {
    ghost var h := Now(lay);
    var appliers := [Applier(a, false), Applier(c, false), Applier(b, false)];
    var _, copy, after := cli.InitValues(appliers, lay);
    lay' := after;
    AppliedMeans(appliers);
    assert appliers[..3] == appliers;
    RunWrites(h, lay, copy, Now(lay'), lay', appliers, cli.values, k, s, w);
    AbsorbedMeans(s, w);
    assert Single(cli.values, k, s).entries[k] == s;
    assert Single(cli.values, k, MergeShape(s, w)).entries[k] == MergeShape(s, w);
  }

  lemma RunShares(h: Heap, lay: Layout, copy: Shape, n: Heap, lay': Layout, appliers: seq<Applier>,
                  k: string, s: Shape)
    requires Region(h, lay) && Roots(lay, appliers) && Region(n, lay') && Extends(lay, lay')
    requires copy.Shared? && Root(lay', copy.dict) && Ran(h, lay, copy, n, lay', appliers)
    requires |appliers| == 1 && TreeOf(copy) == map[] && s.Shared?
    requires ShapeOf(appliers[0].values, h, lay) == Single(appliers[0].values, k, s)
    ensures Shares(copy.dict, appliers[0].values, k, s, n, lay')
  {
    var x := Single(appliers[0].values, k, s);
    assert ShapesOf(appliers, h, lay) == [x];
    assert TreeOf(copy).Keys == copy.entries.Keys;
    FoldOne(copy, copy, x);
    FoldOne(x, copy, x);
    AfterApart(x, copy, x);
    assert MergeShape(copy, x).entries == map[k := s];
  }

  /** NewReleaseCli stores the map of an applier in the client's values without a copy. */
  method NewSharesApplier(chart: Dict, c: Dict, k: string, ghost s: Shape, ghost lay: Layout)
    returns (cli: ReleaseCli, ghost lay': Layout)
    requires Region(Now(lay), lay) && Root(lay, chart) && Root(lay, c)
    requires Marshal(chart, Now(lay), lay) == map[] && s.Shared? && ShapeOf(c, Now(lay), lay) == Single(c, k, s)
    modifies lay.at.Keys
    ensures fresh(cli) && Extends(lay, lay') && fresh(lay'.at.Keys - lay.at.Keys)
    ensures Region(Now(lay'), lay') && Shares(cli.values, c, k, s, Now(lay'), lay')
  {
    ghost var h := Now(lay);
    var appliers := [Applier(c, false)];
    var made, copy, after := ReleaseCli.New(chart, appliers, lay);
    cli, lay' := made.value, after;
    assert appliers[..1] == appliers && Applied(appliers) == 1;
    RunShares(h, lay, copy, Now(lay'), lay', appliers, k, s);
  }

  /** Values with one entry. */
  method LoadEntry(k: string, v: V.Value, ghost lay: Layout) returns (d: Dict, ghost u: Shape, ghost lay': Layout)
    requires Region(Now(lay), lay)
    ensures Extends(lay, lay') && fresh(lay'.at.Keys - lay.at.Keys) && Region(Now(lay'), lay') && Root(lay', d)
    ensures ShapeOf(d, Now(lay'), lay') == Single(d, k, u) && Erase(u) == v
    ensures forall c :: c in lay.at ==> ShapeOf(c, Now(lay'), lay') == old(ShapeOf(c, Now(lay), lay))
  {
    d, lay' := LoadValues(map[k := v], lay);
    ghost var x := ShapeOf(d, Now(lay'), lay');
    SingleTree(x, k, v);
    u := x.entries[k];
  }

  /** An empty map before and after t is merged into it. */
  lemma GrownTrees(d: Dict, k: string, s: Shape, w: Shape, t: V.Tree)
    requires Erase(s) == V.Map(map[]) && Erase(w) == V.Map(t)
    ensures TreeOf(Single(d, k, s)) == map[k := V.Map(map[])]
    ensures TreeOf(Single(d, k, MergeShape(s, w))) == map[k := V.Map(t)]
  {
    TreeOfSingle(d, k, s);
    TreeOfSingle(d, k, MergeShape(s, w));
    EraseMerge(s, w);
    assert V.Merge(map[], t) == t;
  }

  /** initValues on a client that shares an empty map with an applier: its values grow. */
  method ClientGrows(cli: ReleaseCli, k: string, c: Dict, t: V.Tree, ghost s: Shape, ghost lay: Layout)
    returns (ghost lay': Layout)
    requires Region(Now(lay), lay) && Shares(cli.values, c, k, s, Now(lay), lay) && Erase(s) == V.Map(map[])
    modifies lay.at.Keys
    ensures unchanged(cli) && Region(Now(lay'), lay') && Root(lay', cli.values)
    ensures old(Marshal(cli.values, Now(lay), lay)) == map[k := V.Map(map[])]
    ensures Marshal(cli.values, Now(lay'), lay') == map[k := V.Map(t)]
  {
    var a, u, first := LoadEntry(k, V.Scalar(""), lay);
    var b, w, second := LoadEntry(k, V.Map(t), first);
    lay' := InitValuesWritesClient(cli, k, a, c, b, s, w, second);
    GrownTrees(cli.values, k, s, w, t);
  }

  /** The client of a chart without values and an applier with an empty map is one. */
  method ClientValuesChange() returns (before: V.Tree, after: V.Tree, cli: ReleaseCli, ghost lay: Layout)
    ensures Region(Now(lay), lay) && Root(lay, cli.values) && after == Marshal(cli.values, Now(lay), lay)
    ensures before == map["k" := V.Map(map[])] && after == map["k" := V.Map(map["x" := V.Scalar("1")])]
  {
    var chart, start := Unmarshal(map[], []);
    var c, s, loaded := LoadEntry("k", V.Map(map[]), start);
    cli, lay := NewSharesApplier(chart, c, "k", s, loaded);
    before := Encode(cli.values, lay);
    EncodeMeans(cli.values, lay);
    lay := ClientGrows(cli, "k", c, map["x" := V.Scalar("1")], s, lay);
    after := Encode(cli.values, lay);
    EncodeMeans(cli.values, lay);
  }
}
