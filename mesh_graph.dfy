/** The connectivity graph of an indexed triangle mesh (`VertexGraph`, a
    `std::map` from vertex index to a list of neighbour indices) and
    `buildGraph`, which derives it from the flat triangle index list. */
module MeshGraph {

  /** `VertexGraph`: vertex index to the list of its neighbours' indices. */
  type Graph = map<nat, seq<nat>>

  /** `std::map::insert`: adds `(k, l)` only when `k` is not yet a key, and
      reports whether it did; an existing entry is never overwritten. */
  function MapInsert(g: Graph, k: nat, l: seq<nat>): (r: (Graph, bool))
    ensures r.1 <==> k !in g
    ensures r.0.Keys == g.Keys + {k}
    ensures r.0[k] == if r.1 then l else g[k]
    ensures forall j :: j in g ==> r.0[j] == g[j]
    ensures k in g ==> r.0 == g
  {
    if k in g then (g, false) else (g[k := l], true)
  }

  /** `std::map::operator[]`: the entry under `k`, inserting an empty list
      first when `k` is not yet a key. */
  function MapSubscript(g: Graph, k: nat): (r: (Graph, seq<nat>))
    ensures r.0.Keys == g.Keys + {k}
    ensures forall j :: j in g ==> r.0[j] == g[j]
    ensures r.1 == r.0[k]
    ensures r.1 == [] || k in g
  {
    if k in g then (g, g[k]) else (g[k := []], [])
  }

  /** The graph after `operator[]` has been applied to every key `0 .. n-1`:
      the keys below `n` that were missing now hold empty lists. */
  function WithEntries(g: Graph, n: nat): Graph
    decreases n
  {
    if n == 0 then g else MapSubscript(WithEntries(g, n - 1), n - 1).0
  }

  /** After `operator[]` on `0 .. n-1` the keys are the old ones and those
      below `n`; old entries are untouched and the new ones are empty. */
  lemma {:induction false} WithEntriesKeys(g: Graph, n: nat)
    ensures forall k: nat :: k in WithEntries(g, n) <==> k in g || k < n
    ensures forall k :: k in g ==> WithEntries(g, n)[k] == g[k]
    ensures forall k :: k in WithEntries(g, n) && k !in g ==> WithEntries(g, n)[k] == []
    decreases n
  {
    if n > 0 {
      WithEntriesKeys(g, n - 1);
    }
  }

  /** `operator[]` on keys that are all present changes nothing: a second
      pass over the same vertices leaves the graph as the first left it. */
  lemma {:induction false} WithEntriesPresent(g: Graph, n: nat)
    requires forall k: nat :: k < n ==> k in g
    ensures WithEntries(g, n) == g
    decreases n
  {
    if n > 0 {
      WithEntriesPresent(g, n - 1);
      WithEntriesKeys(g, n - 1);
    }
  }

  /** The indices of triangle `t` (the triple starting at `3 * t`). */
  function Triangle(idx: seq<nat>, t: nat): seq<nat>
    requires 3 * t + 3 <= |idx|
  {
    idx[3 * t .. 3 * t + 3]
  }

  /** The list a triangle `(a, b, c)` gives its corner `v`: the two other
      corners, in the order they appear in the triangle. When `v` fills two
      corners of a degenerate triangle, the first of them decides. */
  function CornerNeighbours(a: nat, b: nat, c: nat, v: nat): (r: seq<nat>)
    requires v == a || v == b || v == c
    ensures |r| == 2
  {
    if v == a then [b, c] else if v == b then [a, c] else [a, b]
  }

  /** The list a corner gets holds the triangle's other two corners: with
      `v` added back it is the triangle again. */
  lemma CornerNeighboursAreOthers(a: nat, b: nat, c: nat, v: nat)
    requires v == a || v == b || v == c
    ensures multiset(CornerNeighbours(a, b, c, v)) + multiset{v} == multiset{a, b, c}
  {
  }

  /** What `buildGraph` leaves under `v`: the list given by the first
      triangle of `idx` that has `v` as a corner, or nothing when no
      triangle has it. */
  function FirstNeighbours(idx: seq<nat>, v: nat): (r: seq<nat>)
    requires |idx| % 3 == 0
    ensures r == [] <==> v !in idx
    ensures r != [] ==> |r| == 2
    ensures forall j :: j in r ==> j in idx
    decreases |idx|
  {
    if idx == [] then []
    else
      assert idx == idx[..3] + idx[3..];
      if v in idx[..3] then CornerNeighbours(idx[0], idx[1], idx[2], v)
      else FirstNeighbours(idx[3..], v)
  }

  /** The first triangle having `v` as a corner; the list `v` gets is the
      one that triangle gives it, and no earlier triangle contains `v`. */
  function FirstTriangle(idx: seq<nat>, v: nat): (t: nat)
    requires |idx| % 3 == 0 && v in idx
    ensures 3 * t + 3 <= |idx|
    ensures v in Triangle(idx, t)
    ensures forall s :: 0 <= s < t ==> v !in Triangle(idx, s)
    ensures v == idx[3 * t] || v == idx[3 * t + 1] || v == idx[3 * t + 2]
    ensures FirstNeighbours(idx, v)
            == CornerNeighbours(idx[3 * t], idx[3 * t + 1], idx[3 * t + 2], v)
    decreases |idx|
  {
    if v in idx[..3] then
      assert Triangle(idx, 0) == idx[..3];
      assert FirstNeighbours(idx, v) == CornerNeighbours(idx[0], idx[1], idx[2], v);
      0
    else
      assert idx == idx[..3] + idx[3..];
      var rest := idx[3..];
      var t' := FirstTriangle(rest, v);
      assert FirstNeighbours(idx, v) == FirstNeighbours(rest, v);
      TrianglesShift(idx, v, t');
      var t := t' + 1;
      assert idx[3 * t] == rest[3 * t'] && idx[3 * t + 1] == rest[3 * t' + 1]
        && idx[3 * t + 2] == rest[3 * t' + 2];
      t
  }

  /** Dropping the first triangle renumbers the others down by one: a vertex
      outside the first triangle and the first `t` of the rest is outside
      the first `t + 1` of the whole. */
  lemma TrianglesShift(idx: seq<nat>, v: nat, t: nat)
    requires |idx| >= 3 && 3 * t + 6 <= |idx| && v !in idx[..3]
    requires forall s :: 0 <= s < t ==> v !in Triangle(idx[3..], s)
    ensures forall s :: 0 <= s < t + 1 ==> v !in Triangle(idx, s)
    ensures Triangle(idx, t + 1) == Triangle(idx[3..], t)
  {
    assert Triangle(idx, 0) == idx[..3];
    forall s | 0 < s < t + 1
      ensures v !in Triangle(idx, s)
    {
      assert Triangle(idx, s) == Triangle(idx[3..], s - 1);
    }
  }

  /** Triangles after the first one containing `v` leave its list alone;
      a vertex first met in a later part gets that part's list. */
  lemma {:induction false} FirstNeighboursAppend(p: seq<nat>, s: seq<nat>, v: nat)
    requires |p| % 3 == 0 && |s| % 3 == 0
    ensures FirstNeighbours(p + s, v)
            == if v in p then FirstNeighbours(p, v) else FirstNeighbours(s, v)
    decreases |p|
  {
    if p == [] {
      assert p + s == s;
    } else {
      assert (p + s)[..3] == p[..3];
      assert (p + s)[3..] == p[3..] + s;
      assert p == p[..3] + p[3..];
      FirstNeighboursAppend(p[3..], s, v);
    }
  }

  /** `g` holds exactly the vertices of `idx`, each with the list of its
      first triangle: what `buildGraph` returns for `idx`. */
  ghost predicate BuiltFrom(idx: seq<nat>, g: Graph)
    requires |idx| % 3 == 0
  {
    && (forall v :: v in g <==> v in idx)
    && (forall v :: v in g ==> g[v] == FirstNeighbours(idx, v))
  }

  /** The graph `buildGraph` returns for `idx`, defined directly: every
      vertex of `idx` mapped to the list of its first triangle. */
  ghost function GraphOf(idx: seq<nat>): (g: Graph)
    requires |idx| % 3 == 0
    ensures BuiltFrom(idx, g)
  {
    map v | v in idx :: FirstNeighbours(idx, v)
  }

  /** The three inserts of one loop iteration, for the triangle `(a, b, c)`:
      the vertices already present keep their lists, and each new corner
      gets the list the triangle gives it. */
  function InsertTriangle(g: Graph, a: nat, b: nat, c: nat): (r: Graph)
    ensures r.Keys == g.Keys + {a, b, c}
    ensures forall v :: v in g ==> r[v] == g[v]
    ensures forall v :: v in r && v !in g ==> r[v] == CornerNeighbours(a, b, c, v)
  {
    var g1 := if a in g then g else g[a := [b, c]];
    var g2 := if b in g1 then g1 else g1[b := [a, c]];
    if c in g2 then g2 else g2[c := [a, b]]
  }

  /** One iteration of `buildGraph`'s loop: inserting the three corners of
      the next triangle extends a graph built from the triangles so far to
      one built from them and the new one. */
  lemma AddTriangle(prefix: seq<nat>, g: Graph, a: nat, b: nat, c: nat)
    requires |prefix| % 3 == 0 && BuiltFrom(prefix, g)
    ensures |prefix + [a, b, c]| % 3 == 0
    ensures BuiltFrom(prefix + [a, b, c], InsertTriangle(g, a, b, c))
  {
    var g' := InsertTriangle(g, a, b, c);
    MultipleOfThreeStep(|prefix|);
    forall v | v in g'
      ensures g'[v] == FirstNeighbours(prefix + [a, b, c], v)
    {
      AddTriangleAt(prefix, g, a, b, c, v);
    }
  }

  /** The vertex-wise step of `AddTriangle`: a vertex already present keeps
      the list of its earlier first triangle, a new one gets the list of
      the triangle just added. */
  lemma AddTriangleAt(prefix: seq<nat>, g: Graph, a: nat, b: nat, c: nat, v: nat)
    requires |prefix| % 3 == 0 && v in InsertTriangle(g, a, b, c)
    requires v in g <==> v in prefix
    requires v in g ==> g[v] == FirstNeighbours(prefix, v)
    ensures |prefix + [a, b, c]| % 3 == 0
    ensures InsertTriangle(g, a, b, c)[v] == FirstNeighbours(prefix + [a, b, c], v)
  {
    MultipleOfThreeStep(|prefix|);
    var triple := [a, b, c];
    assert triple[..3] == triple && triple[3..] == [];
    FirstNeighboursAppend(prefix, triple, v);
  }

  lemma MultipleOfThreeStep(x: nat)
    requires x % 3 == 0
    ensures (x + 3) % 3 == 0
  {
  }

  lemma PrefixExtend(s: seq<nat>, i: nat)
    requires i + 3 <= |s|
    ensures s[..i + 3] == s[..i] + [s[i], s[i + 1], s[i + 2]]
  {
  }

  /** One corner of `buildGraph`'s loop body: insert `v -> ns`; when `v`
      already has neighbours, copy the entry of `anchor` (the triangle's
      first corner, whose insert result the source reuses for all three
      corners), append `ns` to the copy and insert that under `v` again,
      which `insert` rejects. The net effect is the first insert alone. */
  method InsertCorner(g: Graph, v: nat, ns: seq<nat>, anchor: nat) returns (result: Graph)
    requires |ns| == 2
    requires anchor in g || anchor == v
    ensures result == MapInsert(g, v, ns).0
    ensures v in result && result[v] == (if v in g then g[v] else ns)
  {
    var r := MapInsert(g, v, ns);
    result := r.0;
    if !r.1 {
      // we already have neighbours for this index, so "append" these
      var toInsert := result[anchor] + [ns[0], ns[1]];
      result := MapInsert(result, v, toInsert).0;
    }
  }

  /** `buildGraph`: walks the indices in triples `(v1, v2, v3)` and inserts
      `v1 -> [v2, v3]`, `v2 -> [v1, v3]`, `v3 -> [v1, v2]`. Each "append"
      branch re-inserts under a key that already exists, which `insert`
      rejects, so it leaves the graph as it was. The keys are exactly the
      indices used, and each list is the one from the vertex's first
      triangle. */
  method BuildGraph(indices: seq<nat>) returns (result: Graph)
    requires |indices| % 3 == 0
    ensures forall v :: v in result <==> v in indices
    ensures forall v :: v in result ==> result[v] == FirstNeighbours(indices, v)
    ensures result == GraphOf(indices)
  {
    result := map[];
    var tri := 0;
    ghost var t, count := 0, |indices| / 3;
    while tri < |indices|
      invariant 0 <= t <= count && tri == 3 * t && |indices| == 3 * count
      invariant tri % 3 == 0
      invariant BuiltFrom(indices[..tri], result)
    {
      ghost var before := result;
      ghost var expected := InsertTriangle(before, indices[tri], indices[tri + 1], indices[tri + 2]);
      var v1, v2, v3 := indices[tri], indices[tri + 1], indices[tri + 2];
      // 0->1, 0->2
      result := InsertCorner(result, v1, [indices[tri + 1], indices[tri + 2]], v1);
      // 1->0, 1->2
      result := InsertCorner(result, v2, [indices[tri], indices[tri + 2]], v1);
      // 2->0, 2->1
      result := InsertCorner(result, v3, [indices[tri], indices[tri + 1]], v1);
      assert result == expected;
      PrefixExtend(indices, tri);
      AddTriangle(indices[..tri], before, v1, v2, v3);
      tri, t := tri + 3, t + 1;
    }
    assert indices[..tri] == indices;
  }

  /** Every neighbour listed for a vertex `k < n` is itself below `n`: what
      `performSmooth`'s `at` lookups in a mesh of `n` vertices demand. */
  predicate NeighboursInRange(g: Graph, n: nat)
  {
    forall k :: k in g && k < n ==> InRange(g[k], n)
  }

  /** Every index in `ns` names one of `n` vertices. */
  predicate InRange(ns: seq<nat>, n: nat)
  {
    forall p :: 0 <= p < |ns| ==> ns[p] < n
  }

  /** A graph built from indices that all name one of `n` vertices meets
      that demand, and every vertex in it has exactly two neighbours. */
  lemma BuiltGraphInRange(indices: seq<nat>, g: Graph, n: nat)
    requires |indices| % 3 == 0
    requires forall j :: j in indices ==> j < n
    requires forall v :: v in g <==> v in indices
    requires forall v :: v in g ==> g[v] == FirstNeighbours(indices, v)
    ensures NeighboursInRange(g, n)
    ensures forall v :: v in g ==> |g[v]| == 2
  {
    forall k | k in g && k < n
      ensures InRange(g[k], n)
    {
      forall p | 0 <= p < |g[k]|
        ensures g[k][p] < n
      {
        assert g[k][p] in FirstNeighbours(indices, k);
      }
    }
  }
}
