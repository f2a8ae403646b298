/** One Laplacian relaxation pass, as specification functions: the position
    `performSmooth` computes for each vertex from the previous positions and
    the vertex's neighbour list, and the positions after `k` passes. */
module Relaxation {
  import opened Vec
  import opened MeshGraph

  /** The neighbour list `operator[]` yields for vertex `i`: its entry, or
      the empty list it inserts when `i` has none. */
  function Lookup(g: Graph, i: nat): (ns: seq<nat>)
    ensures i !in g ==> ns == []
    ensures i in g ==> ns == g[i]
  {
    MapSubscript(g, i).1
  }

  /** Looking vertex `i` up after `operator[]` has run on the keys below it
      yields what looking it up in the original graph does, and that list
      names vertices of the mesh. */
  lemma LookupAfterEntries(g: Graph, i: nat, n: nat)
    requires NeighboursInRange(g, n) && i < n
    ensures MapSubscript(WithEntries(g, i), i).1 == Lookup(g, i)
    ensures InRange(Lookup(g, i), n)
  {
    WithEntriesKeys(g, i);
  }

  /** The value of `vert` once the offsets `(pos[j] - pos[i]) * w` of the
      neighbours `ns` have been added to `pos[i]`, in list order. */
  function Accumulate(pos: seq<Vec3>, i: nat, ns: seq<nat>, w: real): Vec3
    requires i < |pos| && InRange(ns, |pos|)
    decreases |ns|
  {
    if ns == [] then pos[i]
    else
      var j := ns[|ns| - 1];
      Add(Accumulate(pos, i, ns[..|ns| - 1], w), Scale(Sub(pos[j], pos[i]), w))
  }

  /** The sum of the positions of the vertices in `ns`. */
  function SumOf(pos: seq<Vec3>, ns: seq<nat>): Vec3
    requires InRange(ns, |pos|)
    decreases |ns|
  {
    if ns == [] then Zero
    else Add(SumOf(pos, ns[..|ns| - 1]), pos[ns[|ns| - 1]])
  }

  /** The average position of the vertices in `ns`. */
  function Centroid(pos: seq<Vec3>, ns: seq<nat>): Vec3
    requires |ns| > 0 && InRange(ns, |pos|)
  {
    Scale(SumOf(pos, ns), 1.0 / |ns| as real)
  }

  /** The new position of vertex `i` with neighbour list `ns`: each
      neighbour's offset is weighted by `factor / |ns|`; a vertex without
      neighbours stays where it is. */
  function Smoothed(pos: seq<Vec3>, i: nat, ns: seq<nat>, factor: real): Vec3
    requires i < |pos| && InRange(ns, |pos|)
  {
    if |ns| == 0 then pos[i] else Accumulate(pos, i, ns, factor / |ns| as real)
  }

  /** The sum of the differences `pos[j] - pos[i]` over the neighbours `ns`. */
  function SumOffsets(pos: seq<Vec3>, i: nat, ns: seq<nat>): Vec3
    requires i < |pos| && InRange(ns, |pos|)
    decreases |ns|
  {
    if ns == [] then Zero
    else Add(SumOffsets(pos, i, ns[..|ns| - 1]), Sub(pos[ns[|ns| - 1]], pos[i]))
  }

  /** Adding the weighted offsets one at a time, as the loop does, equals
      adding the weighted sum of the offsets once. */
  lemma {:induction false} AccumulateClosedForm(pos: seq<Vec3>, i: nat, ns: seq<nat>, w: real)
    requires i < |pos| && InRange(ns, |pos|)
    ensures Accumulate(pos, i, ns, w) == Add(pos[i], Scale(SumOffsets(pos, i, ns), w))
    decreases |ns|
  {
    if ns != [] {
      var init := ns[..|ns| - 1];
      AccumulateClosedForm(pos, i, init, w);
      Distribute(pos[i], SumOffsets(pos, i, init), Sub(pos[ns[|ns| - 1]], pos[i]), w);
    }
  }

  /** `(p + d * w) + e * w == p + (d + e) * w` */
  lemma Distribute(p: Vec3, d: Vec3, e: Vec3, w: real)
    ensures Add(Add(p, Scale(d, w)), Scale(e, w)) == Add(p, Scale(Add(d, e), w))
  {
  }

  /** The summed offsets are the neighbours' sum less `|ns|` copies of
      `pos[i]`. */
  lemma {:induction false} SumOffsetsAsSum(pos: seq<Vec3>, i: nat, ns: seq<nat>)
    requires i < |pos| && InRange(ns, |pos|)
    ensures SumOffsets(pos, i, ns) == Sub(SumOf(pos, ns), Scale(pos[i], |ns| as real))
    decreases |ns|
  {
    if ns != [] {
      var init := ns[..|ns| - 1];
      SumOffsetsAsSum(pos, i, init);
      SubtractOneMore(SumOf(pos, init), pos[ns[|ns| - 1]], pos[i], |init| as real);
    }
  }

  /** `(s - p * m) + (q - p) == (s + q) - p * (m + 1)` */
  lemma SubtractOneMore(s: Vec3, q: Vec3, p: Vec3, m: real)
    ensures Add(Sub(s, Scale(p, m)), Sub(q, p)) == Sub(Add(s, q), Scale(p, m + 1.0))
  {
  }

  /** Laplacian relaxation: the new position is `pos[i]` moved `factor` of
      the way towards the centroid of its neighbours. */
  lemma SmoothedIsBlend(pos: seq<Vec3>, i: nat, ns: seq<nat>, factor: real)
    requires i < |pos| && InRange(ns, |pos|) && |ns| > 0
    ensures Smoothed(pos, i, ns, factor)
            == Add(Scale(pos[i], 1.0 - factor), Scale(Centroid(pos, ns), factor))
  {
    var n := |ns| as real;
    AccumulateClosedForm(pos, i, ns, factor / n);
    SumOffsetsAsSum(pos, i, ns);
    Blend(pos[i], SumOf(pos, ns), factor, n);
  }

  /** `p + (s - p * n) * (f / n) == p * (1 - f) + (s * (1 / n)) * f` */
  lemma Blend(p: Vec3, s: Vec3, f: real, n: real)
    requires n > 0.0
    ensures Add(p, Scale(Sub(s, Scale(p, n)), f / n))
            == Add(Scale(p, 1.0 - f), Scale(Scale(s, 1.0 / n), f))
  {
    var w := f / n;
    assert n * w == f;
    calc {
      Add(p, Scale(Sub(s, Scale(p, n)), w));
      { SplitScaledDifference(p, s, Scale(p, n), w); }
      Add(Sub(p, Scale(Scale(p, n), w)), Scale(s, w));
      { ScaleTwice(p, n, w); }
      Add(Sub(p, Scale(p, n * w)), Scale(s, w));
      { KeepFraction(p, f); }
      Add(Scale(p, 1.0 - f), Scale(s, w));
      { assert w == 1.0 / n * f; ScaleTwice(s, 1.0 / n, f); }
      Add(Scale(p, 1.0 - f), Scale(Scale(s, 1.0 / n), f));
    }
  }

  /** `p + (s - d) * w == (p - d * w) + s * w` */
  lemma SplitScaledDifference(p: Vec3, s: Vec3, d: Vec3, w: real)
    ensures Add(p, Scale(Sub(s, d), w)) == Add(Sub(p, Scale(d, w)), Scale(s, w))
  {
  }

  /** `(v * a) * b == v * (a * b)` */
  lemma ScaleTwice(v: Vec3, a: real, b: real)
    ensures Scale(Scale(v, a), b) == Scale(v, a * b)
  {
  }

  /** `p - p * f == p * (1 - f)` */
  lemma KeepFraction(p: Vec3, f: real)
    ensures Sub(p, Scale(p, f)) == Scale(p, 1.0 - f)
  {
  }

  /** A factor of 1 moves a vertex with neighbours onto their centroid. */
  lemma SmoothedFactorOne(pos: seq<Vec3>, i: nat, ns: seq<nat>)
    requires i < |pos| && InRange(ns, |pos|) && |ns| > 0
    ensures Smoothed(pos, i, ns, 1.0) == Centroid(pos, ns)
  {
    SmoothedIsBlend(pos, i, ns, 1.0);
  }

  /** A factor of 0 leaves every vertex where it is. */
  lemma SmoothedFactorZero(pos: seq<Vec3>, i: nat, ns: seq<nat>)
    requires i < |pos| && InRange(ns, |pos|)
    ensures Smoothed(pos, i, ns, 0.0) == pos[i]
  {
    if |ns| > 0 {
      AccumulateClosedForm(pos, i, ns, 0.0 / |ns| as real);
    }
  }

  /** The positions one pass computes for a mesh with positions `pos` and
      connectivity graph `g`: every vertex from the old positions only. */
  function SmoothPass(pos: seq<Vec3>, g: Graph, factor: real): (r: seq<Vec3>)
    requires NeighboursInRange(g, |pos|)
    ensures |r| == |pos|
  {
    seq(|pos|, i requires 0 <= i < |pos| => Smoothed(pos, i, Lookup(g, i), factor))
  }

  /** In one pass every vertex with neighbours moves `factor` of the way
      towards their centroid, and every other vertex stays put. */
  lemma SmoothPassIsBlend(pos: seq<Vec3>, g: Graph, factor: real, i: nat)
    requires NeighboursInRange(g, |pos|) && i < |pos|
    ensures Lookup(g, i) == [] ==> SmoothPass(pos, g, factor)[i] == pos[i]
    ensures Lookup(g, i) != [] ==>
      SmoothPass(pos, g, factor)[i]
        == Add(Scale(pos[i], 1.0 - factor), Scale(Centroid(pos, Lookup(g, i)), factor))
  {
    if Lookup(g, i) != [] {
      SmoothedIsBlend(pos, i, Lookup(g, i), factor);
    }
  }

  /** The positions after `k` passes, each pass reading the positions the
      previous one produced, all with the same graph and factor. */
  function Passes(pos: seq<Vec3>, g: Graph, factor: real, k: nat): (r: seq<Vec3>)
    requires NeighboursInRange(g, |pos|)
    ensures |r| == |pos|
    decreases k
  {
    if k == 0 then pos else SmoothPass(Passes(pos, g, factor, k - 1), g, factor)
  }

  /** A vertex that belongs to no triangle keeps its exact position through
      any number of passes. */
  lemma {:induction false} PassesKeepIsolated(pos: seq<Vec3>, g: Graph, factor: real, k: nat, i: nat)
    requires NeighboursInRange(g, |pos|) && i < |pos| && i !in g
    ensures Passes(pos, g, factor, k)[i] == pos[i]
    decreases k
  {
    if k > 0 {
      PassesKeepIsolated(pos, g, factor, k - 1, i);
    }
  }

  /** Passes with factor 0 leave every position unchanged. */
  lemma {:induction false} PassesFactorZero(pos: seq<Vec3>, g: Graph, k: nat)
    requires NeighboursInRange(g, |pos|)
    ensures Passes(pos, g, 0.0, k) == pos
    decreases k
  {
    if k > 0 {
      PassesFactorZero(pos, g, k - 1);
      forall i | 0 <= i < |pos|
        ensures SmoothPass(pos, g, 0.0)[i] == pos[i]
      {
        SmoothedFactorZero(pos, i, Lookup(g, i));
      }
    }
  }

  /** The empty entries `operator[]` adds change no neighbour list, so a pass
      over the extended graph computes the same positions. */
  lemma {:induction false} SmoothPassWithEntries(pos: seq<Vec3>, g: Graph, factor: real, n: nat)
    requires NeighboursInRange(g, |pos|)
    ensures NeighboursInRange(WithEntries(g, n), |pos|)
    ensures SmoothPass(pos, WithEntries(g, n), factor) == SmoothPass(pos, g, factor)
  {
    var g' := WithEntries(g, n);
    WithEntriesKeys(g, n);
    forall k | k in g'
      ensures Lookup(g', k) == Lookup(g, k)
    {
    }
  }

  /** Hence any number of passes over the extended graph compute the same
      positions as over the graph itself. */
  lemma {:induction false} PassesWithEntries(pos: seq<Vec3>, g: Graph, factor: real, k: nat, n: nat)
    requires NeighboursInRange(g, |pos|)
    ensures NeighboursInRange(WithEntries(g, n), |pos|)
    ensures Passes(pos, WithEntries(g, n), factor, k) == Passes(pos, g, factor, k)
    decreases k
  {
    SmoothPassWithEntries(pos, g, factor, n);
    if k > 0 {
      PassesWithEntries(pos, g, factor, k - 1, n);
      SmoothPassWithEntries(Passes(pos, g, factor, k - 1), g, factor, n);
    }
  }
}
