/** The smallest mesh: one triangle `(0, 1, 2)`. Its graph gives every
    corner the other two, and one pass with factor 1 moves every corner to
    the midpoint of the opposite edge. */
module OneTriangle {
  import opened Vec
  import opened MeshGraph
  import opened Relaxation

  /** The loop of `performSmooth` unrolled for a vertex with two neighbours. */
  lemma SmoothedTwo(pos: seq<Vec3>, i: nat, j: nat, k: nat, factor: real)
    requires i < |pos| && j < |pos| && k < |pos|
    ensures InRange([j, k], |pos|)
    ensures Smoothed(pos, i, [j, k], factor)
            == Add(Add(pos[i], Scale(Sub(pos[j], pos[i]), factor / 2.0)),
                   Scale(Sub(pos[k], pos[i]), factor / 2.0))
  {
    var w := factor / 2.0;
    assert [j, k][..1] == [j];
    assert [j][..0] == [];
    assert Accumulate(pos, i, [j], w) == Add(pos[i], Scale(Sub(pos[j], pos[i]), w));
  }

  /** Half of each offset towards `q` and `s`, added to `p`, lands on their
      midpoint. */
  lemma HalfWay(p: Vec3, q: Vec3, s: Vec3)
    ensures Add(Add(p, Scale(Sub(q, p), 1.0 / 2.0)), Scale(Sub(s, p), 1.0 / 2.0))
            == Midpoint(q, s)
  {
  }

  /** `buildGraph` on the single triangle `(0, 1, 2)`. */
  lemma BuiltGraph(g: Graph)
    requires BuiltFrom([0, 1, 2], g)
    ensures g.Keys == {0, 1, 2}
    ensures g[0] == [1, 2] && g[1] == [0, 2] && g[2] == [0, 1]
  {
    var idx: seq<nat> := [0, 1, 2];
    assert idx[..3] == idx && idx[3..] == [];
    assert 0 in idx && 1 in idx && 2 in idx;
  }

  /** One pass with factor 1 over a single triangle `(a, b, c)`. */
  lemma SmoothOnce(a: Vec3, b: Vec3, c: Vec3, g: Graph)
    requires BuiltFrom([0, 1, 2], g)
    ensures NeighboursInRange(g, 3)
    ensures SmoothPass([a, b, c], g, 1.0) == [Midpoint(b, c), Midpoint(a, c), Midpoint(a, b)]
  {
    BuiltGraph(g);
    assert NeighboursInRange(g, 3);
    var pos := [a, b, c];
    SmoothedTwo(pos, 0, 1, 2, 1.0);
    SmoothedTwo(pos, 1, 0, 2, 1.0);
    SmoothedTwo(pos, 2, 0, 1, 1.0);
    HalfWay(a, b, c);
    HalfWay(b, a, c);
    HalfWay(c, a, b);
    var r := SmoothPass(pos, g, 1.0);
    assert r[0] == Smoothed(pos, 0, [1, 2], 1.0);
    assert r[1] == Smoothed(pos, 1, [0, 2], 1.0);
    assert r[2] == Smoothed(pos, 2, [0, 1], 1.0);
    assert r[0] == Midpoint(b, c) && r[1] == Midpoint(a, c) && r[2] == Midpoint(a, b);
    assert |r| == 3;
  }
}
