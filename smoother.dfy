/** The application object's smoothing state and its two operations:
    `performSmooth`, one relaxation pass that also fills in missing graph
    entries through `operator[]`, and `smoothMesh`, the multi-pass driver
    that reattaches the original triangle indices at the end. */
module MeshSmoother {
  import opened Vec
  import opened MeshGraph
  import opened Relaxation

  /** An indexed triangle mesh: vertex positions and the flat index list. */
  datatype Mesh = Mesh(positions: seq<Vec3>, indices: seq<nat>)

  /** The relaxation factor `smoothMesh` passes to every pass. */
  const SmoothFactor: real := 0.5

  /** The number of passes `setup` asks for. */
  const DefaultIterations: int := 10

  /** The body of `performSmooth`'s vertex loop: start from the old position
      of vertex `i` and add `(pos[j] - pos[i]) * (factor / |neighbours|)` for
      each neighbour `j` in turn. */
  method RelaxVertex(pos: seq<Vec3>, i: nat, neighbours: seq<nat>, factor: real)
    returns (vert: Vec3)
    requires i < |pos| && InRange(neighbours, |pos|)
    ensures vert == Smoothed(pos, i, neighbours, factor)
  {
    vert := pos[i];
    var n := 0;
    while n < |neighbours|
      invariant 0 <= n <= |neighbours|
      invariant vert == if n == 0 then pos[i]
                        else Accumulate(pos, i, neighbours[..n], factor / |neighbours| as real)
    {
      var neighbourIndex := neighbours[n];
      var offset := Sub(pos[neighbourIndex], pos[i]);
      offset := Scale(offset, factor / |neighbours| as real);
      vert := Add(vert, offset);
      assert neighbours[..n + 1][..n] == neighbours[..n];
      n := n + 1;
    }
    assert neighbours[..n] == neighbours;
  }

  /** The part of the application object the smoothing code touches: the
      connectivity graph member. */
  class Smoother {
    var graph: Graph

    /** `connectivityGraph = buildGraph(mesh)` in `setup`. */
    constructor (m: Mesh)
      requires |m.indices| % 3 == 0
      ensures forall v :: v in graph <==> v in m.indices
      ensures forall v :: v in graph ==> graph[v] == FirstNeighbours(m.indices, v)
      ensures graph == GraphOf(m.indices)
    {
      var g := BuildGraph(m.indices);
      graph := g;
    }

    /** `performSmooth`: one pass over the vertices of `m`. Each new position
        reads only the old positions of `m`; the result has the same number
        of vertices and no indices. Looking up a vertex with `operator[]`
        leaves an empty entry in the graph for each vertex that had none. */
    method PerformSmooth(m: Mesh, factor: real) returns (result: Mesh)
      requires NeighboursInRange(graph, |m.positions|)
      modifies this
      ensures graph == WithEntries(old(graph), |m.positions|)
      ensures result.indices == []
      ensures |result.positions| == |m.positions|
      ensures result.positions == SmoothPass(m.positions, old(graph), factor)
    {
      var pos := m.positions;
      ghost var g0 := graph;
      result := Mesh([], []);
      var i := 0;
      while i < |pos|
        invariant 0 <= i <= |pos|
        invariant graph == WithEntries(g0, i)
        invariant result.indices == [] && |result.positions| == i
        invariant forall k :: 0 <= k < i ==>
          result.positions[k] == Smoothed(pos, k, Lookup(g0, k), factor)
      {
        // get adjacent vertices
        var lookup := MapSubscript(graph, i);
        graph := lookup.0;
        var neighbours := lookup.1;
        LookupAfterEntries(g0, i, |pos|);
        var vert := RelaxVertex(pos, i, neighbours, factor);
        result := result.(positions := result.positions + [vert]);
        i := i + 1;
      }
      assert forall k :: 0 <= k < |pos| ==>
        result.positions[k] == SmoothPass(pos, g0, factor)[k];
    }

    /** `smoothMesh`: `iterations` passes with factor 0.5 over the graph built
        once at setup (none when `iterations` is not positive), then the
        saved indices are appended to whatever indices the mesh still has.
        A pass leaves none, so after at least one pass the original list
        comes back; after none it is there twice. Only a pass reads the
        neighbours' positions with `at`, so only then must the graph name
        vertices of the mesh. The mesh the source updates through its
        reference parameter is returned here. */
    method SmoothMesh(m: Mesh, iterations: int) returns (r: Mesh)
      requires iterations > 0 ==> NeighboursInRange(graph, |m.positions|)
      modifies this
      ensures |r.positions| == |m.positions|
      ensures iterations > 0 ==>
        r.positions == Passes(m.positions, old(graph), SmoothFactor, iterations)
      ensures iterations <= 0 ==> r.positions == m.positions
      ensures r.indices == if iterations >= 1 then m.indices else m.indices + m.indices
      ensures graph == if iterations >= 1 then WithEntries(old(graph), |m.positions|)
                       else old(graph)
    {
      var originalIndices := m.indices;
      ghost var g0, count := graph, |m.positions|;
      r := m;
      var i := 0;
      while i < iterations
        invariant 0 <= i && (i <= iterations || i == 0)
        invariant |r.positions| == count
        invariant i == 0 ==> r == m && graph == g0
        invariant i > 0 ==> r.indices == [] && graph == WithEntries(g0, count)
        invariant iterations > 0 ==> r.positions == Passes(m.positions, g0, SmoothFactor, i)
      {
        ghost var before := r.positions;
        SmoothPassWithEntries(before, g0, SmoothFactor, count);
        r := PerformSmooth(r, SmoothFactor);
        assert r.positions == SmoothPass(before, g0, SmoothFactor);
        WithEntriesKeys(g0, count);
        WithEntriesPresent(WithEntries(g0, count), count);
        i := i + 1;
      }
      r := r.(indices := r.indices + originalIndices);
    }
  }

  /** `setup` after the mesh is loaded: build the graph, look up vertex 0
      for the "first node has ... connections" message (which, through
      `operator[]`, adds an empty entry when no triangle uses vertex 0),
      then smooth with the default number of passes. The relaxation loop
      reads the neighbours' positions with `at`, so every neighbour listed
      for a vertex of the mesh must itself be one (`BuiltGraphInRange`: it
      is when every index names a vertex). The extra entry changes no
      position, and the indices come back as loaded. */
  method Setup(m: Mesh) returns (app: Smoother, smoothed: Mesh)
    requires |m.indices| % 3 == 0
    requires NeighboursInRange(GraphOf(m.indices), |m.positions|)
    ensures fresh(app)
    ensures smoothed.positions
            == Passes(m.positions, GraphOf(m.indices), SmoothFactor, DefaultIterations)
    ensures smoothed.indices == m.indices
    ensures app.graph == WithEntries(WithEntries(GraphOf(m.indices), 1), |m.positions|)
  {
    app := new Smoother(m);
    ghost var built := app.graph;
    var firstNode := MapSubscript(app.graph, 0);
    app.graph := firstNode.0;
    assert app.graph == WithEntries(built, 1);
    PassesWithEntries(m.positions, built, SmoothFactor, DefaultIterations, 1);
    smoothed := app.SmoothMesh(m, DefaultIterations);
  }
}
