# Laplacian mesh smoothing, modelled in Dafny

The program loads an indexed triangle mesh (vertex positions plus a flat list
of vertex indices, three per triangle) and smooths it. It first builds a
connectivity graph, a `std::map` from each vertex index to a list of
neighbour indices, by walking the triangles. Then it runs a number of
Laplacian relaxation passes. In each pass every vertex moves a fraction of
the way towards the average of its neighbours, computed from the positions
the pass started with. After the last pass the original triangle indices are
put back on the mesh.

The model has five modules:

- `Vec` (`vec3.dfy`): three-component positions over reals, with the vector
  operators the pass uses.
- `MeshGraph` (`mesh_graph.dfy`): the graph type; `std::map::insert` and
  `operator[]` as functions on maps; `buildGraph` as a loop (`BuildGraph`);
  and a direct definition of its result (`GraphOf`, through
  `FirstNeighbours`).
- `Relaxation` (`relaxation.dfy`): specification functions for one vertex
  update (`Smoothed`), one pass (`SmoothPass`) and `k` passes (`Passes`),
  and the lemmas that say what they compute.
- `MeshSmoother` (`smoother.dfy`): the application object's graph member as
  a class. It has `performSmooth` and `smoothMesh` as methods, the vertex
  loop as `RelaxVertex`, and `setup`'s smoothing steps as `Setup`.
- `OneTriangle` (`one_triangle.dfy`): the graph and one pass for a mesh that
  is a single triangle.

Where the code differs from what its comments intend, the model follows the
code:

- `std::map::insert` never replaces an existing entry. So the branches
  commented "append these new ones" (`src/testApp.cpp:58-63`, `74-79`,
  `91-96`) change nothing. They also copy the first corner's entry
  (`r.first`) instead of the current corner's, but that makes no difference
  either.
- As a result, each vertex ends up with exactly the two other corners of the
  first triangle that uses it. It does not get the union over all its
  triangles, and a vertex may be listed again in later triangles.
- A vertex used by no triangle gets no entry in `buildGraph`.
  `performSmooth`'s `operator[]` then adds an empty list for it, and the
  vertex never moves.
- `smoothMesh` appends the saved indices to whatever indices the mesh still
  has. After one or more passes the mesh has none, so the original list
  comes back. With zero or a negative number of passes the list ends up
  there twice.

## Model

| member | source | states |
|---|---|---|
| MeshGraph.MapInsert | src/testApp.cpp:54 | `insert` adds the pair exactly when the key is new and reports so; an existing entry is never replaced; no other entry changes |
| MeshGraph.MapSubscript | src/testApp.cpp:115 | `operator[]` yields the stored list or, for a missing key, inserts and yields the empty list; no existing entry changes |
| MeshGraph.WithEntriesKeys | src/testApp.cpp:109-115 | after `operator[]` on vertices `0 .. n-1` the keys are the old ones plus those below `n`; old entries unchanged, new entries empty |
| MeshGraph.WithEntriesPresent | src/testApp.cpp:109-115 | when every vertex below `n` already has an entry, the lookups leave the graph unchanged (so a second pass does not alter it) |
| MeshGraph.CornerNeighbours | src/testApp.cpp:47-86 | the list a triangle gives one of its corners has two entries |
| MeshGraph.CornerNeighboursAreOthers | src/testApp.cpp:46-88 | that list plus the corner itself is the triangle's multiset of corners |
| MeshGraph.FirstNeighbours | src/testApp.cpp:38-102 | a vertex gets an empty list exactly when no triangle uses it, otherwise two entries, all of them vertices of the index list |
| MeshGraph.FirstTriangle | src/testApp.cpp:46-99 | for a used vertex: the first triangle containing it, no earlier triangle contains it, and its list is the one that triangle gives it |
| MeshGraph.TrianglesShift | src/testApp.cpp:46 | dropping the first triple renumbers the remaining triangles down by one |
| MeshGraph.FirstNeighboursAppend | src/testApp.cpp:46-99 | later triangles never change the list of a vertex met earlier; a vertex first met later gets the list of its first later triangle |
| MeshGraph.GraphOf | src/testApp.cpp:38-102 | the graph for an index list, defined directly, holds exactly the used vertices, each with its first triangle's list |
| MeshGraph.InsertTriangle | src/testApp.cpp:54-96 | the three inserts for one triangle add exactly its corners as keys, keep every existing entry, and give each new corner the triangle's list |
| MeshGraph.AddTriangle | src/testApp.cpp:46-99 | one loop iteration turns the graph of the first `t` triangles into the graph of the first `t + 1` |
| MeshGraph.AddTriangleAt | src/testApp.cpp:46-99 | the same, for one vertex of the extended graph |
| MeshGraph.InsertCorner | src/testApp.cpp:54-63 | one corner's insert plus its rejected "append" re-insert leaves the effect of the first insert alone |
| MeshGraph.BuildGraph | src/testApp.cpp:38-102 | `buildGraph` returns exactly `GraphOf(indices)`: every used vertex, each mapped to the two other corners of its first triangle |
| MeshGraph.BuiltGraphInRange | src/testApp.cpp:115-118 | when every index names a vertex, every list in the built graph has two entries and names only vertices, as the `at` lookups demand |
| Relaxation.Lookup | src/testApp.cpp:115 | the list looked up for a vertex is its entry, or empty when it has none |
| Relaxation.LookupAfterEntries | src/testApp.cpp:109-117 | looking up vertex `i` after the lookups of the vertices below it yields what the original graph holds for `i`, and that list names vertices of the mesh |
| Relaxation.AccumulateClosedForm | src/testApp.cpp:116-121 | adding the weighted offsets one neighbour at a time equals adding the weighted sum of all offsets once |
| Relaxation.SumOffsetsAsSum | src/testApp.cpp:118 | the summed offsets are the neighbours' positions summed, less the vertex's position once per neighbour |
| Relaxation.SmoothedIsBlend | src/testApp.cpp:111-123 | a vertex with neighbours moves to `(1 - factor) * p + factor * centroid`: Laplacian relaxation towards the neighbours' average |
| Relaxation.SmoothedFactorOne | src/testApp.cpp:111-123 | with factor 1 a vertex with neighbours lands on their centroid |
| Relaxation.SmoothedFactorZero | src/testApp.cpp:111-123 | with factor 0 every vertex stays where it is |
| Relaxation.SmoothPass | src/testApp.cpp:107-142 | one pass yields one new position per vertex |
| Relaxation.SmoothPassIsBlend | src/testApp.cpp:107-142 | in one pass each vertex without neighbours keeps its position and each other vertex moves `factor` of the way to its neighbours' centroid |
| Relaxation.Passes | src/testApp.cpp:148-151 | `k` passes keep the number of vertices |
| Relaxation.PassesKeepIsolated | src/testApp.cpp:148-151 | a vertex that no triangle uses keeps its exact position through any number of passes |
| Relaxation.PassesFactorZero | src/testApp.cpp:148-151 | passes with factor 0 leave every position unchanged |
| Relaxation.SmoothPassWithEntries | src/testApp.cpp:115 | the empty entries `operator[]` adds change no position a pass computes |
| Relaxation.PassesWithEntries | src/testApp.cpp:19 | nor the positions after any number of passes, so `setup`'s lookup of vertex 0 is harmless |
| MeshSmoother.RelaxVertex | src/testApp.cpp:111-121 | the vertex loop computes the new position of vertex `i` as the specification `Smoothed` gives it |
| MeshSmoother.Smoother.constructor | src/testApp.cpp:16 | the graph member is set to `GraphOf` of the mesh's indices |
| MeshSmoother.Smoother.PerformSmooth | src/testApp.cpp:107-142 | the result has one smoothed vertex per input vertex, computed from the old positions only, and no indices; the graph gains empty entries for the vertices it lacked |
| MeshSmoother.Smoother.SmoothMesh | src/testApp.cpp:145-154 | with `iterations > 0` the positions are `iterations` passes with factor 0.5 over the graph as it was, otherwise they are unchanged (and the graph may then name any vertices, since no `at` runs); the indices are the original list after at least one pass and twice that list after none; the graph gains the lookups' empty entries only if a pass ran |
| MeshSmoother.Setup | src/testApp.cpp:16-23 | from a loaded mesh whose built graph lists, for each of its vertices, only vertices of the mesh (what the `at` lookups read): the positions are 10 passes with factor 0.5 over `GraphOf(indices)`, the indices come back as loaded, and the graph is left with the lookups' empty entries |
| OneTriangle.SmoothedTwo | src/testApp.cpp:116-121 | the vertex loop unrolled for two neighbours |
| OneTriangle.BuiltGraph | src/testApp.cpp:38-102 | the graph of the single triangle `(0, 1, 2)` gives each corner the other two |
| OneTriangle.SmoothOnce | src/testApp.cpp:107-142 | one pass with factor 1 over a single triangle moves each corner to the midpoint of the opposite edge |

## Left out

- Loading the PLY file, the OpenGL state, the camera and light, `draw`, and
  the keyboard, mouse and window callbacks are left out. So is the console
  output, except for the `operator[]` lookup of vertex 0 in the "first node
  has ... connections" message, which changes the graph and is modelled in
  `Setup`.
- Positions are reals, not single-precision floats, so rounding is not
  modelled. The weight `relaxationFactor / neighbors.size()` is computed
  exactly.
- `ofIndexType` is an unbounded natural number here. The loop counters'
  `int` width and any overflow for meshes with more than 2^31 vertices or
  indices are not modelled.
- The mesh keeps only positions and indices. Normals, colours and texture
  coordinates are not modelled: `performSmooth` does not copy them anyway.
- BuildGraph: a length that is a multiple of three is required. Otherwise
  the source reads past the end of the index list, which is undefined
  behaviour and is not modelled.
- Smoother.PerformSmooth, Smoother.SmoothMesh (when it runs a pass) and
  Setup: every neighbour listed for a vertex of the mesh must itself name a
  vertex. Otherwise the source's `at` throws `std::out_of_range`, and the
  exception is not modelled. Indices that never reach such a list may be
  out of range, as in the source.
- Smoother.SmoothMesh: the mesh the source updates through its reference
  parameter is returned as a new value. No other object can see the mesh
  between passes, so there is no aliasing to model.
- The commented-out loop in `performSmooth` is not code and is not modelled.
