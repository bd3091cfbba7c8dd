# lexov voxel chunks in Dafny

This project models the core of lexov, a small voxel engine. A **chunk** is a
W × H × D grid of block kinds (air, grass, dirt, water, stone) stored in one flat
array. Each chunk carries a `dirty` flag and six non-owning references to the
chunks across its front/back/left/right/top/bottom faces.

The model covers:

- **Visibility**: a face of a solid cell is visible when the cell one step
  towards it is empty. At the boundary that cell is looked up in the neighbour
  across the face, at the coordinate wrapped around to the far side. An absent
  neighbour leaves the face exposed.
- **Writes**: writing a cell marks the chunk dirty when the value changes. A
  dirty chunk then marks dirty the neighbours across the boundary planes the
  cell touches.
- **Meshing**: `build_mesh` walks the cells in z, y, x order. For every visible
  face of a solid cell it appends a six-vertex quad to that face's buffer.
- **Renderer**: keeps one mesh per chunk key.
- **Registry**: the chunk manager keeps the key → chunk map and notifies the
  renderer of each insertion and removal.
- **Support code**: the floor square root `isqrt` and the shared constants and
  types.

Modules:

- `Utility` (`utility.dfy`): `isqrt` and what its recursion does.
- `Types` (`types.dfy`): block kinds, faces, extents, `chunk_diameter`, chunk keys and their equality.
- `Chunks` (`chunk.dfy`): class `ArrayChunk`, which merges `chunk_base` and
  `array_chunk` into one class. The flat array is an `array<BlockType>`, the
  neighbours are `Option<ArrayChunk>` fields, and an expired `weak_ptr` is
  `None`.
- `Meshing` (`mesh.dfy`): vertices, quads, the mesh of a chunk as a
  specification function `MeshOf`, and `BuildMesh`, the triple loop proved to
  compute it.
- `MeshFacts` (`mesh_facts.dfy`): what the buffers consist of, how many vertices
  they hold, and that the mesh depends only on the chunk's and its neighbours'
  cells.
- `Renderer` (`renderer.dfy`): class `ChunkRenderer` with its key → mesh map.
- `Manager` (`manager.dfy`): class `ChunkManager` with its key → chunk map.

## Model

| member | source | states |
|---|---|---|
| Utility.Isqrt | src/utility.hpp:12-20 | the result is the floor square root: r² ≤ value < (r+1)² |
| Utility.IsqrtImpl | src/utility.hpp:12-16 | while the square reached is within value, the answer is at least dlt/2, the root of that square; its termination measure value - sq + 1 shrinks at every call because the square grows |
| Utility.IsqrtImplFloor | src/utility.hpp:12-16 | started at k² with step 2k+1, with (k-1)² ≤ value, the recursion returns the floor square root of value |
| Utility.IsqrtUnique | src/utility.hpp:12-20 | at most one number satisfies the floor-square-root bounds |
| Utility.IsqrtIs | src/utility.hpp:18-20 | isqrt(value) is s whenever s² ≤ value < (s+1)² |
| Utility.IsqrtOfZero | src/utility.hpp:18-20 | isqrt(0) = 0 |
| Utility.IsqrtMonotone | src/utility.hpp:18-20 | isqrt never decreases as its argument grows |
| Utility.IsqrtCallsSquares | src/utility.hpp:14-15 | started at k² with step 2k+1, every recursive call receives some j² with step 2j+1, for j = k, k+1, … in turn |
| Utility.IsqrtCallsStop | src/utility.hpp:14-15 | every call except the last sees a square ≤ value; the last sees one > value, so the recursion stops at the first square above value |
| Utility.IsqrtCallsCount | src/utility.hpp:12-20 | isqrt makes exactly isqrt(value)+1 calls; call i receives ((i+1)², 2(i+1)+1) |
| Utility.IsqrtCallsFit | src/utility.hpp:12-16 | for value < (2³²-1)², no square or step passed along the recursion exceeds the largest 64-bit size_t, so unbounded and size_t arithmetic agree |
| Types.Ord | src/types.hpp:10-12 | air is the only block kind with value 0; every value is at most 5 |
| Types.OrdInjective | src/types.hpp:10-12 | distinct block kinds have distinct enumerator values |
| Types.ChunkDiameter | src/types.hpp:26-33 | chunk_diameter = isqrt(8² + 64² + 8²) = 64 |
| Types.HalfExtentsExact | src/types.hpp:22-28 | each half extent is exactly half of its extent, since every extent is even |
| Types.KeysEqual | src/types.hpp:51-55 | two keys compare equal exactly when they are the same key |
| Types.KeysEqualIsEquivalence | src/types.hpp:51-55 | key equality is reflexive, symmetric and transitive |
| Chunks.IntendedIndexInBounds | src/chunk_array.hpp:29 | the row-major index x + W·y + W·H·z of an in-range cell is below volume = W·H·D, for any extents |
| Chunks.IntendedIndexInjective | src/chunk_array.hpp:29 | distinct in-range cells get distinct row-major indices |
| Chunks.Volume | src/chunk_base.hpp:12 | volume is the product W·H·D |
| Chunks.FlatIndex | src/chunk_array.hpp:29 | the index the storage computes is x + H·y + H·D·z, as written; FlatIndexOnCubes and FlatIndexOverrunsAtEngineExtents say where it is sound and where it is not |
| Chunks.FlatIndexOnCubes | src/chunk_array.hpp:8-9 | on the default cube instantiation (W = H = D) the index as written equals the row-major one |
| Chunks.FlatIndexOverrunsAtEngineExtents | src/chunk_array.hpp:29 | with 16 × 128 × 16 extents the index as written sends (15,127,15) past volume, and sends (0,16,0) and (0,0,1) to the same slot |
| Chunks.ArrayChunk.constructor | src/chunk_base.hpp:44-53 | a new chunk has the given extents and W·H·D cells, all air; it is clean and every neighbour reference is empty |
| Chunks.ArrayChunk.IndexInBounds | src/chunk_array.hpp:27-30 | the storage slot of every in-range cell lies inside the array |
| Chunks.ArrayChunk.IndexInjective | src/chunk_array.hpp:33-41 | no two in-range cells share a storage slot |
| Chunks.ArrayChunk.Get | src/chunk_array.hpp:25-30 | the block of a cell is the one held in its own slot, which lies inside the array; SetImpl and Set prove that it reads back the value last written to that cell and is unaffected by writes to any other cell |
| Chunks.ArrayChunk.IsSolid | src/chunk_array.hpp:44-48 | a cell is solid exactly when its block is not air |
| Chunks.ArrayChunk.CheckNeighbor | src/chunk_base.hpp:108-117 | an absent or expired neighbour reports the face as visible |
| Chunks.ArrayChunk.FaceVisible | src/chunk_base.hpp:103-156 | a face is only ever visible on a solid cell: air shows no face, whatever the face or the neighbours |
| Chunks.ArrayChunk.FaceVisibleByStep | src/chunk_base.hpp:118-155 | the six-way switch agrees with one rule: step once towards the face; inside the chunk, test that cell; outside, test the neighbour across the face at the wrapped coordinate (front (x,y,D-1), back (x,y,0), left (W-1,y,z), right (0,y,z), top (x,0,z), bottom (x,H-1,z)) |
| Chunks.ArrayChunk.BoundaryStep | src/chunk_base.hpp:118-155 | at the boundary, the wrapped coordinate lies inside the neighbour, and visibility is "cell solid and neighbour absent or empty there" |
| Chunks.ArrayChunk.InteriorFace | src/chunk_base.hpp:118-155 | away from the boundary, a face is visible iff its cell is solid and the adjacent cell (front z-1, back z+1, left x-1, right x+1, top y+1, bottom y-1) is not |
| Chunks.ArrayChunk.OpenBoundaryFace | src/chunk_base.hpp:108-117 | on the boundary with no live neighbour across it, a face is visible iff its cell is solid |
| Chunks.ArrayChunk.SolidRightNeighborHides | src/chunk_base.hpp:137-142 | if the right neighbour is solid at (0,y,z), the right face of (W-1,y,z) is hidden |
| Chunks.ArrayChunk.IsolatedSolidChunk | src/chunk_base.hpp:103-156 | in a solid chunk with no neighbours, exactly the faces on the chunk's outer boundary are visible |
| Chunks.ArrayChunk.MarkDirty | src/chunk_base.hpp:189-192 | afterwards the chunk reports dirty, and only the flag changes |
| Chunks.ArrayChunk.MarkClean | src/chunk_base.hpp:194-197 | afterwards the chunk reports clean, and only the flag changes |
| Chunks.ArrayChunk.IsDirty | src/chunk_base.hpp:184-187 | reports the flag itself: true after MarkDirty and false after MarkClean until the next mark (their ensures); SetImpl only ever raises it |
| Chunks.ArrayChunk.SetNeighbor | src/chunk_base.hpp:158-182 | replaces the reference across face f only; the other five references and the dirty flag are unchanged |
| Chunks.ArrayChunk.TouchedFaces | src/chunk_base.hpp:73-91 | a write touches at most one face per axis, and every touched face lies on the chunk's boundary |
| Chunks.ArrayChunk.TouchedFacesAreBoundaryFaces | src/chunk_base.hpp:73-91 | when every extent is at least 2, the touched faces are exactly the faces whose visibility query crosses into a neighbour; an interior cell touches none |
| Chunks.ArrayChunk.MarkedNeighborsAcrossTouchedFaces | src/chunk_base.hpp:73-91 | a chunk is marked by a write exactly when it is the live neighbour across one of the touched faces |
| Chunks.ArrayChunk.MarkNeighborDirty | src/chunk_base.hpp:66-71 | a live neighbour becomes dirty; an expired one is skipped |
| Chunks.ArrayChunk.SetImpl | src/chunk_array.hpp:33-41 | stores the value in the cell's slot and leaves every other cell unchanged; sets dirty iff the stored value differed; never clears dirty |
| Chunks.ArrayChunk.MarkTouchedNeighbors | src/chunk_base.hpp:74-90 | each neighbour becomes dirty iff it was dirty or it is live across a touched face (per axis: the low face at 0, otherwise the high face at extent-1) |
| Chunks.ArrayChunk.MarkNeighborsIfDirty | src/chunk_base.hpp:73-91 | neighbours are marked only when the chunk is dirty; a clean chunk changes no neighbour's flag |
| Chunks.ArrayChunk.Set | src/chunk_base.hpp:63-92 | the cell then reads back the new value and every other cell is unchanged; the chunk is dirty iff it was dirty or the value changed; the neighbour references are unchanged; each other neighbour becomes dirty iff it was dirty, or the chunk is now dirty and the neighbour lies across a touched face |
| Meshing.FaceQuad | src/chunk_renderer.cpp:116-169 | each quad has six vertices; vertex 4 equals vertex 3 and vertex 6 equals vertex 1; every vertex carries the cell's block type and is a corner of the cell; every face but the bottom lies on its face plane; the four distinct corners are pairwise different |
| Meshing.FirstTriangleWinding | src/chunk_renderer.cpp:116-160 | for every face but the bottom, the first triangle's normal points from the face into the cell |
| Meshing.SecondTriangleWinding | src/chunk_renderer.cpp:116-169 | for every face, the second triangle's normal points from the face into the cell |
| Meshing.BottomQuadLeavesItsPlane | src/chunk_renderer.cpp:161-169 | the bottom quad's second vertex is one unit above the bottom plane, so its first triangle is tilted away from the face normal |
| Meshing.EmitCell | src/chunk_renderer.cpp:112-169 | an air cell leaves every buffer unchanged; otherwise each face's buffer grows by that cell's quad exactly when the face is visible |
| Meshing.BuildMesh | src/chunk_renderer.cpp:92-181 | the z/y/x triple loop yields exactly MeshOf(c): each buffer is the concatenation, in z-major, then y, then x order, of the cells' quads |
| MeshFacts.FaceBufferIsVisibleQuads | src/chunk_renderer.cpp:109-172 | every face buffer is a whole number of six-vertex quads, and each quad belongs to a solid in-range cell whose face in that direction is visible |
| MeshFacts.FaceBufferVertices | src/chunk_renderer.cpp:112-169 | no buffered vertex carries air, and every vertex lies within the chunk's extents |
| MeshFacts.FaceBufferCount | src/chunk_renderer.cpp:109-172 | each buffer's vertex count (number_of_vertices) is 6 × the number of solid cells whose face in that direction is visible |
| MeshFacts.FaceVisibleSameView | src/chunk_base.hpp:103-156 | face visibility depends only on the chunk's cells and the cells of its live neighbours |
| MeshFacts.MeshOfSameView | src/chunk_renderer.cpp:109-111 | two chunks with the same cells and the same neighbour cells (or no neighbour on both sides) on every face get identical meshes |
| Renderer.ChunkRenderer.constructor | src/chunk_renderer.hpp:23-25 | the renderer starts with no meshes and has received no notification |
| Renderer.ChunkRenderer.OnChunkUpdate | src/chunk_renderer.cpp:76-79 | creates the key's entry if it is absent, then rebuilds it: the key maps to the mesh of the chunk and every other entry stays |
| Renderer.ChunkRenderer.OnChunkInsertion | src/chunk_renderer.cpp:81-84 | emplace keeps an existing entry and build_mesh rebuilds whichever entry is there: the key maps to the mesh of the chunk and every other entry stays |
| Renderer.ChunkRenderer.OnChunkRemoval | src/chunk_renderer.cpp:86-90 | erases the key's mesh if present; every other mesh stays |
| Manager.ChunkManager.constructor | src/chunk_manager.cpp:6-9 | the registry holds exactly the key (0,0,0), mapped to the initial chunk; the renderer gets its mesh and exactly one insertion notification |
| Manager.ChunkManager.InsertChunk | src/chunk_manager.cpp:11-14 | adds key → chunk only when the key is absent and keeps an existing entry otherwise; always sends exactly one insertion notification, which rebuilds the key's mesh from the given chunk; every registered key keeps a mesh |
| Manager.ChunkManager.RemoveChunk | src/chunk_manager.cpp:16-21 | a present key is erased together with its mesh and exactly one removal notification is sent; an absent key changes nothing and sends nothing |
| Manager.ChunkManager.Update | src/chunk_manager.cpp:23-25 | nothing changes: it modifies nothing, so the registry, every chunk and the renderer keep their state |

## Findings

| source | as written | input that shows it | evidently intended | confidence | as-written member | corrected member |
|---|---|---|---|---|---|---|
| src/chunk_array.hpp:29 | the cell index is `x + H*y + H*D*z` (also at lines 36 and 47) | with the engine's 16 × 128 × 16 extents, cell (15,127,15) gets index 46991, past volume 32768; cells (0,16,0) and (0,0,1) both get index 2048 | the row-major index `x + W*y + W*H*z`, in bounds and injective for all extents | not executed | Chunks.FlatIndexOverrunsAtEngineExtents | Chunks.IntendedIndexInBounds |

`Chunks.IntendedIndexInjective` proves the second half of the intended property.
`Chunks.ArrayChunk.Index` uses the corrected index for every cell access, and
`Chunks.FlatIndexOnCubes` proves that it agrees with the written one on the
default W = H = D instantiation. The corrected index also lets the model drop
the W = H = D precondition the written index would need.

## Left out

- Disagreements with the source, and which side the model takes:
  - Removal (src/chunk_manager.cpp:17 and src/chunk_renderer.cpp:87): `auto itr = find(key) != end()` binds `itr` to a bool, by operator precedence. `Manager.ChunkManager.RemoveChunk` and `Renderer.ChunkRenderer.OnChunkRemoval` model the evidently intended "erase the key when present", not a bool passed to `erase`.
  - Duplicate insert: on a key that is already registered, the registry keeps the earlier chunk but the renderer rebuilds the key's mesh from the new one. The mesh then no longer matches the stored chunk. `Manager.ChunkManager.InsertChunk` states this as it is; `Synced` (same key sets) survives it.
  - Meshing.BuildMesh: loops over the chunk's own extents. The source loops over `chunk_width`/`chunk_height`/`chunk_depth`, which are the extents of the `chunk` type. `chunk.hpp`, which defines that type, is not part of this model.
  - Meshing.FaceQuad: requires coordinates below 255, so that `x + 1` fits a `GLubyte` vertex coordinate. In-range cells of any `local_size_t` extent meet this.
  - The bottom quad is modelled as written, with its second vertex at (x, y+1, z). `Meshing.BottomQuadLeavesItsPlane` shows the effect. The winding and face-plane facts therefore exclude the bottom where they fail.
- Deliberately weaker contracts and modelling shortcuts:
  - Chunks.ArrayChunk.Get: addresses cells through the corrected row-major index. At extents that are not a cube, such as the engine's 16 × 128 × 16, it does not reproduce the written index's read past the storage or its sharing of one slot between two cells, such as (0,16,0) and (0,0,1).
  - Chunks.ArrayChunk.IsSolid: addresses cells through the corrected index, as Get does. At non-cube extents it does not reproduce the written index's overrun or slot sharing.
  - Chunks.ArrayChunk.SetImpl: writes through the corrected index. At non-cube extents the written code would write past the storage or overwrite another cell's slot, so its "every other cell unchanged" would fail there. The model does not reproduce that.
  - Chunks.ArrayChunk.Set: goes through SetImpl, so "every other cell is unchanged" holds for the corrected index. Under the written index it holds only on cube extents.
  - Chunks.ArrayChunk.Set: the neighbour-dirty clause covers neighbours other than the chunk itself. A chunk linked to itself is only covered by the chunk's own dirty clause.
  - Chunks.ArrayChunk.constructor: models a default-constructed `array_chunk` as all air. `std::array<block_type, N>` value-initialised by `make_shared` holds `air = 0`.
  - Renderer.ChunkRenderer.constructor: the `mogl::program` argument and `update_ogl_ids` are left out. Only the empty mesh map is modelled.
  - The renderer's `log` is a ghost record of the notifications received. It is a modelling device that lets the number and kind of notifications be stated; the source keeps no such record.
  - Utility.Isqrt: computes on unbounded naturals, not 64-bit `size_t`. `Utility.IsqrtCallsFit` shows that the two agree whenever value < (2³²-1)². The wrap of `(dlt >> 1) - 1` at dlt = 1 is written out, though `isqrt` never reaches it.
- Source not modelled:
  - Drawing: `chunk_renderer::render`, the GL upload in `upload_vertex_data` (only `number_of_vertices = d.size()` is kept, as the buffer length), `set_program`, `update_ogl_ids` and the float normal constants. These are OpenGL calls and floating point.
  - The camera, the game loop, windowing and input: floating point, GLFW and clocks.
  - `chunk_generator::make_50_50_chunk`: it draws on `std::random_device`, so the manager's constructor takes the generated chunk as a parameter `initial`. `make_solid_chunk` depends on the unseen `chunk.hpp` and is left out too.
  - `hash_combine` and `chunk_hash`: they wrap `std::hash`, a foreign function. The registry's maps are modelled as Dafny maps keyed by `ChunkKey`, whose equality is `chunk_hash_equal`.
  - `weak_ptr` lifetime: an expired neighbour is simply `None`. Locking and ownership are not modelled.
  - Neighbour wiring in the registry: the source has none, so the model has none.
