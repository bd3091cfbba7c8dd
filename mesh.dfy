/** Naive surface extraction: for every solid cell of a chunk and every face of
    it that the visibility protocol reports, six vertices (two triangles) are
    appended to that face's buffer, visiting cells in z, then y, then x order. */
module Meshing {
  import opened Types
  import opened Chunks

  /** `GLubyte`. */
  type Byte = b: int | 0 <= b < 256

  /** `voxel_vertex`: a cell corner and the block type it belongs to. */
  datatype Vertex = Vertex(x: Byte, y: Byte, z: Byte, t: Byte)

  /** The plane a face of cell `(x, y, z)` lies on. */
  predicate OnFacePlane(f: Face, x: nat, y: nat, z: nat, v: Vertex)
  {
    match f
    case Front => v.z == z
    case Back => v.z == z + 1
    case Left => v.x == x
    case Right => v.x == x + 1
    case Top => v.y == y + 1
    case Bottom => v.y == y
  }

  /** `v` is a corner of the unit cube of cell `(x, y, z)`. */
  predicate CornerOf(x: nat, y: nat, z: nat, v: Vertex)
  {
    x <= v.x <= x + 1 && y <= v.y <= y + 1 && z <= v.z <= z + 1
  }

  /** The (integer) normal `(b - a) x (c - a)` of triangle `a, b, c`. */
  function Normal(a: Vertex, b: Vertex, c: Vertex): (int, int, int)
  {
    var (ux, uy, uz) := (b.x - a.x, b.y - a.y, b.z - a.z);
    var (vx, vy, vz) := (c.x - a.x, c.y - a.y, c.z - a.z);
    (uy * vz - uz * vy, uz * vx - ux * vz, ux * vy - uy * vx)
  }

  /** The unit vector from a face back into its cell. */
  function Inward(f: Face): (int, int, int)
  {
    (-StepX(f), -StepY(f), -StepZ(f))
  }

  function V(x: nat, y: nat, z: nat, t: BlockType): Vertex
    requires x < 256 && y < 256 && z < 256
  {
    Vertex(x, y, z, Ord(t))
  }

  /** The six vertices emitted for face `f` of a cell of type `t` at `(x, y, z)`,
      in the order the renderer emits them: two triangles sharing a diagonal.
      Every face but the bottom covers the four corners of its unit square, with
      both triangles wound towards the cell's inside. The bottom quad's second
      vertex is `(x, y + 1, z)`, which lifts its first triangle off the plane. */
  function FaceQuad(f: Face, x: nat, y: nat, z: nat, t: BlockType): (r: seq<Vertex>)
    requires x < 255 && y < 255 && z < 255
    ensures |r| == 6 && r[3] == r[2] && r[5] == r[0]
    ensures forall i :: 0 <= i < 6 ==> r[i].t == Ord(t) && CornerOf(x, y, z, r[i])
    ensures f != Bottom ==> forall i :: 0 <= i < 6 ==> OnFacePlane(f, x, y, z, r[i])
    ensures r[0] != r[1] && r[0] != r[2] && r[0] != r[4] && r[1] != r[2] && r[1] != r[4] && r[2] != r[4]
  {
    match f
    case Front =>
      [V(x, y + 1, z, t), V(x, y, z, t), V(x + 1, y, z, t),
       V(x + 1, y, z, t), V(x + 1, y + 1, z, t), V(x, y + 1, z, t)]
    case Back =>
      [V(x + 1, y + 1, z + 1, t), V(x + 1, y, z + 1, t), V(x, y, z + 1, t),
       V(x, y, z + 1, t), V(x, y + 1, z + 1, t), V(x + 1, y + 1, z + 1, t)]
    case Left =>
      [V(x, y + 1, z + 1, t), V(x, y, z + 1, t), V(x, y, z, t),
       V(x, y, z, t), V(x, y + 1, z, t), V(x, y + 1, z + 1, t)]
    case Right =>
      [V(x + 1, y + 1, z, t), V(x + 1, y, z, t), V(x + 1, y, z + 1, t),
       V(x + 1, y, z + 1, t), V(x + 1, y + 1, z + 1, t), V(x + 1, y + 1, z, t)]
    case Top =>
      [V(x, y + 1, z + 1, t), V(x, y + 1, z, t), V(x + 1, y + 1, z, t),
       V(x + 1, y + 1, z, t), V(x + 1, y + 1, z + 1, t), V(x, y + 1, z + 1, t)]
    case Bottom =>
      [V(x, y, z, t), V(x, y + 1, z, t), V(x + 1, y, z + 1, t),
       V(x + 1, y, z + 1, t), V(x + 1, y, z, t), V(x, y, z, t)]
  }

  /** The first triangle of every quad but the bottom one has its normal
      pointing from the face into the cell ... */
  lemma FirstTriangleWinding(f: Face, x: nat, y: nat, z: nat, t: BlockType)
    requires x < 255 && y < 255 && z < 255 && f != Bottom
    ensures var r := FaceQuad(f, x, y, z, t); Normal(r[0], r[1], r[2]) == Inward(f)
  {
    match f
    case Front =>
    case Back =>
    case Left =>
    case Right =>
    case Top =>
  }

  /** ... and so has the second triangle of every quad. */
  lemma SecondTriangleWinding(f: Face, x: nat, y: nat, z: nat, t: BlockType)
    requires x < 255 && y < 255 && z < 255
    ensures var r := FaceQuad(f, x, y, z, t); Normal(r[3], r[4], r[5]) == Inward(f)
  {
    match f
    case Front =>
    case Back =>
    case Left =>
    case Right =>
    case Top =>
    case Bottom =>
  }

  /** The bottom quad is not planar: its second vertex sits one unit above the
      bottom plane and its first triangle is tilted away from the face normal. */
  lemma BottomQuadLeavesItsPlane(x: nat, y: nat, z: nat, t: BlockType)
    requires x < 255 && y < 255 && z < 255
    ensures var r := FaceQuad(Bottom, x, y, z, t);
            !OnFacePlane(Bottom, x, y, z, r[1]) && r[1].y == y + 1
            && Normal(r[0], r[1], r[2]) == (1, 0, -1) != Inward(Bottom)
  {
  }

  /** `chunk_mesh` as the data uploaded for each face; `number_of_vertices` is the
      length of a buffer. */
  datatype Mesh = Mesh(front: seq<Vertex>, back: seq<Vertex>, left: seq<Vertex>,
                       right: seq<Vertex>, top: seq<Vertex>, bottom: seq<Vertex>)
  {
    function Buffer(f: Face): seq<Vertex>
    {
      match f
      case Front => front
      case Back => back
      case Left => left
      case Right => right
      case Top => top
      case Bottom => bottom
    }

    function VertexCount(f: Face): nat
    {
      |Buffer(f)|
    }
  }

  const EmptyMesh := Mesh([], [], [], [], [], [])

  /** What one cell contributes to the buffer of face `f`. */
  function CellQuads(c: ArrayChunk, f: Face, x: nat, y: nat, z: nat): seq<Vertex>
    requires c.Valid() && c.InRange(x, y, z)
    reads c, c.Footprint()
  {
    if c.FaceVisible(f, x, y, z) then FaceQuad(f, x, y, z, c.Get(x, y, z)) else []
  }

  /** The cells `x < n` of row `(y, z)`, in order. */
  function RowQuads(c: ArrayChunk, f: Face, z: nat, y: nat, n: nat): seq<Vertex>
    requires c.Valid() && z < c.depth && y < c.height && n <= c.width
    reads c, c.Footprint()
  {
    if n == 0 then [] else RowQuads(c, f, z, y, n - 1) + CellQuads(c, f, n - 1, y, z)
  }

  /** The full rows `y < m` of layer `z`, in order. */
  function LayerQuads(c: ArrayChunk, f: Face, z: nat, m: nat): seq<Vertex>
    requires c.Valid() && z < c.depth && m <= c.height
    reads c, c.Footprint()
  {
    if m == 0 then [] else LayerQuads(c, f, z, m - 1) + RowQuads(c, f, z, m - 1, c.width)
  }

  /** The full layers `z < k`, in order. */
  function PrefixQuads(c: ArrayChunk, f: Face, k: nat): seq<Vertex>
    requires c.Valid() && k <= c.depth
    reads c, c.Footprint()
  {
    if k == 0 then [] else PrefixQuads(c, f, k - 1) + LayerQuads(c, f, k - 1, c.height)
  }

  /** The buffer of face `f`: every cell of the chunk in z, y, x order. */
  function FaceBuffer(c: ArrayChunk, f: Face): seq<Vertex>
    requires c.Valid()
    reads c, c.Footprint()
  {
    PrefixQuads(c, f, c.depth)
  }

  /** The mesh of a chunk in its current state and that of its neighbours. */
  function MeshOf(c: ArrayChunk): Mesh
    requires c.Valid()
    reads c, c.Footprint()
  {
    Mesh(FaceBuffer(c, Front), FaceBuffer(c, Back), FaceBuffer(c, Left),
         FaceBuffer(c, Right), FaceBuffer(c, Top), FaceBuffer(c, Bottom))
  }

  /** The buffer of face `f` once the loop has passed every cell before `(x, y, z)`. */
  function Progress(c: ArrayChunk, f: Face, z: nat, y: nat, x: nat): seq<Vertex>
    requires c.Valid() && z < c.depth && y < c.height && x <= c.width
    reads c, c.Footprint()
  {
    PrefixQuads(c, f, z) + LayerQuads(c, f, z, y) + RowQuads(c, f, z, y, x)
  }

  function ProgressMesh(c: ArrayChunk, z: nat, y: nat, x: nat): Mesh
    requires c.Valid() && z < c.depth && y < c.height && x <= c.width
    reads c, c.Footprint()
  {
    Mesh(Progress(c, Front, z, y, x), Progress(c, Back, z, y, x), Progress(c, Left, z, y, x),
         Progress(c, Right, z, y, x), Progress(c, Top, z, y, x), Progress(c, Bottom, z, y, x))
  }

  /** The loop body for one cell: nothing for air; otherwise, face by face in
      the order front, back, left, right, top, bottom, the cell's quad is
      appended to the face's buffer when the face is visible. */
  function EmitCell(c: ArrayChunk, m: Mesh, x: nat, y: nat, z: nat): (r: Mesh)
    requires c.Valid() && c.InRange(x, y, z)
    reads c, c.Footprint()
    ensures r == Mesh(m.front + CellQuads(c, Front, x, y, z), m.back + CellQuads(c, Back, x, y, z),
                      m.left + CellQuads(c, Left, x, y, z), m.right + CellQuads(c, Right, x, y, z),
                      m.top + CellQuads(c, Top, x, y, z), m.bottom + CellQuads(c, Bottom, x, y, z))
    ensures c.Get(x, y, z) == Air ==> r == m
  {
    var t := c.Get(x, y, z);
    if t == Air then m
    else
      Mesh(m.front + (if c.FaceVisible(Front, x, y, z) then FaceQuad(Front, x, y, z, t) else []),
           m.back + (if c.FaceVisible(Back, x, y, z) then FaceQuad(Back, x, y, z, t) else []),
           m.left + (if c.FaceVisible(Left, x, y, z) then FaceQuad(Left, x, y, z, t) else []),
           m.right + (if c.FaceVisible(Right, x, y, z) then FaceQuad(Right, x, y, z, t) else []),
           m.top + (if c.FaceVisible(Top, x, y, z) then FaceQuad(Top, x, y, z, t) else []),
           m.bottom + (if c.FaceVisible(Bottom, x, y, z) then FaceQuad(Bottom, x, y, z, t) else []))
  }

  /** One more cell of the row: each buffer grows by that cell's quads. */
  lemma ProgressStep(c: ArrayChunk, z: nat, y: nat, x: nat)
    requires c.Valid() && z < c.depth && y < c.height && x < c.width
    ensures ProgressMesh(c, z, y, x + 1) == EmitCell(c, ProgressMesh(c, z, y, x), x, y, z)
  {
    ProgressFaceStep(c, Front, z, y, x);
    ProgressFaceStep(c, Back, z, y, x);
    ProgressFaceStep(c, Left, z, y, x);
    ProgressFaceStep(c, Right, z, y, x);
    ProgressFaceStep(c, Top, z, y, x);
    ProgressFaceStep(c, Bottom, z, y, x);
  }

  lemma ProgressFaceStep(c: ArrayChunk, f: Face, z: nat, y: nat, x: nat)
    requires c.Valid() && z < c.depth && y < c.height && x < c.width
    ensures Progress(c, f, z, y, x + 1) == Progress(c, f, z, y, x) + CellQuads(c, f, x, y, z)
  {
    var p, l, r := PrefixQuads(c, f, z), LayerQuads(c, f, z, y), RowQuads(c, f, z, y, x);
    assert RowQuads(c, f, z, y, x + 1) == r + CellQuads(c, f, x, y, z);
    assert p + l + (r + CellQuads(c, f, x, y, z)) == (p + l + r) + CellQuads(c, f, x, y, z);
  }

  /** The buffers once the loop has passed the rows `< y` of layer `z`. */
  function LayerMesh(c: ArrayChunk, z: nat, y: nat): Mesh
    requires c.Valid() && z < c.depth && y <= c.height
    reads c, c.Footprint()
  {
    Mesh(PrefixQuads(c, Front, z) + LayerQuads(c, Front, z, y),
         PrefixQuads(c, Back, z) + LayerQuads(c, Back, z, y),
         PrefixQuads(c, Left, z) + LayerQuads(c, Left, z, y),
         PrefixQuads(c, Right, z) + LayerQuads(c, Right, z, y),
         PrefixQuads(c, Top, z) + LayerQuads(c, Top, z, y),
         PrefixQuads(c, Bottom, z) + LayerQuads(c, Bottom, z, y))
  }

  /** The buffers once the loop has passed the layers `< z`. */
  function PrefixMesh(c: ArrayChunk, z: nat): Mesh
    requires c.Valid() && z <= c.depth
    reads c, c.Footprint()
  {
    Mesh(PrefixQuads(c, Front, z), PrefixQuads(c, Back, z), PrefixQuads(c, Left, z),
         PrefixQuads(c, Right, z), PrefixQuads(c, Top, z), PrefixQuads(c, Bottom, z))
  }

  /** A row starts where the rows before it ended ... */
  lemma RowStart(c: ArrayChunk, z: nat, y: nat)
    requires c.Valid() && z < c.depth && y < c.height
    ensures ProgressMesh(c, z, y, 0) == LayerMesh(c, z, y)
  {
    forall f ensures Progress(c, f, z, y, 0) == PrefixQuads(c, f, z) + LayerQuads(c, f, z, y) {
      assert RowQuads(c, f, z, y, 0) == [];
    }
  }

  /** ... and a full row completes one more row of the layer. */
  lemma RowEnd(c: ArrayChunk, z: nat, y: nat)
    requires c.Valid() && z < c.depth && y < c.height
    ensures ProgressMesh(c, z, y, c.width) == LayerMesh(c, z, y + 1)
  {
    forall f ensures Progress(c, f, z, y, c.width) == PrefixQuads(c, f, z) + LayerQuads(c, f, z, y + 1) {
      var p, l, r := PrefixQuads(c, f, z), LayerQuads(c, f, z, y), RowQuads(c, f, z, y, c.width);
      assert LayerQuads(c, f, z, y + 1) == l + r;
      assert p + l + r == p + (l + r);
    }
  }

  /** A layer starts where the layers before it ended ... */
  lemma LayerStart(c: ArrayChunk, z: nat)
    requires c.Valid() && z < c.depth
    ensures LayerMesh(c, z, 0) == PrefixMesh(c, z)
  {
    forall f ensures PrefixQuads(c, f, z) + LayerQuads(c, f, z, 0) == PrefixQuads(c, f, z) {
      assert LayerQuads(c, f, z, 0) == [];
    }
  }

  /** ... and a full layer completes one more layer of the chunk. */
  lemma LayerEnd(c: ArrayChunk, z: nat)
    requires c.Valid() && z < c.depth
    ensures LayerMesh(c, z, c.height) == PrefixMesh(c, z + 1)
  {
  }

  /** `build_mesh`: the z / y / x triple loop over the cells of `c`. */
  method BuildMesh(c: ArrayChunk) returns (m: Mesh)
    requires c.Valid()
    ensures m == MeshOf(c)
  {
    m := EmptyMesh;
    var z := 0;
    while z < c.depth
      invariant z <= c.depth
      invariant m == PrefixMesh(c, z)
    {
      LayerStart(c, z);
      var y := 0;
      while y < c.height
        invariant y <= c.height
        invariant m == LayerMesh(c, z, y)
      {
        RowStart(c, z, y);
        var x := 0;
        while x < c.width
          invariant x <= c.width
          invariant m == ProgressMesh(c, z, y, x)
        {
          ProgressStep(c, z, y, x);
          m := EmitCell(c, m, x, y, z);
          x := x + 1;
        }
        RowEnd(c, z, y);
        y := y + 1;
      }
      LayerEnd(c, z);
      z := z + 1;
    }
  }
}
