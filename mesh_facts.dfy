/** What the buffers built by `build_mesh` consist of: whole quads, one for each
    solid cell whose face in that direction is visible, and nothing else. */
module MeshFacts {
  import opened Types
  import opened Chunks
  import opened Meshing

  /** The `k`-th six-vertex block of `s`. */
  function Block(s: seq<Vertex>, k: nat): seq<Vertex>
    requires 6 * k + 6 <= |s|
  {
    s[6 * k .. 6 * k + 6]
  }

  /** `q` is the quad of face `f` of a solid cell whose face `f` is visible. */
  ghost predicate VisibleQuad(c: ArrayChunk, f: Face, q: seq<Vertex>)
    requires c.Valid()
    reads c, c.Footprint()
  {
    exists x: nat, y: nat, z: nat :: c.InRange(x, y, z) && c.FaceVisible(f, x, y, z)
                                   && q == FaceQuad(f, x, y, z, c.Get(x, y, z))
  }

  /** `s` is a sequence of whole quads, each the quad of a visible face. */
  ghost predicate VisibleQuads(c: ArrayChunk, f: Face, s: seq<Vertex>)
    requires c.Valid()
    reads c, c.Footprint()
  {
    |s| % 6 == 0 && forall k: nat :: 6 * k + 6 <= |s| ==> VisibleQuad(c, f, Block(s, k))
  }

  /** The blocks of `a + b` are those of `a` followed by those of `b`. */
  lemma BlockOfConcat(a: seq<Vertex>, b: seq<Vertex>, n: nat, k: nat)
    requires |a| == 6 * n && 6 * k + 6 <= |a + b|
    ensures k < n ==> Block(a + b, k) == Block(a, k)
    ensures n <= k ==> 6 * (k - n) + 6 <= |b| && Block(a + b, k) == Block(b, k - n)
  {
  }

  lemma VisibleQuadsConcat(c: ArrayChunk, f: Face, a: seq<Vertex>, b: seq<Vertex>)
    requires c.Valid() && VisibleQuads(c, f, a) && VisibleQuads(c, f, b)
    ensures VisibleQuads(c, f, a + b)
  {
    var n := |a| / 6;
    assert |a| == 6 * n;
    forall k: nat | 6 * k + 6 <= |a + b|
      ensures VisibleQuad(c, f, Block(a + b, k))
    {
      BlockOfConcat(a, b, n, k);
    }
  }

  lemma CellQuadsVisible(c: ArrayChunk, f: Face, x: nat, y: nat, z: nat)
    requires c.Valid() && c.InRange(x, y, z)
    ensures VisibleQuads(c, f, CellQuads(c, f, x, y, z))
  {
    var q := CellQuads(c, f, x, y, z);
    if c.FaceVisible(f, x, y, z) {
      forall k: nat | 6 * k + 6 <= |q|
        ensures VisibleQuad(c, f, Block(q, k))
      {
        assert k == 0 && Block(q, k) == FaceQuad(f, x, y, z, c.Get(x, y, z));
      }
    }
  }

  lemma {:induction false} RowQuadsVisible(c: ArrayChunk, f: Face, z: nat, y: nat, n: nat)
    requires c.Valid() && z < c.depth && y < c.height && n <= c.width
    ensures VisibleQuads(c, f, RowQuads(c, f, z, y, n))
  {
    if n > 0 {
      RowQuadsVisible(c, f, z, y, n - 1);
      CellQuadsVisible(c, f, n - 1, y, z);
      VisibleQuadsConcat(c, f, RowQuads(c, f, z, y, n - 1), CellQuads(c, f, n - 1, y, z));
    }
  }

  lemma {:induction false} LayerQuadsVisible(c: ArrayChunk, f: Face, z: nat, m: nat)
    requires c.Valid() && z < c.depth && m <= c.height
    ensures VisibleQuads(c, f, LayerQuads(c, f, z, m))
  {
    if m > 0 {
      LayerQuadsVisible(c, f, z, m - 1);
      RowQuadsVisible(c, f, z, m - 1, c.width);
      VisibleQuadsConcat(c, f, LayerQuads(c, f, z, m - 1), RowQuads(c, f, z, m - 1, c.width));
    }
  }

  lemma {:induction false} PrefixQuadsVisible(c: ArrayChunk, f: Face, k: nat)
    requires c.Valid() && k <= c.depth
    ensures VisibleQuads(c, f, PrefixQuads(c, f, k))
  {
    if k > 0 {
      PrefixQuadsVisible(c, f, k - 1);
      LayerQuadsVisible(c, f, k - 1, c.height);
      VisibleQuadsConcat(c, f, PrefixQuads(c, f, k - 1), LayerQuads(c, f, k - 1, c.height));
    }
  }

  /** Every face buffer consists of whole quads, each the quad of a solid cell
      whose face in that direction is visible, carrying that cell's block type. */
  lemma FaceBufferIsVisibleQuads(c: ArrayChunk, f: Face)
    requires c.Valid()
    ensures VisibleQuads(c, f, FaceBuffer(c, f))
  {
    PrefixQuadsVisible(c, f, c.depth);
  }

  /** No vertex of a buffer belongs to air, and every vertex lies within the
      chunk's extents. */
  lemma FaceBufferVertices(c: ArrayChunk, f: Face)
    requires c.Valid()
    ensures forall v :: v in FaceBuffer(c, f) ==> v.t != Ord(Air)
    ensures forall v :: v in FaceBuffer(c, f) ==> v.x <= c.width && v.y <= c.height && v.z <= c.depth
  {
    var s := FaceBuffer(c, f);
    FaceBufferIsVisibleQuads(c, f);
    forall i | 0 <= i < |s|
      ensures s[i].t != Ord(Air) && s[i].x <= c.width && s[i].y <= c.height && s[i].z <= c.depth
    {
      var k := i / 6;
      assert VisibleQuad(c, f, Block(s, k));
      var x: nat, y: nat, z: nat :| c.InRange(x, y, z) && c.FaceVisible(f, x, y, z)
                                  && Block(s, k) == FaceQuad(f, x, y, z, c.Get(x, y, z));
      assert s[i] == Block(s, k)[i - 6 * k];
    }
  }

  /** The cells `x < n` of row `(y, z)` whose face `f` is visible. */
  ghost function RowCells(c: ArrayChunk, f: Face, z: nat, y: nat, n: nat): set<(nat, nat, nat)>
    requires c.Valid() && z < c.depth && y < c.height && n <= c.width
    reads c, c.Footprint()
  {
    set x: nat | x < n && c.FaceVisible(f, x, y, z) :: (x, y, z)
  }

  /** The cells of the rows `y < m` of layer `z` whose face `f` is visible. */
  ghost function LayerCells(c: ArrayChunk, f: Face, z: nat, m: nat): set<(nat, nat, nat)>
    requires c.Valid() && z < c.depth && m <= c.height
    reads c, c.Footprint()
  {
    set x: nat, y: nat | x < c.width && y < m && c.FaceVisible(f, x, y, z) :: (x, y, z)
  }

  /** The cells of the layers `z < k` whose face `f` is visible. */
  ghost function PrefixCells(c: ArrayChunk, f: Face, k: nat): set<(nat, nat, nat)>
    requires c.Valid() && k <= c.depth
    reads c, c.Footprint()
  {
    set x: nat, y: nat, z: nat | x < c.width && y < c.height && z < k && c.FaceVisible(f, x, y, z)
      :: (x, y, z)
  }

  /** The cells of the chunk whose face `f` is visible. */
  ghost function VisibleCells(c: ArrayChunk, f: Face): set<(nat, nat, nat)>
    requires c.Valid()
    reads c, c.Footprint()
  {
    set x: nat, y: nat, z: nat | x < c.width && y < c.height && z < c.depth && c.FaceVisible(f, x, y, z)
      :: (x, y, z)
  }

  /** The cells of a row up to `x + 1` are those up to `x` and possibly `(x, y, z)`. */
  lemma RowCellsStep(c: ArrayChunk, f: Face, z: nat, y: nat, x: nat)
    requires c.Valid() && z < c.depth && y < c.height && x < c.width
    ensures var last: set<(nat, nat, nat)> := if c.FaceVisible(f, x, y, z) then {(x, y, z)} else {};
            RowCells(c, f, z, y, x + 1) == RowCells(c, f, z, y, x) + last
            && RowCells(c, f, z, y, x) !! last
  {
    var last: set<(nat, nat, nat)> := if c.FaceVisible(f, x, y, z) then {(x, y, z)} else {};
    var before, after := RowCells(c, f, z, y, x), RowCells(c, f, z, y, x + 1);
    forall p | p in after ensures p in before + last {
      var a: nat :| a < x + 1 && c.FaceVisible(f, a, y, z) && p == (a, y, z);
      if a < x {
        assert p in before;
      }
    }
    forall p | p in before + last ensures p in after {
      if p in before {
        var a: nat :| a < x && c.FaceVisible(f, a, y, z) && p == (a, y, z);
      }
    }
  }

  /** The cells of a layer up to row `y + 1` are those up to `y` and those of row `y`. */
  lemma LayerCellsStep(c: ArrayChunk, f: Face, z: nat, y: nat)
    requires c.Valid() && z < c.depth && y < c.height
    ensures LayerCells(c, f, z, y + 1) == LayerCells(c, f, z, y) + RowCells(c, f, z, y, c.width)
    ensures LayerCells(c, f, z, y) !! RowCells(c, f, z, y, c.width)
  {
    var before, row, after := LayerCells(c, f, z, y), RowCells(c, f, z, y, c.width), LayerCells(c, f, z, y + 1);
    forall p | p in after ensures p in before + row {
      var a: nat, b: nat :| a < c.width && b < y + 1 && c.FaceVisible(f, a, b, z) && p == (a, b, z);
      if b < y {
        assert p in before;
      } else {
        assert p in row;
      }
    }
    forall p | p in before + row ensures p in after {
      if p in before {
        var a: nat, b: nat :| a < c.width && b < y && c.FaceVisible(f, a, b, z) && p == (a, b, z);
      } else {
        var a: nat :| a < c.width && c.FaceVisible(f, a, y, z) && p == (a, y, z);
      }
    }
  }

  /** The cells up to layer `k + 1` are those up to `k` and those of layer `k`. */
  lemma PrefixCellsStep(c: ArrayChunk, f: Face, k: nat)
    requires c.Valid() && k < c.depth
    ensures PrefixCells(c, f, k + 1) == PrefixCells(c, f, k) + LayerCells(c, f, k, c.height)
    ensures PrefixCells(c, f, k) !! LayerCells(c, f, k, c.height)
  {
    var before, layer, after := PrefixCells(c, f, k), LayerCells(c, f, k, c.height), PrefixCells(c, f, k + 1);
    forall p | p in after ensures p in before + layer {
      var a: nat, b: nat, d: nat :| a < c.width && b < c.height && d < k + 1 && c.FaceVisible(f, a, b, d)
                                  && p == (a, b, d);
      if d < k {
        assert p in before;
      } else {
        assert p in layer;
      }
    }
    forall p | p in before + layer ensures p in after {
      if p in before {
        var a: nat, b: nat, d: nat :| a < c.width && b < c.height && d < k && c.FaceVisible(f, a, b, d)
                                    && p == (a, b, d);
      } else {
        var a: nat, b: nat :| a < c.width && b < c.height && c.FaceVisible(f, a, b, k) && p == (a, b, k);
      }
    }
  }

  /** Six vertices per cell survive concatenating two buffers over disjoint cell sets. */
  lemma SixPerCell(qa: seq<Vertex>, qb: seq<Vertex>, sa: set<(nat, nat, nat)>, sb: set<(nat, nat, nat)>)
    requires |qa| == 6 * |sa| && |qb| == 6 * |sb| && sa !! sb
    ensures |qa + qb| == 6 * |sa + sb|
  {
    assert |sa + sb| == |sa| + |sb|;
  }

  lemma {:induction false} RowCount(c: ArrayChunk, f: Face, z: nat, y: nat, n: nat)
    requires c.Valid() && z < c.depth && y < c.height && n <= c.width
    ensures |RowQuads(c, f, z, y, n)| == 6 * |RowCells(c, f, z, y, n)|
  {
    if n > 0 {
      var x: nat := n - 1;
      var last: set<(nat, nat, nat)> := if c.FaceVisible(f, x, y, z) then {(x, y, z)} else {};
      var rq, cq, rc := RowQuads(c, f, z, y, x), CellQuads(c, f, x, y, z), RowCells(c, f, z, y, x);
      RowCount(c, f, z, y, x);
      RowCellsStep(c, f, z, y, x);
      SixPerCell(rq, cq, rc, last);
    }
  }

  lemma {:induction false} LayerCount(c: ArrayChunk, f: Face, z: nat, m: nat)
    requires c.Valid() && z < c.depth && m <= c.height
    ensures |LayerQuads(c, f, z, m)| == 6 * |LayerCells(c, f, z, m)|
  {
    if m > 0 {
      var y: nat := m - 1;
      var lq, rq := LayerQuads(c, f, z, y), RowQuads(c, f, z, y, c.width);
      var lc, rc := LayerCells(c, f, z, y), RowCells(c, f, z, y, c.width);
      LayerCount(c, f, z, y);
      RowCount(c, f, z, y, c.width);
      LayerCellsStep(c, f, z, y);
      SixPerCell(lq, rq, lc, rc);
    }
  }

  lemma {:induction false} PrefixCount(c: ArrayChunk, f: Face, k: nat)
    requires c.Valid() && k <= c.depth
    ensures |PrefixQuads(c, f, k)| == 6 * |PrefixCells(c, f, k)|
  {
    if k > 0 {
      var z: nat := k - 1;
      var pq, lq := PrefixQuads(c, f, z), LayerQuads(c, f, z, c.height);
      var pc, lc := PrefixCells(c, f, z), LayerCells(c, f, z, c.height);
      PrefixCount(c, f, z);
      LayerCount(c, f, z, c.height);
      PrefixCellsStep(c, f, z);
      SixPerCell(pq, lq, pc, lc);
    }
  }

  /** Each face buffer holds exactly six vertices per solid cell whose face in
      that direction is visible. */
  lemma FaceBufferCount(c: ArrayChunk, f: Face)
    requires c.Valid()
    ensures |FaceBuffer(c, f)| == 6 * |VisibleCells(c, f)|
    ensures MeshOf(c).VertexCount(f) == 6 * |VisibleCells(c, f)|
  {
    PrefixCount(c, f, c.depth);
    assert PrefixCells(c, f, c.depth) == VisibleCells(c, f);
    match f
    case Front =>
    case Back =>
    case Left =>
    case Right =>
    case Top =>
    case Bottom =>
  }

  /** Two chunks of one shape holding the same block in every cell. */
  ghost predicate SameCells(c: ArrayChunk, d: ArrayChunk)
    reads c.data, d.data
  {
    c.width == d.width && c.height == d.height && c.depth == d.depth
    && c.Shaped() && d.Shaped()
    && forall x: nat, y: nat, z: nat :: c.InRange(x, y, z) ==> c.Get(x, y, z) == d.Get(x, y, z)
  }

  /** Two neighbour links that are both absent, or both live with the same cells. */
  ghost predicate SameLink(p: Option<ArrayChunk>, q: Option<ArrayChunk>)
    reads (if p.Some? then {p.value.data} else {}) + (if q.Some? then {q.value.data} else {})
  {
    match p
    case None => q.None?
    case Some(n) => q.Some? && SameCells(n, q.value)
  }

  /** Two chunks that look alike to `build_mesh`: the same cells, and on every
      face the same neighbour cells or no neighbour on both. */
  ghost predicate SameView(c: ArrayChunk, d: ArrayChunk)
    reads c, c.Footprint(), d, d.Footprint()
  {
    SameCells(c, d)
    && SameLink(c.front, d.front) && SameLink(c.back, d.back)
    && SameLink(c.left, d.left) && SameLink(c.right, d.right)
    && SameLink(c.top, d.top) && SameLink(c.bottom, d.bottom)
  }

  lemma NeighborSameLink(c: ArrayChunk, d: ArrayChunk, f: Face)
    requires SameView(c, d)
    ensures SameLink(c.Neighbor(f), d.Neighbor(f))
  {
    match f
    case Front =>
    case Back =>
    case Left =>
    case Right =>
    case Top =>
    case Bottom =>
  }

  /** A step that leaves the chunk lands in neighbours with the same cells, or in none on both. */
  lemma CheckNeighborSameLink(p: Option<ArrayChunk>, q: Option<ArrayChunk>, x: nat, y: nat, z: nat)
    requires SameLink(p, q)
    requires p.Some? ==> p.value.Shaped() && p.value.InRange(x, y, z)
    ensures q.Some? ==> q.value.Shaped() && q.value.InRange(x, y, z)
    ensures ArrayChunk.CheckNeighbor(p, x, y, z) == ArrayChunk.CheckNeighbor(q, x, y, z)
  {
    if p.Some? {
      assert p.value.Get(x, y, z) == q.value.Get(x, y, z);
    }
  }

  lemma BoundarySameView(c: ArrayChunk, d: ArrayChunk, f: Face, x: nat, y: nat, z: nat)
    requires c.Valid() && d.Valid() && SameView(c, d) && c.InRange(x, y, z) && c.Leaves(f, x, y, z)
    ensures d.InRange(x, y, z) && c.VisibleByStep(f, x, y, z) == d.VisibleByStep(f, x, y, z)
  {
    assert c.Get(x, y, z) == d.Get(x, y, z);
    c.BoundaryStep(f, x, y, z);
    d.BoundaryStep(f, x, y, z);
    NeighborSameLink(c, d, f);
    var wx := Wrap(x + StepX(f), c.width);
    var wy := Wrap(y + StepY(f), c.height);
    var wz := Wrap(z + StepZ(f), c.depth);
    CheckNeighborSameLink(c.Neighbor(f), d.Neighbor(f), wx, wy, wz);
  }

  /** A step that stays inside the chunk lands on the same cell of both. */
  lemma InteriorSameView(c: ArrayChunk, d: ArrayChunk, f: Face, x: nat, y: nat, z: nat)
    requires c.Valid() && d.Valid() && SameView(c, d) && c.InRange(x, y, z) && !c.Leaves(f, x, y, z)
    ensures d.InRange(x, y, z) && c.VisibleByStep(f, x, y, z) == d.VisibleByStep(f, x, y, z)
  {
    assert c.Get(x, y, z) == d.Get(x, y, z);
    var tx: nat, ty: nat, tz: nat := x + StepX(f), y + StepY(f), z + StepZ(f);
    assert c.Get(tx, ty, tz) == d.Get(tx, ty, tz);
  }

  lemma FaceVisibleSameView(c: ArrayChunk, d: ArrayChunk, f: Face, x: nat, y: nat, z: nat)
    requires c.Valid() && d.Valid() && SameView(c, d) && c.InRange(x, y, z)
    ensures d.InRange(x, y, z) && c.FaceVisible(f, x, y, z) == d.FaceVisible(f, x, y, z)
  {
    c.FaceVisibleByStep(f, x, y, z);
    d.FaceVisibleByStep(f, x, y, z);
    if c.Leaves(f, x, y, z) {
      BoundarySameView(c, d, f, x, y, z);
    } else {
      InteriorSameView(c, d, f, x, y, z);
    }
  }

  lemma {:induction false} RowQuadsSameView(c: ArrayChunk, d: ArrayChunk, f: Face, z: nat, y: nat, n: nat)
    requires c.Valid() && d.Valid() && SameView(c, d)
    requires z < c.depth && y < c.height && n <= c.width
    ensures z < d.depth && y < d.height && n <= d.width
    ensures RowQuads(c, f, z, y, n) == RowQuads(d, f, z, y, n)
  {
    if n > 0 {
      var x: nat := n - 1;
      RowQuadsSameView(c, d, f, z, y, x);
      FaceVisibleSameView(c, d, f, x, y, z);
      assert c.Get(x, y, z) == d.Get(x, y, z);
      assert CellQuads(c, f, x, y, z) == CellQuads(d, f, x, y, z);
    }
  }

  lemma {:induction false} LayerQuadsSameView(c: ArrayChunk, d: ArrayChunk, f: Face, z: nat, m: nat)
    requires c.Valid() && d.Valid() && SameView(c, d)
    requires z < c.depth && m <= c.height
    ensures z < d.depth && m <= d.height
    ensures LayerQuads(c, f, z, m) == LayerQuads(d, f, z, m)
  {
    if m > 0 {
      var y: nat := m - 1;
      LayerQuadsSameView(c, d, f, z, y);
      RowQuadsSameView(c, d, f, z, y, c.width);
      var before, row := LayerQuads(c, f, z, y), RowQuads(c, f, z, y, c.width);
      assert c.width == d.width;
      assert LayerQuads(d, f, z, m) == LayerQuads(d, f, z, y) + RowQuads(d, f, z, y, d.width);
    }
  }

  lemma {:induction false} PrefixQuadsSameView(c: ArrayChunk, d: ArrayChunk, f: Face, k: nat)
    requires c.Valid() && d.Valid() && SameView(c, d) && k <= c.depth
    ensures k <= d.depth
    ensures PrefixQuads(c, f, k) == PrefixQuads(d, f, k)
  {
    if k > 0 {
      var z: nat := k - 1;
      PrefixQuadsSameView(c, d, f, z);
      LayerQuadsSameView(c, d, f, z, c.height);
      assert c.height == d.height;
      assert PrefixQuads(d, f, k) == PrefixQuads(d, f, z) + LayerQuads(d, f, z, d.height);
    }
  }

  /** The mesh is a function of the chunk's cells and its neighbours' cells:
      equal state gives identical buffers. */
  lemma MeshOfSameView(c: ArrayChunk, d: ArrayChunk)
    requires c.Valid() && d.Valid() && SameView(c, d)
    ensures MeshOf(c) == MeshOf(d)
  {
    forall f: Face
      ensures FaceBuffer(c, f) == FaceBuffer(d, f)
    {
      PrefixQuadsSameView(c, d, f, c.depth);
    }
  }
}
