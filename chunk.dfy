/** A chunk: a fixed W x H x D grid of block values in one flat array, a dirty
    flag, and six non-owning references to the chunks across its faces. The
    storage strategy (`array_chunk`) and the protocol around it (`chunk_base`)
    form one class here. */
module Chunks {
  import opened Types

  datatype Option<T> = None | Some(value: T)

  function Objects<T>(o: Option<T>): set<T>
  {
    match o
    case None => {}
    case Some(v) => {v}
  }

  /** `a * b`, spelled out by recursion so that the index arithmetic below stays
      linear for the solver except where `TimesIsMul` is invoked. */
  function Times(a: nat, b: nat): nat
  {
    if b == 0 then 0 else Times(a, b - 1) + a
  }

  lemma {:induction false} TimesIsMul(a: nat, b: nat)
    ensures Times(a, b) == a * b
  {
    if b > 0 {
      TimesIsMul(a, b - 1);
    }
  }

  /** The number of cells of a `W x H x D` chunk. */
  function Volume(w: nat, h: nat, d: nat): (r: nat)
    ensures r == w * h * d
  {
    TimesIsMul(w, h);
    TimesIsMul(w * h, d);
    Times(Times(w, h), d)
  }

  /** The flat index as the storage computes it: `x + H*y + H*D*z`. */
  function FlatIndex(w: nat, h: nat, d: nat, x: nat, y: nat, z: nat): (r: nat)
    ensures r == x + h * y + h * d * z
  {
    TimesIsMul(h, y);
    TimesIsMul(h, d);
    TimesIsMul(h * d, z);
    x + Times(h, y) + Times(Times(h, d), z)
  }

  /** The row-major index the storage evidently intends: `x + W*y + W*H*z`. */
  function IntendedIndex(w: nat, h: nat, d: nat, x: nat, y: nat, z: nat): nat
  {
    x + Times(w, y) + Times(Times(w, h), z)
  }

  lemma MulMonotone(n: nat, p: nat, q: nat)
    requires p <= q
    ensures n * p <= n * q
  {
  }

  /** `a + n*b` with `a < n` and `b < m` stays below `n*m`. */
  lemma MixedRadixBound(n: nat, m: nat, a: nat, b: nat)
    requires a < n && b < m
    ensures a + n * b < n * m
  {
    MulMonotone(n, b + 1, m);
  }

  /** `a + n*b` with `a < n` determines `a` and `b`. */
  lemma MixedRadixUnique(n: nat, a: nat, b: nat, a': nat, b': nat)
    requires a < n && a' < n && a + n * b == a' + n * b'
    ensures a == a' && b == b'
  {
    if b < b' {
      MulMonotone(n, b + 1, b');
      assert false;
    } else if b' < b {
      MulMonotone(n, b' + 1, b);
      assert false;
    }
  }

  /** The intended index of an in-range cell lies inside the `W*H*D` storage. */
  lemma IntendedIndexInBounds(w: nat, h: nat, d: nat, x: nat, y: nat, z: nat)
    requires x < w && y < h && z < d
    ensures IntendedIndex(w, h, d, x, y, z) < Volume(w, h, d)
  {
    TimesIsMul(w, y);
    TimesIsMul(w, h);
    TimesIsMul(w * h, z);
    TimesIsMul(w * h, d);
    MixedRadixBound(w, h, x, y);
    MixedRadixBound(w * h, d, x + w * y, z);
  }

  /** Distinct in-range cells have distinct intended indices. */
  lemma IntendedIndexInjective(w: nat, h: nat, d: nat, x: nat, y: nat, z: nat,
                               x': nat, y': nat, z': nat)
    requires x < w && y < h && z < d && x' < w && y' < h && z' < d
    requires IntendedIndex(w, h, d, x, y, z) == IntendedIndex(w, h, d, x', y', z')
    ensures x == x' && y == y' && z == z'
  {
    TimesIsMul(w, y);
    TimesIsMul(w, y');
    TimesIsMul(w, h);
    TimesIsMul(w * h, z);
    TimesIsMul(w * h, z');
    MixedRadixBound(w, h, x, y);
    MixedRadixBound(w, h, x', y');
    MixedRadixUnique(w * h, x + w * y, z, x' + w * y', z');
    MixedRadixUnique(w, x, y, x', y');
  }

  /** On a cube the written index is the intended one. */
  lemma FlatIndexOnCubes(n: nat, x: nat, y: nat, z: nat)
    ensures FlatIndex(n, n, n, x, y, z) == IntendedIndex(n, n, n, x, y, z)
  {
  }

  /** At the engine's 16 x 128 x 16 extents the written index overruns the
      storage at the far corner, and two distinct cells share a slot. */
  lemma FlatIndexOverrunsAtEngineExtents()
    ensures FlatIndex(ChunkWidth, ChunkHeight, ChunkDepth, 15, 127, 15)
            >= Volume(ChunkWidth, ChunkHeight, ChunkDepth)
    ensures FlatIndex(ChunkWidth, ChunkHeight, ChunkDepth, 0, 16, 0)
            == FlatIndex(ChunkWidth, ChunkHeight, ChunkDepth, 0, 0, 1)
  {
    TimesIsMul(ChunkHeight, 127);
    TimesIsMul(ChunkHeight, 16);
    TimesIsMul(ChunkHeight, ChunkDepth);
    TimesIsMul(ChunkHeight * ChunkDepth, 15);
    TimesIsMul(ChunkHeight * ChunkDepth, 1);
    TimesIsMul(ChunkWidth, ChunkHeight);
    TimesIsMul(ChunkWidth * ChunkHeight, ChunkDepth);
  }

  /** A coordinate one step outside `[0, n)` wrapped around to the other end. */
  function Wrap(v: int, n: nat): (r: nat)
    requires -1 <= v <= n && n > 0
    ensures r < n
    ensures 0 <= v < n ==> r == v
  {
    if v < 0 then n - 1 else if v == n then 0 else v
  }

  class ArrayChunk {
    const width: LocalSize
    const height: LocalSize
    const depth: LocalSize
    const data: array<BlockType>
    var dirty: bool
    var front: Option<ArrayChunk>
    var back: Option<ArrayChunk>
    var left: Option<ArrayChunk>
    var right: Option<ArrayChunk>
    var top: Option<ArrayChunk>
    var bottom: Option<ArrayChunk>

    /** The storage holds `volume = W*H*D` cells. */
    predicate Shaped()
    {
      data.Length == Volume(width, height, depth)
    }

    predicate InRange(x: nat, y: nat, z: nat)
    {
      x < width && y < height && z < depth
    }

    predicate SameShape(n: ArrayChunk)
    {
      n.width == width && n.height == height && n.depth == depth && n.data.Length == data.Length
    }

    function Neighbor(f: Face): Option<ArrayChunk>
      reads this
    {
      match f
      case Front => front
      case Back => back
      case Left => left
      case Right => right
      case Top => top
      case Bottom => bottom
    }

    function Neighbors(): set<ArrayChunk>
      reads this
    {
      Objects(front) + Objects(back) + Objects(left) + Objects(right) + Objects(top) + Objects(bottom)
    }

    /** Everything a visibility query reads: this chunk, its cells and its neighbours' cells. */
    function Footprint(): set<object>
      reads this
    {
      {this, data} + set n | n in Neighbors() :: n.data
    }

    /** Neighbours are chunks of the same template instance, hence of the same extents. */
    ghost predicate Valid()
      reads this
    {
      Shaped() && forall n :: n in Neighbors() ==> SameShape(n)
    }

    /** A default-constructed chunk: all air, clean, with no neighbours. */
    constructor (w: LocalSize, h: LocalSize, d: LocalSize)
      ensures width == w && height == h && depth == d
      ensures Valid() && fresh(data) && !dirty
      ensures forall f :: Neighbor(f) == None
      ensures forall i :: 0 <= i < data.Length ==> data[i] == Air
    {
      width, height, depth := w, h, d;
      data := new BlockType[Volume(w, h, d)](_ => Air);
      dirty := false;
      front, back, left, right, top, bottom := None, None, None, None, None, None;
    }

    /** The slot of a cell: the row-major index, which agrees with the written
        one wherever the written one is sound (`FlatIndexOnCubes`). */
    function Index(x: nat, y: nat, z: nat): nat
    {
      IntendedIndex(width, height, depth, x, y, z)
    }

    /** The slot of an in-range cell lies inside the storage ... */
    lemma IndexInBounds(x: nat, y: nat, z: nat)
      requires Shaped() && InRange(x, y, z)
      ensures Index(x, y, z) < data.Length
    {
      IntendedIndexInBounds(width, height, depth, x, y, z);
    }

    /** ... and no two in-range cells share one. */
    lemma IndexInjective(x: nat, y: nat, z: nat, a: nat, b: nat, c: nat)
      requires InRange(x, y, z) && InRange(a, b, c)
      requires Index(a, b, c) == Index(x, y, z)
      ensures a == x && b == y && c == z
    {
      IntendedIndexInjective(width, height, depth, a, b, c, x, y, z);
    }

    /** The block of an in-range cell: the one held in its own storage slot,
        which lies inside the array. */
    function Get(x: nat, y: nat, z: nat): (r: BlockType)
      requires Shaped() && InRange(x, y, z)
      reads data
      ensures Index(x, y, z) < data.Length && r == data[Index(x, y, z)]
    {
      IndexInBounds(x, y, z);
      data[Index(x, y, z)]
    }

    function IsSolid(x: nat, y: nat, z: nat): (r: bool)
      requires Shaped() && InRange(x, y, z)
      reads data
      ensures r <==> Get(x, y, z) != Air
    {
      IndexInBounds(x, y, z);
      data[Index(x, y, z)] != Air
    }

    /** The neighbour lookup of a boundary face: an absent neighbour leaves the face exposed. */
    static function CheckNeighbor(ptr: Option<ArrayChunk>, x: nat, y: nat, z: nat): (r: bool)
      requires ptr.Some? ==> ptr.value.Shaped() && ptr.value.InRange(x, y, z)
      reads if ptr.Some? then {ptr.value.data} else {}
      ensures ptr.None? ==> r
    {
      match ptr
      case None => true
      case Some(n) => !n.IsSolid(x, y, z)
    }

    function FaceVisible(f: Face, x: nat, y: nat, z: nat): (r: bool)
      requires Valid() && InRange(x, y, z)
      reads this, Footprint()
      ensures r ==> IsSolid(x, y, z)
    {
      if !IsSolid(x, y, z) then false
      else match f
        case Front =>
          if z == 0 then CheckNeighbor(front, x, y, depth - 1) else !IsSolid(x, y, z - 1)
        case Back =>
          if z == depth - 1 then CheckNeighbor(back, x, y, 0) else !IsSolid(x, y, z + 1)
        case Left =>
          if x == 0 then CheckNeighbor(left, width - 1, y, z) else !IsSolid(x - 1, y, z)
        case Right =>
          if x == width - 1 then CheckNeighbor(right, 0, y, z) else !IsSolid(x + 1, y, z)
        case Top =>
          if y == height - 1 then CheckNeighbor(top, x, 0, z) else !IsSolid(x, y + 1, z)
        case Bottom =>
          if y == 0 then CheckNeighbor(bottom, x, height - 1, z) else !IsSolid(x, y - 1, z)
    }

    /** Whether the unit step from `(x, y, z)` towards `f` leaves the chunk. */
    predicate Leaves(f: Face, x: nat, y: nat, z: nat)
    {
      !(0 <= x + StepX(f) < width && 0 <= y + StepY(f) < height && 0 <= z + StepZ(f) < depth)
    }

    /** An independent statement of face visibility: take one step towards `f`; if it
        stays inside the chunk, the face shows when that cell is empty; if it leaves
        the chunk, it lands in the neighbour across `f` at the coordinates wrapped
        around the extents, and the face shows when the neighbour is absent or empty
        there. Air shows no face. */
    ghost function VisibleByStep(f: Face, x: nat, y: nat, z: nat): bool
      requires Valid() && InRange(x, y, z)
      reads this, Footprint()
    {
      var tx, ty, tz := x + StepX(f), y + StepY(f), z + StepZ(f);
      IsSolid(x, y, z) &&
      if !Leaves(f, x, y, z) then !IsSolid(tx, ty, tz)
      else match Neighbor(f)
        case None => true
        case Some(n) => !n.IsSolid(Wrap(tx, width), Wrap(ty, height), Wrap(tz, depth))
    }

    /** At the boundary, the stepped-to cell is looked up in the neighbour across `f`. */
    lemma BoundaryStep(f: Face, x: nat, y: nat, z: nat)
      requires Valid() && InRange(x, y, z) && Leaves(f, x, y, z)
      ensures var p := Neighbor(f);
              var wx, wy, wz := Wrap(x + StepX(f), width), Wrap(y + StepY(f), height), Wrap(z + StepZ(f), depth);
              && (p.Some? ==> p.value.Shaped() && p.value.InRange(wx, wy, wz))
              && VisibleByStep(f, x, y, z) == (IsSolid(x, y, z) && CheckNeighbor(p, wx, wy, wz))
    {
      assert Objects(Neighbor(f)) <= Neighbors();
      match f
      case Front =>
      case Back =>
      case Left =>
      case Right =>
      case Top =>
      case Bottom =>
    }

    lemma FaceVisibleByStep(f: Face, x: nat, y: nat, z: nat)
      requires Valid() && InRange(x, y, z)
      ensures FaceVisible(f, x, y, z) == VisibleByStep(f, x, y, z)
    {
      match f
      case Front =>
      case Back =>
      case Left =>
      case Right =>
      case Top =>
      case Bottom =>
    }

    /** Away from the boundary a face shows exactly when the adjacent cell is empty. */
    lemma InteriorFace(f: Face, x: nat, y: nat, z: nat)
      requires Valid() && InRange(x, y, z) && !Leaves(f, x, y, z)
      ensures FaceVisible(f, x, y, z)
              <==> IsSolid(x, y, z) && !IsSolid(x + StepX(f), y + StepY(f), z + StepZ(f))
    {
      FaceVisibleByStep(f, x, y, z);
    }

    /** On the boundary, with no live neighbour across it, a solid cell's face shows. */
    lemma OpenBoundaryFace(f: Face, x: nat, y: nat, z: nat)
      requires Valid() && InRange(x, y, z) && Leaves(f, x, y, z)
      requires Neighbor(f) == None
      ensures FaceVisible(f, x, y, z) <==> IsSolid(x, y, z)
    {
      FaceVisibleByStep(f, x, y, z);
    }

    /** If the right neighbour is solid at `(0, y, z)`, the right face of
        `(W-1, y, z)` is hidden. */
    lemma SolidRightNeighborHides(n: ArrayChunk, y: nat, z: nat)
      requires Valid() && 0 < width && y < height && z < depth && right == Some(n)
      requires assert n in Neighbors(); n.IsSolid(0, y, z)
      ensures !FaceVisible(Right, width - 1, y, z)
    {
    }

    /** A chunk with no neighbours, solid throughout, shows exactly the faces that
        lie on its outer boundary. */
    lemma IsolatedSolidChunk(f: Face, x: nat, y: nat, z: nat)
      requires Valid() && InRange(x, y, z)
      requires Neighbors() == {}
      requires forall a: nat, b: nat, c: nat :: InRange(a, b, c) ==> IsSolid(a, b, c)
      ensures FaceVisible(f, x, y, z) <==> Leaves(f, x, y, z)
    {
      FaceVisibleByStep(f, x, y, z);
      assert Neighbor(f) == None by {
        assert Objects(Neighbor(f)) <= Neighbors();
      }
    }

    /** The flag `MarkDirty` raises and `MarkClean` lowers. */
    function IsDirty(): (r: bool)
      reads this
      ensures r <==> dirty
    {
      dirty
    }

    method MarkDirty()
      modifies this`dirty
      ensures IsDirty()
    {
      dirty := true;
    }

    method MarkClean()
      modifies this`dirty
      ensures !IsDirty()
    {
      dirty := false;
    }

    /** Replaces the reference across one face; nothing else changes. */
    method SetNeighbor(f: Face, n: Option<ArrayChunk>)
      requires Valid() && (n.Some? ==> SameShape(n.value))
      modifies this
      ensures Valid() && Neighbor(f) == n
      ensures forall g :: g != f ==> Neighbor(g) == old(Neighbor(g))
      ensures dirty == old(dirty)
    {
      match f
      case Front => front := n;
      case Back => back := n;
      case Left => left := n;
      case Right => right := n;
      case Top => top := n;
      case Bottom => bottom := n;
    }

    /** The faces whose neighbour a write at `(x, y, z)` marks dirty: per axis the
        low face when the coordinate is 0, else the high face when it is the last. */
    function TouchedFaces(x: nat, y: nat, z: nat): (r: set<Face>)
      ensures !(Left in r && Right in r) && !(Bottom in r && Top in r) && !(Front in r && Back in r)
      ensures forall f :: f in r ==> Leaves(f, x, y, z)
    {
      (if x == 0 then {Left} else if x == width - 1 then {Right} else {})
      + (if y == 0 then {Bottom} else if y == height - 1 then {Top} else {})
      + (if z == 0 then {Front} else if z == depth - 1 then {Back} else {})
    }

    /** When every extent is at least 2, the touched faces are exactly the faces
        whose visibility query at `(x, y, z)` crosses into a neighbour; an interior
        cell touches none. */
    lemma TouchedFacesAreBoundaryFaces(x: nat, y: nat, z: nat)
      requires InRange(x, y, z) && width >= 2 && height >= 2 && depth >= 2
      ensures forall f :: f in TouchedFaces(x, y, z) <==> Leaves(f, x, y, z)
    {
      forall f ensures f in TouchedFaces(x, y, z) <==> Leaves(f, x, y, z) {
        match f
        case Front =>
        case Back =>
        case Left =>
        case Right =>
        case Top =>
        case Bottom =>
      }
    }

    /** The live neighbours across the touched faces of `(x, y, z)`, axis by axis. */
    function MarkedNeighbors(x: nat, y: nat, z: nat): set<ArrayChunk>
      reads this`front, this`back, this`left, this`right, this`top, this`bottom
    {
      Objects(Across(x == 0, x == width - 1, left, right))
      + Objects(Across(y == 0, y == height - 1, bottom, top))
      + Objects(Across(z == 0, z == depth - 1, front, back))
    }

    /** A neighbour is marked exactly when it is live across a touched face. */
    lemma MarkedNeighborsAcrossTouchedFaces(x: nat, y: nat, z: nat, n: ArrayChunk)
      ensures n in MarkedNeighbors(x, y, z)
              <==> exists f :: f in TouchedFaces(x, y, z) && Neighbor(f) == Some(n)
    {
      if n in MarkedNeighbors(x, y, z) {
        if x == 0 && left == Some(n) {
          assert Left in TouchedFaces(x, y, z) && Neighbor(Left) == Some(n);
        } else if x != 0 && x == width - 1 && right == Some(n) {
          assert Right in TouchedFaces(x, y, z) && Neighbor(Right) == Some(n);
        } else if y == 0 && bottom == Some(n) {
          assert Bottom in TouchedFaces(x, y, z) && Neighbor(Bottom) == Some(n);
        } else if y != 0 && y == height - 1 && top == Some(n) {
          assert Top in TouchedFaces(x, y, z) && Neighbor(Top) == Some(n);
        } else if z == 0 && front == Some(n) {
          assert Front in TouchedFaces(x, y, z) && Neighbor(Front) == Some(n);
        } else {
          assert Back in TouchedFaces(x, y, z) && Neighbor(Back) == Some(n);
        }
      }
    }

    /** The neighbour marked on one axis: the low one when the coordinate is 0,
        otherwise the high one when the coordinate is the last. */
    static function Across(atLow: bool, atHigh: bool, low: Option<ArrayChunk>, high: Option<ArrayChunk>): Option<ArrayChunk>
    {
      if atLow then low else if atHigh then high else None
    }

    static method MarkNeighborDirty(ptr: Option<ArrayChunk>)
      modifies Objects(ptr)`dirty
      ensures ptr.Some? ==> ptr.value.dirty
    {
      match ptr
      case None =>
      case Some(n) => n.MarkDirty();
    }

    /** The storage write: stores `t` and marks the chunk dirty only when the cell
        held something else; a write never clears `dirty`. */
    method SetImpl(x: nat, y: nat, z: nat, t: BlockType)
      requires Shaped() && InRange(x, y, z)
      modifies this`dirty, data
      ensures Index(x, y, z) < data.Length
      ensures data[..] == old(data[..])[Index(x, y, z) := t]
      ensures dirty == (old(dirty) || old(data[Index(x, y, z)]) != t)
      ensures Get(x, y, z) == t
      ensures forall a: nat, b: nat, c: nat :: InRange(a, b, c) && (a, b, c) != (x, y, z)
                ==> Get(a, b, c) == old(Get(a, b, c))
    {
      IndexInBounds(x, y, z);
      var i := Index(x, y, z);
      if data[i] != t {
        data[i] := t;
        MarkDirty();
      }
      forall a: nat, b: nat, c: nat | InRange(a, b, c) && (a, b, c) != (x, y, z)
        ensures Get(a, b, c) == old(Get(a, b, c))
      {
        IndexInBounds(a, b, c);
        if Index(a, b, c) == Index(x, y, z) {
          IndexInjective(x, y, z, a, b, c);
        }
      }
    }

    /** Marks dirty the live neighbour across each touched face of `(x, y, z)`:
        on each axis the low face when the coordinate is 0, otherwise the high
        face when it is the last one. */
    method MarkTouchedNeighbors(x: nat, y: nat, z: nat)
      modifies Neighbors()`dirty
      ensures forall n :: n in old(Neighbors()) ==> n.dirty == (old(n.dirty) || n in MarkedNeighbors(x, y, z))
    {
      var acrossX := Across(x == 0, x == width - 1, left, right);
      var acrossY := Across(y == 0, y == height - 1, bottom, top);
      var acrossZ := Across(z == 0, z == depth - 1, front, back);
      MarkAllDirty(acrossX, acrossY, acrossZ);
    }

    /** Marks dirty each of up to three chunks. */
    static method MarkAllDirty(p: Option<ArrayChunk>, q: Option<ArrayChunk>, r: Option<ArrayChunk>)
      modifies Objects(p)`dirty, Objects(q)`dirty, Objects(r)`dirty
      ensures forall n :: n in Objects(p) + Objects(q) + Objects(r) ==> n.dirty
    {
      MarkNeighborDirty(p);
      MarkNeighborDirty(q);
      MarkNeighborDirty(r);
    }

    /** The second half of a write: when the chunk is dirty, the live neighbours
        across the touched faces of `(x, y, z)` become dirty too. */
    method MarkNeighborsIfDirty(x: nat, y: nat, z: nat)
      modifies Neighbors()`dirty
      ensures dirty == old(dirty)
      ensures forall n :: n in old(Neighbors()) && n != this
                ==> n.dirty == (old(n.dirty) || (dirty && n in MarkedNeighbors(x, y, z)))
    {
      if dirty {
        MarkTouchedNeighbors(x, y, z);
      }
    }

    /** Writes a cell; if the chunk is dirty afterwards, marks dirty the live
        neighbour across each touched face. */
    method Set(x: nat, y: nat, z: nat, t: BlockType)
      requires Valid() && InRange(x, y, z)
      modifies this`dirty, data, Neighbors()`dirty
      ensures Valid()
      ensures Get(x, y, z) == t
      ensures forall a: nat, b: nat, c: nat :: InRange(a, b, c) && (a, b, c) != (x, y, z)
                ==> Get(a, b, c) == old(Get(a, b, c))
      ensures dirty == (old(dirty) || old(Get(x, y, z)) != t)
      ensures unchanged(this`front, this`back, this`left, this`right, this`top, this`bottom)
      ensures forall n :: n in old(Neighbors()) && n != this
                ==> n.dirty == (old(n.dirty) || (dirty && n in MarkedNeighbors(x, y, z)))
    {
      IndexInBounds(x, y, z);
      SetImpl(x, y, z, t);
      MarkNeighborsIfDirty(x, y, z);
    }
  }
}
