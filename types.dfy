/** The shared vocabulary of the engine: block kinds, face directions, the chunk
    and world extents and the key that names a chunk in the world grid. */
module Types {
  import Utility

  /** `std::uint_least8_t`, the type of local coordinates and extents. */
  type LocalSize = b: int | 0 <= b < 256

  /** `long long`, the type of a chunk's coordinates in the world grid. */
  type WorldSize = i: int | -0x8000_0000_0000_0000 <= i < 0x8000_0000_0000_0000

  /** The kinds of block, in the order of their enumerator values. `Count` is the
      enumeration's trailing counter; it is a value like the others. */
  datatype BlockType = Air | Grass | Dirt | Water | Stone | Count

  /** The enumerator value of a block kind (its `std::uint_least8_t` representation). */
  function Ord(t: BlockType): (r: LocalSize)
    ensures r == 0 <==> t == Air
    ensures r <= 5
  {
    match t
    case Air => 0
    case Grass => 1
    case Dirt => 2
    case Water => 3
    case Stone => 4
    case Count => 5
  }

  /** Distinct block kinds have distinct enumerator values. */
  lemma OrdInjective(s: BlockType, t: BlockType)
    requires Ord(s) == Ord(t)
    ensures s == t
  {
  }

  /** The six faces of a cube. */
  datatype Face = Front | Back | Left | Right | Top | Bottom

  /** The unit step towards each face: front is towards smaller z, back towards
      larger z, left and right along x, top and bottom along y. */
  function StepX(f: Face): int
  {
    match f
    case Left => -1
    case Right => 1
    case _ => 0
  }

  function StepY(f: Face): int
  {
    match f
    case Bottom => -1
    case Top => 1
    case _ => 0
  }

  function StepZ(f: Face): int
  {
    match f
    case Front => -1
    case Back => 1
    case _ => 0
  }

  const ChunkWidth: LocalSize := 16
  const ChunkHeight: LocalSize := 128
  const ChunkDepth: LocalSize := 16

  const HalfChunkWidth: LocalSize := ChunkWidth / 2
  const HalfChunkHeight: LocalSize := ChunkHeight / 2
  const HalfChunkDepth: LocalSize := ChunkDepth / 2

  const WorldWidth: LocalSize := 32
  const WorldHeight: LocalSize := 3
  const WorldDepth: LocalSize := 32

  /** The distance from a chunk's centre to a corner, rounded down, as a local size. */
  function ChunkDiameter(): (r: LocalSize)
    ensures r == 64
  {
    var v := HalfChunkWidth * HalfChunkWidth + HalfChunkHeight * HalfChunkHeight
             + HalfChunkDepth * HalfChunkDepth;
    Utility.IsqrtIs(v, 64);
    Utility.Isqrt(v)
  }

  /** The halves of the chunk extents are exact: every extent is even. */
  lemma HalfExtentsExact()
    ensures 2 * HalfChunkWidth == ChunkWidth
    ensures 2 * HalfChunkHeight == ChunkHeight
    ensures 2 * HalfChunkDepth == ChunkDepth
  {
  }

  /** The position of a chunk in the world grid. */
  datatype ChunkKey = ChunkKey(x: WorldSize, y: WorldSize, z: WorldSize)

  /** `chunk_hash_equal`: componentwise equality of two keys. */
  function KeysEqual(a: ChunkKey, b: ChunkKey): (r: bool)
    ensures r <==> a == b
  {
    a.x == b.x && a.y == b.y && a.z == b.z
  }

  /** Key equality is an equivalence relation. */
  lemma KeysEqualIsEquivalence(a: ChunkKey, b: ChunkKey, c: ChunkKey)
    ensures KeysEqual(a, a)
    ensures KeysEqual(a, b) ==> KeysEqual(b, a)
    ensures KeysEqual(a, b) && KeysEqual(b, c) ==> KeysEqual(a, c)
  {
  }
}
