/** The renderer's key-to-mesh bookkeeping: one mesh per chunk key, rebuilt by
    `build_mesh` whenever the registry reports an insertion or an update, and
    dropped on a removal. What is drawn and uploaded to the GPU is not modelled;
    a mesh here is the six vertex buffers that would be uploaded. */
module Renderer {
  import opened Types
  import opened Chunks
  import opened Meshing

  /** A notification the renderer has received, in the order received. */
  datatype Notification = Inserted(key: ChunkKey) | Updated(key: ChunkKey) | Removed(key: ChunkKey)

  class ChunkRenderer {
    var meshes: map<ChunkKey, Mesh>
    /** Every notification received so far; it lets callers state how many they sent. */
    ghost var log: seq<Notification>

    constructor ()
      ensures meshes == map[] && log == []
    {
      meshes := map[];
      log := [];
    }

    /** `meshes[key]` default-constructs a missing entry, which `build_mesh` then
        overwrites with the mesh of `c`. */
    method OnChunkUpdate(key: ChunkKey, c: ArrayChunk)
      requires c.Valid()
      modifies this
      ensures meshes == old(meshes)[key := MeshOf(c)]
      ensures log == old(log) + [Updated(key)]
    {
      assert this !in c.Footprint();
      if key !in meshes {
        meshes := meshes[key := EmptyMesh];
      }
      var m := BuildMesh(c);
      meshes := meshes[key := m];
      log := log + [Updated(key)];
    }

    /** `emplace` keeps an existing entry, but `build_mesh` rebuilds whichever
        entry is there, so the key ends up with the mesh of `c` either way. */
    method OnChunkInsertion(key: ChunkKey, c: ArrayChunk)
      requires c.Valid()
      modifies this
      ensures meshes == old(meshes)[key := MeshOf(c)]
      ensures log == old(log) + [Inserted(key)]
    {
      assert this !in c.Footprint();
      if key !in meshes {
        meshes := meshes[key := EmptyMesh];
      }
      var m := BuildMesh(c);
      meshes := meshes[key := m];
      log := log + [Inserted(key)];
    }

    /** Erases the mesh of `key` if there is one; every other mesh stays. */
    method OnChunkRemoval(key: ChunkKey)
      modifies this
      ensures meshes == old(meshes) - {key}
      ensures log == old(log) + [Removed(key)]
    {
      if key in meshes {
        meshes := meshes - {key};
      }
      log := log + [Removed(key)];
    }
  }
}
