/** The chunk registry: it owns every chunk under its key and forwards each
    insertion and removal to the renderer. It wires no neighbours, and its
    per-frame update does nothing. */
module Manager {
  import opened Types
  import opened Chunks
  import opened Meshing
  import opened Renderer

  /** The key of the chunk the registry starts with. */
  const Origin := ChunkKey(0, 0, 0)

  class ChunkManager {
    var allChunks: map<ChunkKey, ArrayChunk>
    const renderer: ChunkRenderer

    /** Every registered chunk has a mesh. */
    ghost predicate Valid()
      reads this, renderer
    {
      allChunks.Keys <= renderer.meshes.Keys
    }

    /** The renderer holds meshes for the registered chunks and for nothing else. */
    ghost predicate Synced()
      reads this, renderer
    {
      allChunks.Keys == renderer.meshes.Keys
    }

    /** Registers `initial` (the generated 50/50 grass chunk) at the origin. */
    constructor (cr: ChunkRenderer, initial: ArrayChunk)
      requires initial.Valid()
      modifies cr
      ensures renderer == cr && Valid()
      ensures allChunks == map[Origin := initial]
      ensures cr.meshes == old(cr.meshes)[Origin := MeshOf(initial)]
      ensures cr.log == old(cr.log) + [Inserted(Origin)]
      ensures old(cr.meshes) == map[] ==> Synced()
    {
      renderer := cr;
      allChunks := map[];
      new;
      InsertChunk(Origin, initial);
    }

    /** `unordered_map::insert` keeps an existing entry, yet the renderer is told
        about `ptr` in every case, so on a taken key the mesh is built from `ptr`
        while the registry still holds the earlier chunk. */
    method InsertChunk(key: ChunkKey, ptr: ArrayChunk)
      requires Valid() && ptr.Valid()
      modifies this, renderer
      ensures Valid()
      ensures key in old(allChunks) ==> allChunks == old(allChunks)
      ensures key !in old(allChunks) ==> allChunks == old(allChunks)[key := ptr]
      ensures renderer.meshes == old(renderer.meshes)[key := MeshOf(ptr)]
      ensures renderer.log == old(renderer.log) + [Inserted(key)]
      ensures old(Synced()) ==> Synced()
    {
      if key !in allChunks {
        allChunks := allChunks[key := ptr];
      }
      renderer.OnChunkInsertion(key, ptr);
    }

    /** Erases a registered key and tells the renderer; an unknown key is ignored. */
    method RemoveChunk(key: ChunkKey)
      requires Valid()
      modifies this, renderer
      ensures Valid()
      ensures allChunks == old(allChunks) - {key}
      ensures key in old(allChunks) ==> renderer.meshes == old(renderer.meshes) - {key}
      ensures key in old(allChunks) ==> renderer.log == old(renderer.log) + [Removed(key)]
      ensures key !in old(allChunks) ==> unchanged(this, renderer)
      ensures old(Synced()) ==> Synced()
    {
      if key in allChunks {
        allChunks := allChunks - {key};
        renderer.OnChunkRemoval(key);
      }
    }

    /** The per-frame update has an empty body: nothing changes. */
    method Update()
      requires Valid()
      ensures Valid() && unchanged(this, renderer)
    {
    }
  }
}
