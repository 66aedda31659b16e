/** src/terrain_generator.rs: the older terrain streamer. Chunks of 256 m
    are registered by id with their integer chunk coordinate, meshed by
    background tasks (modelled as a list of pending tasks), spawned as
    entities placed at the chunk's corner, and pruned once the player's
    chunk window moves away. */
module TerrainGenerator {
  import opened Common
  import opened ChunkMath
  import opened TerrainMesh

  /** Side of a chunk in metres. */
  const TERRAIN_CHUNK_SIZE: real := 256.0
  /** Chunks kept on each side of the player's chunk. */
  const RENDER_DISTANCE_CHUNKS: nat := 5

  /** A pending GenerateChunkMeshTask: the chunk id and the corner position
      it will hand back together with the mesh. */
  datatype ChunkTask = ChunkTask(id: nat, chunkPosition: Vec2)

  /** A spawned chunk entity: its TerrainChunk id and the (x, z) part of its
      transform's translation. */
  datatype ChunkEntity = ChunkEntity(id: nat, translation: Vec2)

  /** The chunk a world position lies in, per axis
      `floor((p + 128) / 256)`. */
  function ChunkOf(p: Vec2): ChunkPos {
    ChunkPos(ChunkCoord(p.x, TERRAIN_CHUNK_SIZE), ChunkCoord(p.y, TERRAIN_CHUNK_SIZE))
  }

  /** The corner a chunk is placed at: `chunk * 256 - 128` per axis. */
  function Corner(c: ChunkPos): Vec2 {
    Vec2(ChunkCorner(c.x, TERRAIN_CHUNK_SIZE), ChunkCorner(c.y, TERRAIN_CHUNK_SIZE))
  }

  /** A chunk placed at its corner is recovered as the same chunk. */
  lemma CornerRecovered(c: ChunkPos)
    ensures ChunkOf(Corner(c)) == c
  {
    CornerRoundTrip(c.x, TERRAIN_CHUNK_SIZE);
    CornerRoundTrip(c.y, TERRAIN_CHUNK_SIZE);
  }

  /** The retain closure of remove_unused_terrain: false when either
      coordinate is farther than the render distance from the player's chunk. */
  function KeepChunk(pos: ChunkPos, pc: ChunkPos): (keep: bool)
    ensures keep <==> InClosedWindow(pos, pc, RENDER_DISTANCE_CHUNKS)
  {
    if pos.x < pc.x - RENDER_DISTANCE_CHUNKS || pos.x > pc.x + RENDER_DISTANCE_CHUNKS then false
    else if pos.y < pc.y - RENDER_DISTANCE_CHUNKS || pos.y > pc.y + RENDER_DISTANCE_CHUNKS then false
    else true
  }

  /** No two registered ids share a chunk coordinate. */
  ghost predicate PositionsDistinct(m: map<nat, ChunkPos>) {
    forall a, b | a in m && b in m && a != b :: m[a] != m[b]
  }

  /** What generate_terrain keeps true of the resource and the world:
      every id in use is below the counter, positions are distinct, and a
      task or entity whose id is still registered sits at that chunk's
      corner. */
  ghost predicate Consistent(idc: nat, pos: map<nat, ChunkPos>, ts: seq<ChunkTask>, es: seq<ChunkEntity>) {
    && (forall id | id in pos :: id < idc)
    && (forall t | t in ts :: t.id < idc)
    && (forall e | e in es :: e.id < idc)
    && PositionsDistinct(pos)
    && (forall t | t in ts && t.id in pos :: t.chunkPosition == Corner(pos[t.id]))
    && (forall e | e in es && e.id in pos :: ChunkOf(e.translation) == pos[e.id])
  }

  /** The registrations one generate_terrain call adds between counter values
      `c0` and `c`: the old entries untouched, ids `c0 .. c-1` fresh, each at
      a chunk of the generation window, with its task queued in id order. */
  ghost predicate Grown(c0: nat, m0: map<nat, ChunkPos>, t0: seq<ChunkTask>, pc: ChunkPos,
                        c: nat, m: map<nat, ChunkPos>, t: seq<ChunkTask>)
  {
    && c0 <= c
    && |t| == |t0| + (c - c0)
    && t[..|t0|] == t0
    && (forall id | id in m0 :: id in m && m[id] == m0[id])
    && (forall id | id in m :: id in m0 || c0 <= id < c)
    && (forall id | c0 <= id < c ::
          && id in m && id !in m0
          && InGenerationWindow(m[id], pc, RENDER_DISTANCE_CHUNKS)
          && t[|t0| + (id - c0)] == ChunkTask(id, Corner(m[id])))
  }

  /** One iteration of the window loop keeps Grown: either the position was
      loaded and nothing changes, or it is registered under the counter. */
  lemma GrownStep(c0: nat, m0: map<nat, ChunkPos>, t0: seq<ChunkTask>, pc: ChunkPos,
                  c1: nat, m1: map<nat, ChunkPos>, t1: seq<ChunkTask>, chunk: ChunkPos)
    requires Grown(c0, m0, t0, pc, c1, m1, t1)
    requires InGenerationWindow(chunk, pc, RENDER_DISTANCE_CHUNKS)
    requires c1 !in m1
    ensures Grown(c0, m0, t0, pc, c1 + 1, m1[c1 := chunk], t1 + [ChunkTask(c1, Corner(chunk))])
  {
    var m2, t2 := m1[c1 := chunk], t1 + [ChunkTask(c1, Corner(chunk))];
    assert t2[..|t0|] == t1[..|t0|];
    forall id | c0 <= id < c1 + 1
      ensures t2[|t0| + (id - c0)] == ChunkTask(id, Corner(m2[id]))
    {
      if id < c1 {
        assert t2[|t0| + (id - c0)] == t1[|t0| + (id - c0)];
      }
    }
  }

  /** Registering a position that is not loaded keeps positions distinct. */
  lemma InsertKeepsDistinct(m: map<nat, ChunkPos>, id: nat, chunk: ChunkPos)
    requires PositionsDistinct(m) && chunk !in m.Values
    ensures PositionsDistinct(m[id := chunk])
  {
    var m2 := m[id := chunk];
    forall a, b | a in m2 && b in m2 && a != b ensures m2[a] != m2[b] {
      if a == id {
        assert m2[b] == m[b] && m[b] in m.Values;
      } else if b == id {
        assert m2[a] == m[a] && m[a] in m.Values;
      }
    }
  }

  /** Some registered id holds chunk `p` (`loaded_chunks_pos.values().any`). */
  predicate Loaded(m: map<nat, ChunkPos>, p: ChunkPos) {
    p in m.Values
  }

  /** Entries kept unchanged keep their positions loaded. */
  lemma LoadedMono(m1: map<nat, ChunkPos>, m2: map<nat, ChunkPos>)
    requires forall id | id in m1 :: id in m2 && m2[id] == m1[id]
    ensures forall p :: Loaded(m1, p) ==> Loaded(m2, p)
  {
    forall p | Loaded(m1, p) ensures Loaded(m2, p) {
      var id :| id in m1 && m1[id] == p;
      assert m2[id] == p;
    }
  }

  /** A generate_terrain call keeps the resource consistent. */
  lemma GrownKeepsConsistent(c0: nat, m0: map<nat, ChunkPos>, t0: seq<ChunkTask>, es: seq<ChunkEntity>, pc: ChunkPos,
                             c: nat, m: map<nat, ChunkPos>, t: seq<ChunkTask>)
    requires Consistent(c0, m0, t0, es) && Grown(c0, m0, t0, pc, c, m, t) && PositionsDistinct(m)
    ensures Consistent(c, m, t, es)
  {
    forall x | x in t ensures x.id < c && (x.id in m ==> x.chunkPosition == Corner(m[x.id])) {
      var k :| 0 <= k < |t| && t[k] == x;
      if k < |t0| {
        assert t[..|t0|][k] == t0[k];
      } else {
        var id := c0 + (k - |t0|);
        assert t[|t0| + (id - c0)] == ChunkTask(id, Corner(m[id]));
      }
    }
  }

  /** The window loop of generate_terrain, on the values it reads and writes:
      every chunk coordinate of the half-open square `[pc - 5, pc + 5)²` that no
      registered id holds is registered under the next id and queued. */
  method GeneratePass(c0: nat, m0: map<nat, ChunkPos>, t0: seq<ChunkTask>, pc: ChunkPos)
    returns (c: nat, m: map<nat, ChunkPos>, t: seq<ChunkTask>)
    requires (forall id | id in m0 :: id < c0) && PositionsDistinct(m0)
    ensures Grown(c0, m0, t0, pc, c, m, t) && PositionsDistinct(m)
    ensures forall p :: InGenerationWindow(p, pc, RENDER_DISTANCE_CHUNKS) ==> Loaded(m, p)
  {
    c, m, t := c0, m0, t0;
    var x := pc.x - RENDER_DISTANCE_CHUNKS;
    while x < pc.x + RENDER_DISTANCE_CHUNKS
      invariant pc.x - RENDER_DISTANCE_CHUNKS <= x <= pc.x + RENDER_DISTANCE_CHUNKS
      invariant Grown(c0, m0, t0, pc, c, m, t) && PositionsDistinct(m)
      invariant forall p :: InGenerationWindow(p, pc, RENDER_DISTANCE_CHUNKS) && p.x < x ==> Loaded(m, p)
    {
      c, m, t := GenerateColumn(c0, m0, t0, pc, x, c, m, t);
      x := x + 1;
    }
  }

  /** Registering a chunk that is not loaded under the counter keeps Grown
      and distinct positions, and loads the chunk. */
  lemma RegisterStep(c0: nat, m0: map<nat, ChunkPos>, t0: seq<ChunkTask>, pc: ChunkPos,
                     c: nat, m: map<nat, ChunkPos>, t: seq<ChunkTask>, chunk: ChunkPos)
    requires (forall id | id in m0 :: id < c0) && Grown(c0, m0, t0, pc, c, m, t) && PositionsDistinct(m)
    requires InGenerationWindow(chunk, pc, RENDER_DISTANCE_CHUNKS) && !Loaded(m, chunk)
    ensures Grown(c0, m0, t0, pc, c + 1, m[c := chunk], t + [ChunkTask(c, Corner(chunk))])
    ensures PositionsDistinct(m[c := chunk])
    ensures forall p :: Loaded(m, p) ==> Loaded(m[c := chunk], p)
    ensures Loaded(m[c := chunk], chunk)
  {
    assert c !in m;
    GrownStep(c0, m0, t0, pc, c, m, t, chunk);
    InsertKeepsDistinct(m, c, chunk);
    LoadedMono(m, m[c := chunk]);
    assert m[c := chunk][c] == chunk;
  }

  /** The inner loop of generate_terrain: column `x` of the window. */
  method GenerateColumn(ghost c0: nat, ghost m0: map<nat, ChunkPos>, ghost t0: seq<ChunkTask>, pc: ChunkPos, x: int,
                        c1: nat, m1: map<nat, ChunkPos>, t1: seq<ChunkTask>)
    returns (c: nat, m: map<nat, ChunkPos>, t: seq<ChunkTask>)
    requires pc.x - RENDER_DISTANCE_CHUNKS <= x < pc.x + RENDER_DISTANCE_CHUNKS
    requires (forall id | id in m0 :: id < c0) && Grown(c0, m0, t0, pc, c1, m1, t1) && PositionsDistinct(m1)
    ensures Grown(c0, m0, t0, pc, c, m, t) && PositionsDistinct(m)
    ensures forall p :: Loaded(m1, p) ==> Loaded(m, p)
    ensures forall p :: InGenerationWindow(p, pc, RENDER_DISTANCE_CHUNKS) && p.x == x ==> Loaded(m, p)
  {
    c, m, t := c1, m1, t1;
    var y := pc.y - RENDER_DISTANCE_CHUNKS;
    while y < pc.y + RENDER_DISTANCE_CHUNKS
      invariant pc.y - RENDER_DISTANCE_CHUNKS <= y <= pc.y + RENDER_DISTANCE_CHUNKS
      invariant Grown(c0, m0, t0, pc, c, m, t) && PositionsDistinct(m)
      invariant forall p :: Loaded(m1, p) ==> Loaded(m, p)
      invariant forall p :: InGenerationWindow(p, pc, RENDER_DISTANCE_CHUNKS) && p.x == x && p.y < y ==> Loaded(m, p)
    {
      var chunk := ChunkPos(x, y);
      if !Loaded(m, chunk) {
        RegisterStep(c0, m0, t0, pc, c, m, t, chunk);
        m, t := m[c := chunk], t + [ChunkTask(c, Corner(chunk))];
        c := c + 1;
      }
      y := y + 1;
    }
  }

  /** The chunk entity a finished task spawns. */
  function EntityOf(t: ChunkTask): ChunkEntity {
    ChunkEntity(t.id, t.chunkPosition)
  }

  /** Tasks still running after one poll, in order. */
  function Unfinished(ts: seq<ChunkTask>, rs: seq<Option<Handle>>): seq<ChunkTask>
    requires |ts| == |rs|
    decreases |ts|
  {
    if ts == [] then []
    else
      var n := |ts| - 1;
      Unfinished(ts[..n], rs[..n]) + (if rs[n].None? then [ts[n]] else [])
  }

  /** The entities one poll spawns, in task order. */
  function Finished(ts: seq<ChunkTask>, rs: seq<Option<Handle>>): seq<ChunkEntity>
    requires |ts| == |rs|
    decreases |ts|
  {
    if ts == [] then []
    else
      var n := |ts| - 1;
      Finished(ts[..n], rs[..n]) + (if rs[n].Some? then [EntityOf(ts[n])] else [])
  }

  /** The mesh handles after one poll: each finished task's handle stored
      under its id, in task order. */
  function WithMeshes(meshes: map<nat, Handle>, ts: seq<ChunkTask>, rs: seq<Option<Handle>>): map<nat, Handle>
    requires |ts| == |rs|
    decreases |ts|
  {
    if ts == [] then meshes
    else
      var n := |ts| - 1;
      var before := WithMeshes(meshes, ts[..n], rs[..n]);
      if rs[n].Some? then before[ts[n].id := rs[n].value] else before
  }

  /** Every task either finishes or stays pending, and each outcome comes
      from a task in the list. */
  lemma {:induction false} PollPartition(ts: seq<ChunkTask>, rs: seq<Option<Handle>>)
    requires |ts| == |rs|
    ensures |Finished(ts, rs)| + |Unfinished(ts, rs)| == |ts|
    ensures forall t | t in Unfinished(ts, rs) :: t in ts
    ensures forall e | e in Finished(ts, rs) :: ChunkTask(e.id, e.translation) in ts
    decreases |ts|
  {
    if ts != [] {
      var n := |ts| - 1;
      PollPartition(ts[..n], rs[..n]);
      assert forall t | t in ts[..n] :: t in ts;
    }
  }

  /** After a poll, exactly the old ids and those of the spawned entities
      have a mesh handle. */
  lemma {:induction false} WithMeshesKeys(meshes: map<nat, Handle>, ts: seq<ChunkTask>, rs: seq<Option<Handle>>)
    requires |ts| == |rs|
    ensures WithMeshes(meshes, ts, rs).Keys == meshes.Keys + set e | e in Finished(ts, rs) :: e.id
    decreases |ts|
  {
    if ts != [] {
      var n := |ts| - 1;
      WithMeshesKeys(meshes, ts[..n], rs[..n]);
      var last := if rs[n].Some? then [EntityOf(ts[n])] else [];
      assert Finished(ts, rs) == Finished(ts[..n], rs[..n]) + last;
      assert (set e | e in Finished(ts, rs) :: e.id)
          == (set e | e in Finished(ts[..n], rs[..n]) :: e.id) + (set e | e in last :: e.id);
    }
  }

  /** Spawning keeps the resource consistent: a spawned entity sits where
      its task said, so it is recovered as its chunk. */
  lemma SpawnKeepsConsistent(idc: nat, pos: map<nat, ChunkPos>, ts: seq<ChunkTask>, es: seq<ChunkEntity>,
                             rs: seq<Option<Handle>>)
    requires Consistent(idc, pos, ts, es) && |rs| == |ts|
    ensures Consistent(idc, pos, Unfinished(ts, rs), es + Finished(ts, rs))
  {
    PollPartition(ts, rs);
    forall e | e in es + Finished(ts, rs)
      ensures e.id < idc && (e.id in pos ==> ChunkOf(e.translation) == pos[e.id])
    {
      if e !in es {
        var t := ChunkTask(e.id, e.translation);
        assert t in ts;
        if e.id in pos {
          CornerRecovered(pos[e.id]);
        }
      }
    }
  }

  /** The poll loop of spawn_generated_chunks on the values it reads and
      writes: `ready[k]` is the mesh handle task `k` yields, None while it runs. */
  method SpawnPass(ts: seq<ChunkTask>, ready: seq<Option<Handle>>, meshes0: map<nat, Handle>)
    returns (pending: seq<ChunkTask>, spawned: seq<ChunkEntity>, meshes: map<nat, Handle>)
    requires |ready| == |ts|
    ensures pending == Unfinished(ts, ready)
    ensures spawned == Finished(ts, ready)
    ensures meshes == WithMeshes(meshes0, ts, ready)
  {
    pending, spawned, meshes := [], [], meshes0;
    for i := 0 to |ts|
      invariant pending == Unfinished(ts[..i], ready[..i])
      invariant spawned == Finished(ts[..i], ready[..i])
      invariant meshes == WithMeshes(meshes0, ts[..i], ready[..i])
    {
      assert ts[..i + 1][..i] == ts[..i] && ready[..i + 1][..i] == ready[..i];
      match ready[i]
      case Some(handle) =>
        spawned := spawned + [EntityOf(ts[i])];
        meshes := meshes[ts[i].id := handle];
      case None =>
        pending := pending + [ts[i]];
    }
    assert ts[..|ts|] == ts && ready[..|ts|] == ready;
  }

  /** The chunks the retain keeps. */
  function Retained(pos: map<nat, ChunkPos>, pc: ChunkPos): map<nat, ChunkPos> {
    map id | id in pos && KeepChunk(pos[id], pc) :: pos[id]
  }

  /** The entities the despawn loop keeps: those whose recovered chunk is
      still among the registered positions. */
  function Survivors(es: seq<ChunkEntity>, loaded: set<ChunkPos>): (r: seq<ChunkEntity>)
    decreases |es|
  {
    if es == [] then []
    else
      var n := |es| - 1;
      Survivors(es[..n], loaded) + (if ChunkOf(es[n].translation) in loaded then [es[n]] else [])
  }

  /** The ids of the entities the despawn loop despawns. */
  ghost function DespawnedIds(es: seq<ChunkEntity>, loaded: set<ChunkPos>): set<nat> {
    set e | e in es && ChunkOf(e.translation) !in loaded :: e.id
  }

  /** An entity survives iff its recovered chunk is still loaded, and the
      survivors are a sub-multiset of the entities. */
  lemma {:induction false} SurvivorsExact(es: seq<ChunkEntity>, loaded: set<ChunkPos>)
    ensures forall e :: e in Survivors(es, loaded) <==> e in es && ChunkOf(e.translation) in loaded
    ensures multiset(Survivors(es, loaded)) <= multiset(es)
    decreases |es|
  {
    if es != [] {
      var n := |es| - 1;
      SurvivorsExact(es[..n], loaded);
      assert es == es[..n] + [es[n]];
    }
  }

  /** The despawn loop of remove_unused_terrain on the values it reads and
      writes. */
  method DespawnPass(es: seq<ChunkEntity>, loaded: set<ChunkPos>, meshes0: map<nat, Handle>)
    returns (kept: seq<ChunkEntity>, meshes: map<nat, Handle>)
    ensures kept == Survivors(es, loaded)
    ensures meshes == meshes0 - DespawnedIds(es, loaded)
  {
    kept, meshes := [], meshes0;
    for i := 0 to |es|
      invariant kept == Survivors(es[..i], loaded)
      invariant meshes == meshes0 - DespawnedIds(es[..i], loaded)
    {
      assert es[..i + 1][..i] == es[..i];
      assert es[..i + 1] == es[..i] + [es[i]];
      if ChunkOf(es[i].translation) in loaded {
        kept := kept + [es[i]];
        assert DespawnedIds(es[..i + 1], loaded) == DespawnedIds(es[..i], loaded);
      } else {
        meshes := meshes - {es[i].id};
        assert DespawnedIds(es[..i + 1], loaded) == DespawnedIds(es[..i], loaded) + {es[i].id};
      }
    }
    assert es[..|es|] == es;
  }

  /** Retaining and despawning keep the resource consistent. */
  lemma RemoveKeepsConsistent(idc: nat, pos: map<nat, ChunkPos>, ts: seq<ChunkTask>, es: seq<ChunkEntity>, pc: ChunkPos)
    requires Consistent(idc, pos, ts, es)
    ensures Consistent(idc, Retained(pos, pc), ts, Survivors(es, Retained(pos, pc).Values))
  {
    SurvivorsExact(es, Retained(pos, pc).Values);
  }

  /** A registered entity whose id survives the retain is never despawned:
      it sits at its own chunk's corner, and that chunk is still loaded. */
  lemma KeptIdKeepsEntity(idc: nat, pos: map<nat, ChunkPos>, ts: seq<ChunkTask>, es: seq<ChunkEntity>,
                          pc: ChunkPos, e: ChunkEntity)
    requires Consistent(idc, pos, ts, es) && e in es && e.id in Retained(pos, pc)
    ensures e in Survivors(es, Retained(pos, pc).Values)
  {
    var r := Retained(pos, pc);
    assert r[e.id] == ChunkOf(e.translation);
    assert ChunkOf(e.translation) in r.Values;
    SurvivorsExact(es, r.Values);
  }

  /** The terrain resource together with the world state its systems touch. */
  class Terrain {
    var idCounter: nat
    var loadedChunksPos: map<nat, ChunkPos>
    var loadedChunksMeshes: map<nat, Handle>
    /** The GenerateChunkMeshTask components still running. */
    var tasks: seq<ChunkTask>
    /** The spawned TerrainChunk entities. */
    var chunks: seq<ChunkEntity>

    ghost predicate Valid()
      reads this
    {
      Consistent(idCounter, loadedChunksPos, tasks, chunks)
    }

    /** Terrain::default. */
    constructor()
      ensures Valid()
      ensures idCounter == 0 && loadedChunksPos == map[] && loadedChunksMeshes == map[]
      ensures tasks == [] && chunks == []
    {
      idCounter := 0;
      loadedChunksPos := map[];
      loadedChunksMeshes := map[];
      tasks := [];
      chunks := [];
    }

    /** generate_terrain: registers and queues every chunk of the player's
        half-open window that is not loaded yet. */
    method GenerateTerrain(player: Vec2)
      requires Valid()
      modifies this
      ensures Valid()
      ensures Grown(old(idCounter), old(loadedChunksPos), old(tasks), ChunkOf(player), idCounter, loadedChunksPos, tasks)
      ensures forall p :: InGenerationWindow(p, ChunkOf(player), RENDER_DISTANCE_CHUNKS) ==> Loaded(loadedChunksPos, p)
      ensures loadedChunksMeshes == old(loadedChunksMeshes) && chunks == old(chunks)
    {
      var pc := ChunkOf(player);
      var c, m, t := GeneratePass(idCounter, loadedChunksPos, tasks, pc);
      GrownKeepsConsistent(idCounter, loadedChunksPos, tasks, chunks, pc, c, m, t);
      idCounter, loadedChunksPos, tasks := c, m, t;
    }

    /** spawn_generated_chunks: every finished task becomes a chunk entity at
        its corner and records its mesh handle under its id; `ready[k]` is
        what polling task `k` yields. */
    method SpawnGeneratedChunks(ready: seq<Option<Handle>>)
      requires Valid() && |ready| == |tasks|
      modifies this
      ensures Valid()
      ensures tasks == Unfinished(old(tasks), ready)
      ensures chunks == old(chunks) + Finished(old(tasks), ready)
      ensures loadedChunksMeshes == WithMeshes(old(loadedChunksMeshes), old(tasks), ready)
      ensures idCounter == old(idCounter) && loadedChunksPos == old(loadedChunksPos)
    {
      var pending, spawned, meshes := SpawnPass(tasks, ready, loadedChunksMeshes);
      SpawnKeepsConsistent(idCounter, loadedChunksPos, tasks, chunks, ready);
      tasks, chunks, loadedChunksMeshes := pending, chunks + spawned, meshes;
    }

    /** remove_unused_terrain: keeps the positions of the player's closed
        window, then despawns every entity whose recovered chunk is no longer
        loaded and drops its mesh handle. A returned id-keyed entity is never
        despawned. */
    method RemoveUnusedTerrain(player: Vec2)
      requires Valid()
      modifies this
      ensures Valid()
      ensures loadedChunksPos == Retained(old(loadedChunksPos), ChunkOf(player))
      ensures chunks == Survivors(old(chunks), loadedChunksPos.Values)
      ensures loadedChunksMeshes == old(loadedChunksMeshes) - DespawnedIds(old(chunks), loadedChunksPos.Values)
      ensures forall e | e in old(chunks) && e.id in loadedChunksPos :: e in chunks
      ensures idCounter == old(idCounter) && tasks == old(tasks)
    {
      var pc := ChunkOf(player);
      var retained := Retained(loadedChunksPos, pc);
      var kept, meshes := DespawnPass(chunks, retained.Values, loadedChunksMeshes);
      RemoveKeepsConsistent(idCounter, loadedChunksPos, tasks, chunks, pc);
      forall e | e in chunks && e.id in retained
        ensures e in Survivors(chunks, retained.Values)
      {
        KeptIdKeepsEntity(idCounter, loadedChunksPos, tasks, chunks, pc, e);
      }
      loadedChunksPos, chunks, loadedChunksMeshes := retained, kept, meshes;
    }
  }

  /** mesh_data_from_perlin: a `w` by `h` grid of vertices one metre apart,
      with six indices per quad, every index naming one of the `w*h`
      vertices, both lists reversed. The source's
      `mesh_width - 1` underflows for an empty mesh, hence `w, h >= 1`. */
  method MeshDataFromPerlin(height: (real, real) -> real, meshWidth: nat, meshHeight: nat, offset: Vec2)
    returns (vertices: seq<Vec3>, indices: seq<nat>)
    requires meshWidth >= 1 && meshHeight >= 1
    ensures vertices == Reversed(GridRows(height, 1, offset, meshWidth, meshHeight))
    ensures indices == Reversed(IndexRows(meshWidth, meshHeight, meshHeight))
    ensures |vertices| == meshWidth * meshHeight
    ensures IsGridMesh(vertices, indices, height, 1, meshWidth, meshHeight, offset)
  {
    vertices, indices := BuildGrid(height, 1, meshWidth, meshHeight, offset);
    BuiltGridShape(height, 1, meshWidth, meshHeight, offset);
  }
}
