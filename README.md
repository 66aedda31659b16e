# procedural-railroads — a Dafny model of its bookkeeping core

procedural-railroads is a Bevy game that streams procedurally generated
terrain around the player, grows a railway route across it one node at a
time, turns route nodes into track segments, and runs bogies and wagons
along the track with a simple longitudinal physics model. This project
models the engine-independent bookkeeping of that program and proves what
it promises:

- **Far-grid terrain registry** (`WorldTerrain`, from `src/world/terrain.rs`):
  - the id counter;
  - the window loop that registers each chunk of the half-open window
    `[pc - 5, pc + 5)²` around the player's chunk;
  - the `flagged` / `generating_near_chunks` life-cycle of near-grid
    generation;
  - the poll that turns finished mesh tasks into chunk entities;
  - the removal of spawned chunks outside the closed window `[pc - 5, pc + 5]²`.

  The class `WorldTerrain.Terrain` keeps an invariant, `Registry`. It says
  that every spawned far chunk has exactly one registry entry, and it is
  what makes the `unwrap` in `remove_unused_terrain` safe.
- **Older terrain streamer** (`TerrainGenerator`, from `src/terrain_generator.rs`):
  - registration by id and chunk coordinate;
  - spawning;
  - the retain-then-despawn removal, with the round trip from a chunk's
    corner back to its coordinate.
- **Grid mesh builder and smooth normals** (`TerrainMesh`), shared by both
  streamers:
  - vertex and index counts, and every index naming a vertex;
  - the reversed vertex order;
  - each normal as the normalised sum of the cross products of its incident
    triangles.
- **Chunk arithmetic** (`ChunkMath`): `floor((p + S/2) / S)`, corners, and
  the windows.
- **Railway route** (`RouteGen`, from `src/world/route_gen.rs`), and the
  unfinished road generator (`RoadGenerator`, from `src/road_generator.rs`).
  Both use the shared lowest-slope scan (`SlopeScan`). That scan is a
  first-strict-minimum selection (`Argmin`) over an integer angle range.
- **Track segments** (`TrainTracks`, from `src/world/train_tracks.rs`):
  - closest-sample search;
  - the choice of the span to interpolate in, and its lerp factor;
  - lookup by `floor(t)`;
  - placement, one segment per run, with consecutive ids;
  - the id → segment map.
- **Rolling stock** (`BogieSystems`, `WagonSystems`, `RollingStockUtils`,
  `RollingStock`, from `src/rolling_stock/`):
  - the four per-bogie systems, as loops over an array of bogie entities;
  - the wagon constraint that groups bogies by wagon and moves only the
    trailing bogie;
  - the carried-mass and attached-bogie helpers.
- **`get_closest`** (`WorldUtils`, from `src/world/utils.rs`).

Parts the model leaves opaque become function-valued parameters. These are:

- the terrain height function (noise);
- sine and cosine of the candidate directions;
- Euclidean distance;
- `asin`-based slope angles;
- `Vec3::normalize`;
- `Quat::lerp`;
- the `acos`-based heading;
- the Bezier path generator.

Background mesh tasks become a list of pending task records. One poll is
described by a vector `ready` that gives each task's mesh handle if it has
finished. HashMap iteration is modelled by an arbitrary choice (`:|`) of the
next key.

Two parts of the code disagree about a bogie's share of its wagon's mass:

- The force systems (`apply_bogie_forces`, `set_bogie_vertical_forces`)
  weigh each attached bogie with its wagon's whole mass plus its own,
  `wagon.mass + bogie.mass` (src/rolling_stock/bogie_systems.rs:56 and 85).
- `get_carried_mass` uses `wagon.mass / 2` (src/rolling_stock/utils.rs:11).

The model keeps both as written, and
`RollingStockUtils.EffectiveMassCountsWholeWagon` states the gap. The
program has no friction, stiction or tractive-force step.

## Model

| member | source | states |
|---|---|---|
| `Argmin.FirstMinBelowSpec` | src/world/utils.rs:3-13 | The running-minimum scan finds nothing exactly when every value is at or above the bound. Otherwise it finds exactly the first index of the least value, which is below the bound (ties go to the earliest). |
| `Argmin.FirstMinIsMinimal` | src/world/utils.rs:6-13 | The index the scan settles on holds a value no larger than any other value. |
| `WorldUtils.GetClosest` | src/world/utils.rs:2-21 | Returns None iff no key is within `t_max` of `t`. Otherwise it returns the first index of least distance, the element at that index, distance `< t_max`, and an overestimate flag that holds iff the key is `> t`. |
| `ChunkMath.ChunkCoord` | src/world/terrain.rs:376-377 | `c = floor((p + S/2)/S)` is the integer with `c <= p/S + 1/2 < c + 1`: `p/S` rounded to the nearest integer, halves up. |
| `ChunkMath.ChunkCoordUnique` | src/world/terrain.rs:376-377 | Any integer `c` with `c <= p/S + 1/2 < c + 1` is the chunk coordinate, so that rounding bound characterises it. |
| `ChunkMath.CornerRoundTrip` | src/terrain_generator.rs:232-234 | A chunk's corner `c*S - S/2` maps back to chunk `c`. |
| `ChunkMath.BoxPointInClosedWindow` | src/road_generator.rs:125-138 | A coordinate of the closed box `[(c-r)*S, (c+r)*S]` lies in a chunk of `[c-r, c+r]`. |
| `WorldTerrain.GetFarChunkPosition` | src/world/terrain.rs:375-380 | The chunk `c` returned satisfies `c*1000 - 500 <= p < c*1000 + 500` on both axes. |
| `WorldTerrain.FarCornerRoundTrip` | src/world/terrain.rs:202 | The world corner a far chunk's task reports maps back to that chunk. |
| `WorldTerrain.IsWithinFarRenderDistance` | src/world/terrain.rs:382-395 | True iff both coordinates lie in the closed interval `[(c-5)*1000, (c+5)*1000]`. |
| `WorldTerrain.WithinDistanceInWindow` | src/world/route_gen.rs:106-111 | A point within the far render distance lies in a chunk of the closed window that removal keeps. |
| `WorldTerrain.NearTaskGrid` | src/world/terrain.rs:257-276 | Near chunk `(x, y)` of a far chunk is task `10x + y`. It sits at `corner + (100x, 100y)`, inside the far chunk's square `[corner, corner + 1000)²`. |
| `WorldTerrain.NearTasksForAreNear` | src/world/terrain.rs:257-276 | Starting near generation on `k` chunks queues `100k` tasks, all of kind NearGrid. |
| `WorldTerrain.FlagOrigin` | src/world/terrain.rs:291-295 | The origin flag step keeps the registry's key set; only a chunk at (0,0) with no near meshes that is neither flagged nor generating is flagged. |
| `WorldTerrain.StartNear` | src/world/terrain.rs:243-255 | Starting near generation keeps the registry's key set. Each flagged chunk becomes not flagged and generating. |
| `WorldTerrain.FarTasksConserved` | src/world/terrain.rs:297-345 | Polling conserves far-grid tasks: each is either still pending or its id is spawned as a far chunk entity, exactly once (a multiset equality). |
| `WorldTerrain.CompletionKeeps` | src/world/terrain.rs:317-341 | Completions never add or remove entries or change positions. They keep the rule that no chunk is both flagged and generating. |
| `WorldTerrain.NearHandleCount` | src/world/terrain.rs:337-341 | A far chunk gains exactly one near mesh handle per finished near-grid task carrying its id. |
| `WorldTerrain.DespawnsOutsideWindow` | src/world/terrain.rs:363-364 | The removal test holds iff the chunk lies outside the closed window `[pc-5, pc+5]²`, so no chunk of the half-open generation window is removed. |
| `WorldTerrain.KeptChunksExact` | src/world/terrain.rs:361-372 | The far chunk entities kept are exactly the spawned ones whose chunk is not removed. Each keeps its multiplicity. |
| `WorldTerrain.GrownStep` | src/world/terrain.rs:199-221 | Skipping a loaded position, or loading a window position under the next fresh id with default data and one far task, keeps the growth relation of generate_far_terrain. |
| `WorldTerrain.ColumnsWindow` | src/world/terrain.rs:199-222 | Once the loop has loaded every column `x < pc.x + 5`, every chunk of the half-open window has an entry. |
| `WorldTerrain.LoadKeepsRegistry` | src/world/terrain.rs:204-221 | Loading a position not yet loaded, under the counter's id, keeps the registry invariant. |
| `WorldTerrain.FlagKeepsRegistry` | src/world/terrain.rs:291-295 | The origin flag step keeps the registry invariant. |
| `WorldTerrain.NearKeepsRegistry` | src/world/terrain.rs:241-277 | Starting near-grid generation keeps the registry invariant. |
| `WorldTerrain.SpawnKeepsRegistry` | src/world/terrain.rs:297-345 | Polling keeps the invariant. A spawned far chunk was a running far task of a loaded chunk, and stops being one. |
| `WorldTerrain.RemoveKeepsRegistry` | src/world/terrain.rs:361-372 | Removal keeps the invariant. A running far task's chunk has no entity yet, so it is never removed. |
| `WorldTerrain.WindowChunksRemain` | src/world/terrain.rs:363-370 | Every entry whose chunk lies in the closed window survives removal. |
| `WorldTerrain.Terrain.constructor` | src/world/terrain.rs:64-75 | The default resource: counter 0, empty registry, no tasks or chunk entities; the invariant holds. |
| `WorldTerrain.Terrain.GetNewChunkId` | src/world/terrain.rs:79-84 | Returns the old counter and advances it by exactly one, so ids are distinct and increasing. Nothing else changes. |
| `WorldTerrain.Terrain.LoadChunkAt` | src/world/terrain.rs:201-221 | If the position is loaded, nothing changes. Otherwise a fresh id (not yet in the map) gets default data for the position and one far task. In both cases the position ends up loaded and the invariant holds. |
| `WorldTerrain.Terrain.GenerateFarTerrain` | src/world/terrain.rs:185-224 | Keeps the invariant and only grows the registry: old entries are unchanged, and new ids are fresh window chunks with default data and their far task in id order. Afterwards every chunk of the half-open window `[pc-5, pc+5)²` is loaded. Entities are untouched. |
| `WorldTerrain.Terrain.LoadColumn` | src/world/terrain.rs:200-221 | Column `x` of the window ends up fully loaded, with old entries unchanged and the growth relation and invariant kept. |
| `WorldTerrain.Terrain.GenerateNearTerrain` | src/world/terrain.rs:227-280 | Visits the flagged chunks once each, in some map order. Each becomes not flagged and generating, and gets its hundred near tasks appended in that order. Nothing else changes. |
| `WorldTerrain.Terrain.StartNearPass` | src/world/terrain.rs:241-279 | The map loop on values: the order visited holds each flagged id exactly once; the registry becomes `StartNear`; the tasks gain `NearTasksFor(order)`. |
| `WorldTerrain.Terrain.FlagOriginChunk` | src/world/terrain.rs:291-295 | The registry becomes `FlagOrigin` of the old one. Everything else is unchanged and the invariant holds. |
| `WorldTerrain.Terrain.SpawnGeneratedChunks` | src/world/terrain.rs:283-346 | After the origin flag step, finished tasks are completed in order and leave their chunk entities, far and near; unfinished ones stay pending. The invariant holds. |
| `WorldTerrain.Terrain.PollPass` | src/world/terrain.rs:297-345 | The poll loop on values equals the completion, pending and spawned functions of the whole task list. |
| `WorldTerrain.Terrain.PollOne` | src/world/terrain.rs:298-343 | One polled task behaves as follows. If unfinished, it stays pending. If far and finished, it sets the chunk's mesh handle. If near and finished, it clears `generating` and appends a near handle. In both finished cases it leaves an entity, and a missing chunk entry changes nothing. |
| `WorldTerrain.Terrain.RemoveUnusedTerrain` | src/world/terrain.rs:348-373 | Exactly the spawned far chunks outside the closed window lose their entity, their mesh and their entry. Every entry inside the window stays, and the looked-up entry is always present. The invariant holds. |
| `WorldTerrain.Terrain.RemovalPass` | src/world/terrain.rs:361-372 | The removal loop on values equals the remaining, kept and removed-mesh functions. Every lookup succeeds because the spawned ids are loaded and distinct. |
| `WorldTerrain.Terrain.NearChunkTasks` | src/world/terrain.rs:257-277 | The 10×10 loop emits exactly the hundred near tasks `NearTasks(id, corner)` in loop order. |
| `WorldTerrain.MeshDataFromNoise` | src/world/terrain.rs:445-479 | Gives `vx = w/sub + 2` by `vz = h/sub + 2` vertices: the reversed row-major grid, with vertex `(x, z)` at `(x*sub, h, z*sub)` at position `vx*vz-1-(z*vx+x)`. The indices are the reversed list of the six indices `[v, v+vx+1, v+vx, v+vx+1, v, v+1]` of each quad, `(vx-1)*(vz-1)*6` of them, each `< vx*vz`. |
| `TerrainMesh.BuildGrid` | src/world/terrain.rs:453-476 | The nested row loop (the same code as src/terrain_generator.rs:301-328) yields the reversed row-major vertex list and reversed quad index list. |
| `TerrainMesh.BuildRow` | src/world/terrain.rs:455-471 | One row emits its `vx` vertices and a quad for each vertex off the last column and row, and advances the vertex index by `vx`. |
| `TerrainMesh.GridShape` | src/world/terrain.rs:450-451 | A built grid has `vx*vz` vertices and `(vx-1)*(vz-1)*6` indices, all naming vertices. |
| `TerrainMesh.GridVertexAt` | src/world/terrain.rs:456-459 | Vertex `(x, z)` sits at position `vx*vz-1-(z*vx+x)` of the reversed list and is the height-mapped grid point. |
| `TerrainMesh.BuiltGridVertices` | src/world/terrain.rs:454-476 | Every grid position `(x, z)` of the reversed vertex list holds `(x*step, h, z*step)`, where `h` is the height sampled at that point shifted by the chunk offset. |
| `TerrainMesh.BuiltGridShape` | src/terrain_generator.rs:298-328 | What the builder returns is a grid mesh in the sense above. |
| `TerrainMesh.AccumulatedIsIncidentSum` | src/terrain_generator.rs:267-286 | The in-place `+=` accumulation gives each vertex the sum of `(B-A)×(C-A)` over the triangles incident to it, counted once per occurrence. |
| `TerrainMesh.AddInPlace` | src/world/terrain.rs:432-434 | The three in-place `+=` of one triangle equal adding its cross product at its three corners in order. |
| `TerrainMesh.CalculateNormals` | src/world/terrain.rs:409-442 | Returns one normal per vertex, equal to the normalised incident cross-product sum (the same code as src/terrain_generator.rs:260-293); it requires index triples that are in bounds. |
| `TerrainMesh.AccumulateNormals` | src/world/terrain.rs:410-435 | The zero-filled buffer after the accumulation loop over all triangles. |
| `TerrainMesh.AccumulateTriangle` | src/world/terrain.rs:417-434 | One iteration adds triangle `t`'s cross product to its corners. |
| `TerrainMesh.NormalizeInPlace` | src/world/terrain.rs:437-439 | Every buffer entry is replaced by its normalised value. |
| `TerrainGenerator.CornerRecovered` | src/terrain_generator.rs:144 | Recovering a chunk from the corner it is placed at, as the despawn loop does, gives back the chunk. |
| `TerrainGenerator.KeepChunk` | src/terrain_generator.rs:221-229 | The retain closure keeps a position iff it lies in the closed window `[pc-5, pc+5]²`. |
| `TerrainGenerator.GrownStep` | src/terrain_generator.rs:146-169 | Registering a window chunk under the counter, with its task at its corner, keeps the growth relation. |
| `TerrainGenerator.GrownKeepsConsistent` | src/terrain_generator.rs:141-170 | A growth step that keeps positions distinct keeps the resource consistent. |
| `TerrainGenerator.RegisterStep` | src/terrain_generator.rs:146-169 | Registering an unloaded window chunk keeps positions distinct and every loaded position loaded, and loads the chunk. |
| `TerrainGenerator.GeneratePass` | src/terrain_generator.rs:141-171 | Every chunk of `[pc-5, pc+5)²` ends up registered. Each new one gets a fresh id, once, with its task at its corner in id order. Old entries are untouched. |
| `TerrainGenerator.GenerateColumn` | src/terrain_generator.rs:142-170 | Column `x` ends up registered, and every position loaded before stays loaded. |
| `TerrainGenerator.PollPartition` | src/terrain_generator.rs:183-203 | Each task of a poll either finishes or stays pending. Each spawned entity and each pending task comes from the list. |
| `TerrainGenerator.WithMeshesKeys` | src/terrain_generator.rs:201 | After the poll, exactly the old ids and those of the spawned entities have a mesh handle. |
| `TerrainGenerator.SpawnKeepsConsistent` | src/terrain_generator.rs:184-201 | A spawned entity sits at its task's corner and is therefore recovered as its own chunk, so consistency holds. |
| `TerrainGenerator.SpawnPass` | src/terrain_generator.rs:183-203 | The poll loop on values yields the unfinished tasks, the spawned entities and the extended mesh map. |
| `TerrainGenerator.SurvivorsExact` | src/terrain_generator.rs:231-245 | An entity survives iff its recovered chunk is still registered, and the survivors are a sub-multiset of the entities. |
| `TerrainGenerator.DespawnPass` | src/terrain_generator.rs:231-245 | The despawn loop keeps exactly the survivors and drops the mesh handles of the despawned ids. |
| `TerrainGenerator.RemoveKeepsConsistent` | src/terrain_generator.rs:219-245 | Retain followed by despawn keeps the resource consistent. |
| `TerrainGenerator.KeptIdKeepsEntity` | src/terrain_generator.rs:231-236 | An entity whose id survives the retain is never despawned. |
| `TerrainGenerator.Terrain.constructor` | src/terrain_generator.rs:34-45 | The default resource is empty and consistent. |
| `TerrainGenerator.Terrain.GenerateTerrain` | src/terrain_generator.rs:126-172 | Keeps consistency and grows the registry. Afterwards the whole half-open window is loaded; meshes and entities are untouched. |
| `TerrainGenerator.Terrain.SpawnGeneratedChunks` | src/terrain_generator.rs:175-204 | Finished tasks become entities and store their mesh handle under their id; unfinished ones keep running. Positions and counter are unchanged, and consistency holds. |
| `TerrainGenerator.Terrain.RemoveUnusedTerrain` | src/terrain_generator.rs:206-246 | Positions are retained iff in the closed window. Entities are despawned iff their recovered chunk is no longer registered, and their meshes are dropped. An entity whose id is retained is kept. |
| `TerrainGenerator.MeshDataFromPerlin` | src/terrain_generator.rs:296-331 | Gives `w*h` vertices one metre apart: the reversed row-major grid, with vertex `(x, z)` at position `w*h-1-(z*w+x)`. The indices are the reversed list of the six indices of each quad, `(w-1)*(h-1)*6` of them, each `< w*h`. |
| `SlopeScan.CalcAbsoluteSlope` | src/world/route_gen.rs:150-152 | The slope `r` is non-negative and `r*|dist| == |h2 - h1|`; a zero distance gives no finite slope. This is the same code as src/road_generator.rs:121-123. |
| `SlopeScan.AnglesShape` | src/world/route_gen.rs:130 | `(lo..hi+1).step_by(s)` yields `(hi-lo)/s + 1` angles `lo + k*s`, each `<= hi`, and the next would exceed `hi`. |
| `SlopeScan.FullTurnCandidates` | src/road_generator.rs:62 | The full-turn scan in steps of 5 degrees has 73 candidates. |
| `SlopeScan.ScanResultSpec` | src/world/route_gen.rs:127-147 | The chosen node is the zero vector if no candidate's slope is below 1000. Otherwise it is the candidate of the first strictly least slope, which is finite. |
| `SlopeScan.ScanStep` | src/world/route_gen.rs:140-144 | One candidate is taken exactly when its slope is strictly below the running minimum, keeping the scan state. |
| `SlopeScan.LowestSlopeNode` | src/world/route_gen.rs:127-147 | The scan loop returns `ScanResult` over the angle range. The same loop is at src/road_generator.rs:60-74. |
| `RouteGen.Insert` | src/world/route_gen.rs:59-60 | `Vec::insert` puts `x` at `i` and shifts the tail up by one, keeping the prefix. |
| `RouteGen.InsertAtEnd` | src/world/route_gen.rs:119 | Inserting at index `len` appends. |
| `RouteGen.FindNextPathNode` | src/world/route_gen.rs:125-148 | Returns the first strictly least-slope candidate of the angles `a-m, a-m+s, …, <= a+m`, measured against the start's height, or zero. |
| `RouteGen.TurnCandidates` | src/world/route_gen.rs:118 | An extension step considers exactly the 11 headings `a-5 … a+5`. |
| `RouteGen.Route.constructor` | src/world/route_gen.rs:37-45 | The default route is empty with counter 0, and the counter equals the length. |
| `RouteGen.Route.GetLastId` | src/world/route_gen.rs:23-25 | On a valid route, `id_counter - 1` names the last point. |
| `RouteGen.Route.GetPoint` | src/world/route_gen.rs:27-30 | Returns None iff `id >= len`, else `points[id]`. |
| `RouteGen.Route.InitLinePoints` | src/world/route_gen.rs:48-62 | Inserts the start `(0, h(0,0)+1, 0)` and the best full-turn node at 0 and 1; sets the counter to 2 and the changed flag. |
| `RouteGen.Route.UpdatePolylinePoints` | src/world/route_gen.rs:65-91 | Draws a copy of the points only when they changed, and always ends with the flag cleared. |
| `RouteGen.Route.BuildRoutePath` | src/world/route_gen.rs:94-122 | If the last point is out of range, nothing changes. Otherwise it inserts the best node within five degrees of the last heading at index `id_counter`, increments the counter and sets the flag. It keeps `len == id_counter` and the old points. |
| `RoadGenerator.IsWithinRenderDistance` | src/road_generator.rs:125-138 | True iff the point lies in the closed box `[(c-r)*S, (c+r)*S]²`. |
| `RoadGenerator.WithinDistanceIsRetained` | src/road_generator.rs:112 | With the terrain streamer's constants, a point in that box lies in a chunk that streamer retains. |
| `RoadGenerator.Road.constructor` | src/road_generator.rs:16-22 | The default road has no points. |
| `RoadGenerator.Road.InitLinePoints` | src/road_generator.rs:47-86 | Appends exactly two points: the start `(0, h(0,0)+1, 0)`, then the best of 73 candidates 20 m away, with slopes measured against `h(0,0)` and not the raised start. |
| `TrainTracks.ClosestIndex` | src/world/train_tracks.rs:22-36 | The index chosen is the first of least `\|t - p.t\|`, among samples closer than 1. |
| `TrainTracks.GetClosestPointAtT` | src/world/train_tracks.rs:22-36 | The loop returns that index and its sample. It requires some sample within 1, since otherwise the `unwrap` panics. |
| `TrainTracks.SegmentPositionAtT` | src/world/train_tracks.rs:38-55 | In both branches the pose interpolates the span's two samples by `t*(n-1) - s`. The span starts one before the closest sample when that sample lies ahead of `t`, and at the closest sample otherwise. |
| `TrainTracks.SegmentSlopeAngleAtT` | src/world/train_tracks.rs:57-70 | The slope angle is taken between the same two samples. |
| `TrainTracks.UniformFactorInUnit` | src/world/train_tracks.rs:42-53 | On evenly spread samples the chosen lerp factor lies in `[0, 1]`. |
| `TrainTracks.Track.constructor` | src/world/train_tracks.rs:83-87 | The default track has no segments. |
| `TrainTracks.Track.GetSegmentAtT` | src/world/train_tracks.rs:90-95 | Returns None iff no segment is keyed `floor(t)`, else that segment. |
| `TrainTracks.Track.GetInterpolatedPositionAtT` | src/world/train_tracks.rs:97-108 | Returns None iff the key is absent. Otherwise it returns the segment-local pose at `t - floor(t)` shifted by the segment's world translation. |
| `TrainTracks.Track.GetSlopeAngleAtT` | src/world/train_tracks.rs:110-119 | Returns None iff the key is absent, else the segment's slope at `t - floor(t)`. |
| `TrainTracks.FindSegment` | src/world/train_tracks.rs:255 | `find` returns a segment of that id from the list, and None iff there is none. |
| `TrainTracks.FindConsecutive` | src/world/train_tracks.rs:253-255 | With ids 1, 2, 3, …, segment `id` is found at index `id - 1`. |
| `TrainTracks.SegmentsByIdSpec` | src/world/train_tracks.rs:198-201 | The rebuilt map's keys are exactly the segments' ids, each mapped to a segment of the list with that id. |
| `TrainTracks.ConsecutiveById` | src/world/train_tracks.rs:198-201 | With consecutive ids the map holds keys `1..=n`, key `k` holding segment `k-1`. |
| `TrainTracks.IndexSegments` | src/world/train_tracks.rs:198-201 | The rebuild loop yields that id → segment map. |
| `TrainTracks.PlacementData.constructor` | src/world/train_tracks.rs:73-81 | The default placement data is empty and valid. |
| `TrainTracks.PlacementData.CurrentSegmentId` | src/world/train_tracks.rs:123-129 | Is 0 with no segments. With consecutive ids it is the number of segments. |
| `TrainTracks.PlacementData.UpdatePlacementData` | src/world/train_tracks.rs:205-239 | Returns without change when the last id is `<= 2`, equals the last used node, or has no point after the next one. Otherwise it appends exactly one segment, with id `current + 1`, from node `id_to_add - 1` to `id_to_add`, and sets `last_used_node_id`. Consecutive ids are kept. |
| `TrainTracks.PlacementData.PlaceTracks` | src/world/train_tracks.rs:241-270 | Does nothing without shape and material, or when every segment is placed. Otherwise it places the next segment by id and advances `last_placed_segment_id` by exactly one, keeping it `<= current_segment_id`. |
| `TrainTracks.ValidPlacementFinds` | src/world/train_tracks.rs:255 | In valid placement data the `find(...).unwrap()` of place_tracks never fails. |
| `TrainTracks.UpdateTrackEntity` | src/world/train_tracks.rs:190-202 | The track's map becomes exactly `{seg.id → seg}` over the placement segments. |
| `TrainTracks.TrackCoverage` | src/world/train_tracks.rs:198-201 | After the rebuild from valid data, the track finds a segment at `t` iff `1 <= floor(t) <= n`. |
| `BogieSystems.Advanced` | src/rolling_stock/bogie_systems.rs:43 | `t` advances by `velocity * (1/60) / 100 = velocity / 6000`, and nothing else changes. |
| `BogieSystems.ApplyBogieVelocities` | src/rolling_stock/bogie_systems.rs:38-45 | Every bogie is advanced so. |
| `BogieSystems.Accelerated` | src/rolling_stock/bogie_systems.rs:60 | The velocity change times the mass equals `(vertical + horizontal) * dt`, and nothing else changes. |
| `BogieSystems.ApplyBogieForces` | src/rolling_stock/bogie_systems.rs:47-62 | Every bogie is accelerated with mass `wagon.mass + bogie.mass` when attached, else `bogie.mass`. It requires the wagon to be known, for the `unwrap`. |
| `BogieSystems.WithVerticalForce` | src/rolling_stock/bogie_systems.rs:75-90 | A bogie is kept when the slope is None. Otherwise only its vertical force changes, to `m * (-9.81) * sin(slope)`. |
| `BogieSystems.VerticalForceOpposesClimb` | src/rolling_stock/bogie_systems.rs:90 | For positive mass the slope force is negative iff `sin(slope) > 0`, and zero iff the track is level. |
| `BogieSystems.SetVerticalForce` | src/rolling_stock/bogie_systems.rs:75-90 | One bogie's update, given the track's slope at its `t`. |
| `BogieSystems.SetBogieVerticalForces` | src/rolling_stock/bogie_systems.rs:64-92 | With no track nothing changes. Otherwise each bogie gets its slope force or, where the track has no segment, keeps its force. |
| `BogieSystems.Placed` | src/rolling_stock/bogie_systems.rs:107-110 | A bogie is unchanged without a pose. Otherwise its translation and rotation become the pose, and the scale and all else stay. |
| `BogieSystems.UpdateTransform` | src/rolling_stock/bogie_systems.rs:104-110 | One bogie's update from the track's pose at its `t`. |
| `BogieSystems.UpdateBogieTransforms` | src/rolling_stock/bogie_systems.rs:94-112 | With no track nothing changes. Otherwise each bogie is placed at the track's pose at its `t`. |
| `WagonSystems.Group` | src/rolling_stock/wagon_systems.rs:66-72 | A wagon's group holds exactly the indices of the bogies attached to it, in increasing query order. |
| `WagonSystems.LastWithRole` | src/rolling_stock/wagon_systems.rs:78-86 | Returns None iff no bogie of the group has the role, else a bogie of the group with it. |
| `WagonSystems.LastWithRoleIsLast` | src/rolling_stock/wagon_systems.rs:80-86 | The bogie found is the last of the group with the role, because later ones overwrite earlier ones. |
| `WagonSystems.RoleFound` | src/rolling_stock/wagon_systems.rs:88-89 | A role some bogie of the wagon has is found in its group, so the `unwrap` succeeds. |
| `WagonSystems.Constrained` | src/rolling_stock/wagon_systems.rs:74-97 | The constraint changes only `position_on_track`. Leading and unattached bogies are unchanged. |
| `WagonSystems.OnlyLastTrailingMoves` | src/rolling_stock/wagon_systems.rs:89-96 | Every bogie but its wagon's last trailing one is unchanged. |
| `WagonSystems.ConstrainedKeepsOthers` | src/rolling_stock/wagon_systems.rs:89-96 | Within a wagon's group every bogie but the last trailing one is kept. |
| `WagonSystems.ConstrainedShiftsTrailing` | src/rolling_stock/wagon_systems.rs:91-96 | The last trailing bogie moves by `0.01 * (distance(lead, trail) - rest)`. |
| `WagonSystems.PickRoles` | src/rolling_stock/wagon_systems.rs:78-86 | The role loop leaves the last leading and the last trailing bogie of the group. |
| `WagonSystems.GroupsAdvance` | src/rolling_stock/wagon_systems.rs:68-71 | Pushing a bogie onto its wagon's vector, created first if missing, extends the grouping by that bogie. |
| `WagonSystems.GroupsSkip` | src/rolling_stock/wagon_systems.rs:67 | A bogie without a wagon leaves the grouping unchanged. |
| `WagonSystems.AddToGroups` | src/rolling_stock/wagon_systems.rs:67-72 | One step of the grouping loop extends the grouping by one bogie. |
| `WagonSystems.GroupByWagon` | src/rolling_stock/wagon_systems.rs:66-72 | The map holds exactly the wagons with bogies, each with its group in query order. |
| `WagonSystems.ShiftTrailing` | src/rolling_stock/wagon_systems.rs:92-96 | Both branches shift `t` by exactly `0.01 * (d - rest)`. |
| `WagonSystems.GroupRoles` | src/rolling_stock/wagon_systems.rs:75-89 | Under the system's demands a group's wagon is known, every member has a role, and both roles are found. |
| `WagonSystems.ConstrainGroup` | src/rolling_stock/wagon_systems.rs:75-96 | The per-wagon body yields the last trailing bogie's corrected state, and every other bogie of the wagon keeps its state. |
| `WagonSystems.ConstrainAttachedBogies` | src/rolling_stock/wagon_systems.rs:62-98 | After all groups, in any map order, each bogie equals `Constrained`: only each wagon's last trailing bogie moves. |
| `RollingStockUtils.GetCarriedMass` | src/rolling_stock/utils.rs:4-16 | Is `bogie.mass` unattached. Attached, twice the excess over `bogie.mass` is the wagon's mass, i.e. half the wagon is carried. |
| `RollingStockUtils.PairCarriesWagon` | src/rolling_stock/utils.rs:9-12 | The two bogies of a wagon together carry it exactly once. |
| `RollingStockUtils.EffectiveMassCountsWholeWagon` | src/rolling_stock/bogie_systems.rs:53-59 | The force systems' mass exceeds the carried mass by half the wagon. |
| `RollingStockUtils.AttachedEntities` | src/rolling_stock/utils.rs:22-29 | Keeps exactly the entities attached to the wagon and is no longer than the query; empty when none is attached. |
| `RollingStockUtils.AttachedConcat` | src/rolling_stock/utils.rs:23-27 | The filter distributes over concatenation, so query order is kept. |
| `RollingStockUtils.GetAttachedBogies` | src/rolling_stock/utils.rs:18-30 | The loop returns exactly `AttachedEntities` of the query, in order. |

## Left out

- The integer widths `u32`, `u64`, `usize` and `i32`, and the casts between
  them and `f32`, are not modelled. Ids, counters and indices are unbounded
  `nat`s, and chunk coordinates are unbounded `int`s.
- f32 rounding, infinities and NaN are not modelled. All quantities are
  exact reals.
- `BogieSystems.ApplyBogieForces`: it requires a non-zero mass. The source
  would divide by zero and store an infinite or NaN velocity, which has no
  counterpart in the reals.
- Noise and height functions are opaque: `src/noise.rs` and the noise
  closure of `generate_terrain`. So are sine, cosine, arcsine and arccosine
  (the heading of `build_route_path`), `Vec3::distance`, `Vec3::normalize`
  and `Quat::lerp`.
- `find_control_points`, `find_control_point`, `line_properties` and the
  Bezier path of `bevy_extrude_mesh` are folded into one opaque
  `generatePath` parameter of `UpdatePlacementData`. In particular the mesh
  extrusion of `place_tracks` is not modelled.
- Async mesh tasks, the async compute pool and `poll_once` are modelled by task
  records plus a `ready` vector. The meshes a task would compute are not
  attached to its record. The mesh builder and the normals calculation are
  verified on their own.
- Bevy ECS glue is omitted: Commands, spawn/despawn, bundles, component
  insertion and removal, mesh and material assets, and `build_mesh`.
  Spawned entities are modelled as id lists, and meshes as opaque handles.
- `terrain_material_handle.clone().unwrap()` at the start of both
  `spawn_generated_chunks` is not modelled, because the material handle is
  not part of the model.
- The player's position is a parameter of the streaming operations.
  `player_query.single()` panics without exactly one player; this is not
  modelled.
- `track_query.single()` is modelled as an optional track. A track query
  holding several tracks is not modelled.
- In `generate_near_terrain` the player's chunk and the distance test are
  computed but the test is commented out. The model ignores both.
- `RouteGen.FindNextPathNode`: `step_by(0)` panics, so it requires a step of
  at least 1.
- `TrainTracks.PlacementData.UpdatePlacementData`: the code calls
  `get_next_point(id)` and `points.get(&id)`, which `Route` does not
  define. They are read as the point at index `id + 1` and `get_point(id)`.
  Also, `train_tracks.rs` imports `TERRAIN_CHUNK_SIZE`, which `terrain.rs`
  no longer defines. It is used only by the opaque height function.
- `RollingStockUtils.GetCarriedMass`: `utils.rs` names components
  (`AttachedToWagon`, `WagonPhysics`) that `components.rs` does not define.
  They are modelled as the `AttachedTo` wagon id and `Wagon`.
- `terrain_generator.rs` and `road_generator.rs` are not part of the
  program's module list. They are modelled as written, as that older code
  stands.
- `build_road_path` in `road_generator.rs` is unfinished: it computes a
  distance test and then does nothing. Only `is_within_render_distance`, its
  test, is modelled.
- `update_polyline_points` and `init_render` in `road_generator.rs` are
  empty bodies.
- `spawn_bogie`, `spawn_wagon`, all `setup_*` systems,
  `configure_terrain_images`, the water plane, the UI systems, asset
  loading, line rendering and plugin wiring are left out. They are glue
  with no bookkeeping of their own.
- `WagonSystems.ConstrainAttachedBogies`: the source queries only attached
  bogies. The model takes all bogies and leaves the unattached ones
  unchanged, which is the same effect. The two-bogie borrow aliasing of
  Bevy's `Mut` is not modelled; the correction is read from a snapshot of
  the query.
- The `println!` that `set_bogie_vertical_forces` prints for a skipped bogie
  (src/rolling_stock/bogie_systems.rs:77) is log output and is not modelled.
