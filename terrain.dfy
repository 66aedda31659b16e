/** src/world/terrain.rs: the far-grid chunk registry that streams terrain
    around the player, its near-grid flag life-cycle, and the mesh builder
    the chunk tasks run. Chunk meshes are computed by background tasks; here
    a task is a pending record and its completion an explicit event. */
module WorldTerrain {
  import opened Common
  import opened ChunkMath
  import opened TerrainMesh

  /** Side of a far-grid chunk in metres. */
  const FAR_GRID_CHUNK_SIZE: nat := 1000
  /** Far-grid chunks kept on each side of the player's chunk. */
  const FAR_GRID_RENDER_DISTANCE: nat := 5
  /** Near-grid chunks along one side of a far chunk. */
  const NUM_NEAR_CHUNKS: nat := 10
  /** Side of a near-grid chunk in metres (`FAR_GRID_CHUNK_SIZE / 10`). */
  const NEAR_GRID_CHUNK_SIZE: nat := FAR_GRID_CHUNK_SIZE / NUM_NEAR_CHUNKS

  datatype TaskType = FarGrid | NearGrid

  /** A running GenerateChunkMeshTask: the chunk id it reports, its kind and
      the world position (chunk corner) it meshes. */
  datatype ChunkMeshTask = ChunkMeshTask(id: nat, kind: TaskType, position: Vec2)

  /** FarChunkData. The mesh handle is None while it is still the default
      handle, i.e. before the chunk's mesh arrives. */
  datatype FarChunkData = FarChunkData(
    pos: ChunkPos,
    meshHandle: Option<Handle>,
    nearMeshHandles: seq<Handle>,
    flagged: bool,
    generatingNearChunks: bool,
    midlineEntryNodeId: Option<nat>,
    midlineExitNodeId: Option<nat>)

  /** `FarChunkData { pos, ..default() }`. */
  function NewChunkData(pos: ChunkPos): FarChunkData {
    FarChunkData(pos, None, [], false, false, None, None)
  }

  /** get_far_chunk_position: the far chunk containing a world position. */
  function GetFarChunkPosition(world: Vec2): (c: ChunkPos)
    ensures ChunkCorner(c.x, 1000.0) <= world.x < ChunkCorner(c.x, 1000.0) + 1000.0
    ensures ChunkCorner(c.y, 1000.0) <= world.y < ChunkCorner(c.y, 1000.0) + 1000.0
  {
    ChunkPos(ChunkCoord(world.x, 1000.0), ChunkCoord(world.y, 1000.0))
  }

  /** World position of a far chunk's corner,
      `chunk * FAR_GRID_CHUNK_SIZE - FAR_GRID_CHUNK_SIZE / 2` per axis. */
  function WorldCorner(c: ChunkPos): Vec2 {
    Vec2(ChunkCorner(c.x, 1000.0), ChunkCorner(c.y, 1000.0))
  }

  /** A far chunk's mesh task reports the world corner that maps back to the chunk. */
  lemma FarCornerRoundTrip(c: ChunkPos)
    ensures GetFarChunkPosition(WorldCorner(c)) == c
  {
    CornerRoundTrip(c.x, 1000.0);
    CornerRoundTrip(c.y, 1000.0);
  }

  /** is_within_far_render_distance: `point` lies in the closed world box of
      the chunks `from - R ..= from + R`, measured in whole metres. */
  function IsWithinFarRenderDistance(point: Vec2, from: ChunkPos): (r: bool)
    ensures r <==>
      && ((from.x - 5) * 1000) as real <= point.x <= ((from.x + 5) * 1000) as real
      && ((from.y - 5) * 1000) as real <= point.y <= ((from.y + 5) * 1000) as real
  {
    var minX := (from.x - FAR_GRID_RENDER_DISTANCE) * FAR_GRID_CHUNK_SIZE;
    var maxX := (from.x + FAR_GRID_RENDER_DISTANCE) * FAR_GRID_CHUNK_SIZE;
    var minY := (from.y - FAR_GRID_RENDER_DISTANCE) * FAR_GRID_CHUNK_SIZE;
    var maxY := (from.y + FAR_GRID_RENDER_DISTANCE) * FAR_GRID_CHUNK_SIZE;
    if point.x > maxX as real || point.x < minX as real then false
    else if point.y > maxY as real || point.y < minY as real then false
    else true
  }

  /** A point within render distance lies in a chunk of the closed window
      `[from - R, from + R]²`, the window that remove_unused_terrain keeps. */
  lemma WithinDistanceInWindow(point: Vec2, from: ChunkPos)
    requires IsWithinFarRenderDistance(point, from)
    ensures InClosedWindow(GetFarChunkPosition(point), from, FAR_GRID_RENDER_DISTANCE)
  {
    AxisWithinWindow(point.x, from.x);
    AxisWithinWindow(point.y, from.y);
  }

  lemma AxisWithinWindow(p: real, c: int)
    requires ((c - 5) * 1000) as real <= p <= ((c + 5) * 1000) as real
    ensures c - 5 <= ChunkCoord(p, 1000.0) <= c + 5
  {
    assert ((c - 5) * 1000) as real == ((c - 5) as real) * 1000.0;
    assert ((c + 5) * 1000) as real == ((c + 5) as real) * 1000.0;
    BoxPointInClosedWindow(p, c, 5, 1000.0);
  }

  /** Some loaded chunk sits at chunk position `p`. */
  predicate HasChunkAt(m: map<nat, FarChunkData>, p: ChunkPos) {
    exists id | id in m :: m[id].pos == p
  }

  /** No two loaded chunks share a position. */
  ghost predicate PositionsDistinct(m: map<nat, FarChunkData>) {
    forall a, b | a in m && b in m && a != b :: m[a].pos != m[b].pos
  }

  /** The id a task reports if it is a far-grid task. */
  function FarOf(t: ChunkMeshTask): seq<nat> {
    if t.kind == FarGrid then [t.id] else []
  }

  /** The ids reported by the far-grid tasks among `ts`, in order. */
  function FarIds(ts: seq<ChunkMeshTask>): seq<nat>
    decreases |ts|
  {
    if ts == [] then [] else FarIds(ts[..|ts| - 1]) + FarOf(ts[|ts| - 1])
  }

  lemma {:induction false} FarIdsAppend(a: seq<ChunkMeshTask>, b: seq<ChunkMeshTask>)
    ensures FarIds(a + b) == FarIds(a) + FarIds(b)
    decreases |b|
  {
    if b == [] {
      assert a + b == a;
    } else {
      var n := |b| - 1;
      assert (a + b)[..|a + b| - 1] == a + b[..n];
      FarIdsAppend(a, b[..n]);
    }
  }

  /** A batch of near-grid tasks reports no far-grid id. */
  lemma {:induction false} FarIdsOfNear(ts: seq<ChunkMeshTask>)
    requires forall i :: 0 <= i < |ts| ==> ts[i].kind == NearGrid
    ensures FarIds(ts) == []
    decreases |ts|
  {
    if ts != [] {
      FarIdsOfNear(ts[..|ts| - 1]);
    }
  }

  /** The mesh task generate_far_terrain starts for the chunk `id` at `pos`. */
  function FarTask(id: nat, pos: ChunkPos): ChunkMeshTask {
    ChunkMeshTask(id, FarGrid, WorldCorner(pos))
  }

  /** Task `i` (0 <= i < 100) of a far chunk's near grid: near chunk
      `(i / 10, i % 10)`, offset by whole near-chunk sizes from the corner. */
  function NearTask(id: nat, corner: Vec2, i: nat): ChunkMeshTask {
    ChunkMeshTask(id, NearGrid, corner.Plus(Vec2(((i / 10) * 100) as real, ((i % 10) * 100) as real)))
  }

  /** The hundred near-grid tasks of a far chunk, in loop order. */
  function NearTasks(id: nat, corner: Vec2): (r: seq<ChunkMeshTask>)
    ensures |r| == 100
  {
    seq(100, i requires 0 <= i < 100 => NearTask(id, corner, i))
  }

  /** Near chunk (x, y) is task `10*x + y`, at `corner + (100x, 100y)`, inside
      the far chunk's square `[corner, corner + 1000)²`. */
  lemma NearTaskGrid(id: nat, corner: Vec2, x: nat, y: nat)
    requires x < 10 && y < 10
    ensures 10 * x + y < 100
    ensures NearTasks(id, corner)[10 * x + y] ==
      ChunkMeshTask(id, NearGrid, corner.Plus(Vec2((x * 100) as real, (y * 100) as real)))
    ensures corner.x <= NearTasks(id, corner)[10 * x + y].position.x < corner.x + 1000.0
    ensures corner.y <= NearTasks(id, corner)[10 * x + y].position.y < corner.y + 1000.0
  {
    assert (10 * x + y) / 10 == x;
    assert (10 * x + y) % 10 == y;
  }

  /** The near-grid tasks started for the far chunks `order`, in that order. */
  function NearTasksFor(order: seq<nat>, m: map<nat, FarChunkData>): seq<ChunkMeshTask>
    requires forall id | id in order :: id in m
    decreases |order|
  {
    if order == [] then []
    else
      var id := order[|order| - 1];
      NearTasksFor(order[..|order| - 1], m) + NearTasks(id, WorldCorner(m[id].pos))
  }

  lemma NearTasksForSnoc(order: seq<nat>, m: map<nat, FarChunkData>, id: nat)
    requires forall x | x in order :: x in m
    requires id in m
    ensures NearTasksFor(order + [id], m) == NearTasksFor(order, m) + NearTasks(id, WorldCorner(m[id].pos))
  {
    assert (order + [id])[..|order|] == order;
  }

  lemma AppendAssoc<T>(a: seq<T>, b: seq<T>, c: seq<T>)
    ensures (a + b) + c == a + (b + c)
  {
  }

  lemma {:induction false} NearTasksForAreNear(order: seq<nat>, m: map<nat, FarChunkData>)
    requires forall id | id in order :: id in m
    ensures forall i :: 0 <= i < |NearTasksFor(order, m)| ==> NearTasksFor(order, m)[i].kind == NearGrid
    ensures |NearTasksFor(order, m)| == 100 * |order|
    decreases |order|
  {
    if order != [] {
      NearTasksForAreNear(order[..|order| - 1], m);
    }
  }

  /** The loop state of generate_near_terrain over registry `m0` and tasks
      `t0`, with the ids in `remaining` still to be visited: the visited
      flagged chunks, in `order`, are started and have their tasks queued. */
  ghost predicate NearPassState(m0: map<nat, FarChunkData>, t0: seq<ChunkMeshTask>, remaining: set<nat>,
                                chunks: map<nat, FarChunkData>, ts: seq<ChunkMeshTask>, order: seq<nat>)
  {
    && remaining <= m0.Keys
    && chunks.Keys == m0.Keys
    && (forall id | id in m0 ::
          chunks[id] == (if m0[id].flagged && id !in remaining then StartNear(m0)[id] else m0[id]))
    && (forall id :: id in order <==> id in m0 && m0[id].flagged && id !in remaining)
    && NoDup(order)
    && ts == t0 + NearTasksFor(order, m0)
  }

  lemma NearPassSkip(m0: map<nat, FarChunkData>, t0: seq<ChunkMeshTask>, remaining: set<nat>,
                     chunks: map<nat, FarChunkData>, ts: seq<ChunkMeshTask>, order: seq<nat>, id: nat)
    requires NearPassState(m0, t0, remaining, chunks, ts, order)
    requires id in remaining && !chunks[id].flagged
    ensures NearPassState(m0, t0, remaining - {id}, chunks, ts, order)
  {
  }

  lemma NearPassStart(m0: map<nat, FarChunkData>, t0: seq<ChunkMeshTask>, remaining: set<nat>,
                      chunks: map<nat, FarChunkData>, ts: seq<ChunkMeshTask>, order: seq<nat>, id: nat)
    requires NearPassState(m0, t0, remaining, chunks, ts, order)
    requires id in remaining && chunks[id].flagged
    ensures NearPassState(m0, t0, remaining - {id},
                          chunks[id := chunks[id].(flagged := false, generatingNearChunks := true)],
                          ts + NearTasks(id, WorldCorner(chunks[id].pos)), order + [id])
  {
    var near := NearTasks(id, WorldCorner(chunks[id].pos));
    assert chunks[id] == m0[id];
    assert id !in order;
    assert multiset(order + [id]) == multiset(order) + multiset{id};
    NearTasksForSnoc(order, m0, id);
    AppendAssoc(t0, NearTasksFor(order, m0), near);
  }

  /** The origin chunk's flag step at the start of spawn_generated_chunks:
      raised only on a chunk at (0, 0) without near meshes that is neither
      flagged nor generating. */
  function FlagIfOrigin(d: FarChunkData): FarChunkData {
    if d.pos == ChunkPos(0, 0) && d.nearMeshHandles == [] && !d.flagged && !d.generatingNearChunks
    then d.(flagged := true)
    else d
  }

  /** Flagging applied to every loaded chunk (at most one is at the origin). */
  function FlagOrigin(m: map<nat, FarChunkData>): (r: map<nat, FarChunkData>)
    ensures r.Keys == m.Keys
  {
    map id | id in m :: FlagIfOrigin(m[id])
  }

  /** How a finished task changes the registry: a far-grid mesh becomes the
      chunk's mesh handle; a near-grid mesh ends near generation and joins
      the chunk's near handles. Tasks of unloaded chunks change nothing. */
  function Completion(m: map<nat, FarChunkData>, t: ChunkMeshTask, h: Handle): map<nat, FarChunkData> {
    if t.id !in m then m
    else match t.kind
      case FarGrid => m[t.id := m[t.id].(meshHandle := Some(h))]
      case NearGrid => m[t.id := m[t.id].(generatingNearChunks := false,
                                           nearMeshHandles := m[t.id].nearMeshHandles + [h])]
  }

  /** The registry after polling the tasks `ts`, `rs[i]` being the mesh
      handle of task `i` if it had finished. */
  function CompletedChunks(m: map<nat, FarChunkData>, ts: seq<ChunkMeshTask>, rs: seq<Option<Handle>>): map<nat, FarChunkData>
    requires |ts| == |rs|
    decreases |ts|
  {
    if ts == [] then m
    else
      var n := |ts| - 1;
      var prev := CompletedChunks(m, ts[..n], rs[..n]);
      if rs[n].Some? then Completion(prev, ts[n], rs[n].value) else prev
  }

  /** A task that had not finished stays. */
  function PendingOf(t: ChunkMeshTask, r: Option<Handle>): seq<ChunkMeshTask> {
    if r.None? then [t] else []
  }

  /** A finished task of kind `kind` leaves a chunk entity with its id. */
  function SpawnedOf(t: ChunkMeshTask, r: Option<Handle>, kind: TaskType): seq<nat> {
    if r.Some? && t.kind == kind then [t.id] else []
  }

  /** Tasks still running after the poll. */
  function Pending(ts: seq<ChunkMeshTask>, rs: seq<Option<Handle>>): seq<ChunkMeshTask>
    requires |ts| == |rs|
    decreases |ts|
  {
    if ts == [] then []
    else
      var n := |ts| - 1;
      Pending(ts[..n], rs[..n]) + PendingOf(ts[n], rs[n])
  }

  /** The ids of the chunk entities of kind `kind` spawned by the poll, in order. */
  function Spawned(ts: seq<ChunkMeshTask>, rs: seq<Option<Handle>>, kind: TaskType): seq<nat>
    requires |ts| == |rs|
    decreases |ts|
  {
    if ts == [] then []
    else
      var n := |ts| - 1;
      Spawned(ts[..n], rs[..n], kind) + SpawnedOf(ts[n], rs[n], kind)
  }

  /** Every far-grid task is either still pending or spawned, exactly once. */
  lemma {:induction false} FarTasksConserved(ts: seq<ChunkMeshTask>, rs: seq<Option<Handle>>)
    requires |ts| == |rs|
    ensures multiset(FarIds(ts)) == multiset(FarIds(Pending(ts, rs))) + multiset(Spawned(ts, rs, FarGrid))
    decreases |ts|
  {
    if ts != [] {
      FarTasksConserved(ts[..|ts| - 1], rs[..|rs| - 1]);
      ConservedStep(ts, rs);
    }
  }

  /** The last polled task keeps FarTasksConserved's balance. */
  lemma ConservedStep(ts: seq<ChunkMeshTask>, rs: seq<Option<Handle>>)
    requires |ts| == |rs| > 0
    requires var n := |ts| - 1;
      multiset(FarIds(ts[..n])) == multiset(FarIds(Pending(ts[..n], rs[..n]))) + multiset(Spawned(ts[..n], rs[..n], FarGrid))
    ensures multiset(FarIds(ts)) == multiset(FarIds(Pending(ts, rs))) + multiset(Spawned(ts, rs, FarGrid))
  {
    var n := |ts| - 1;
    var pend, spawned := Pending(ts[..n], rs[..n]), Spawned(ts[..n], rs[..n], FarGrid);
    PollLast(ts, rs);
    var all := FarIds(ts[..n]) + FarOf(ts[n]);
    assert FarIds(ts) == all;
    if rs[n].None? {
      assert Pending(ts, rs) == pend + [ts[n]];
      assert Spawned(ts, rs, FarGrid) == spawned by {
        assert spawned + [] == spawned;
      }
      FarIdsLast(pend, ts[n]);
      MultisetExtendFirst(FarIds(ts[..n]), FarIds(pend), spawned, FarOf(ts[n]));
      assert multiset(all) == multiset(FarIds(pend + [ts[n]])) + multiset(spawned);
    } else {
      assert Pending(ts, rs) == pend by {
        assert pend + [] == pend;
      }
      assert Spawned(ts, rs, FarGrid) == spawned + FarOf(ts[n]);
      MultisetExtendSecond(FarIds(ts[..n]), FarIds(pend), spawned, FarOf(ts[n]));
      assert multiset(all) == multiset(FarIds(pend)) + multiset(spawned + FarOf(ts[n]));
    }
  }

  /** Polling one more task, the `j`-th, extends each outcome of the poll by
      that task's own outcome. */
  lemma PollPrefix(m0: map<nat, FarChunkData>, ts: seq<ChunkMeshTask>, rs: seq<Option<Handle>>, j: nat)
    requires |ts| == |rs| && j < |ts|
    ensures var prev := CompletedChunks(m0, ts[..j], rs[..j]);
      CompletedChunks(m0, ts[..j + 1], rs[..j + 1]) == (if rs[j].Some? then Completion(prev, ts[j], rs[j].value) else prev)
    ensures Pending(ts[..j + 1], rs[..j + 1]) == Pending(ts[..j], rs[..j]) + PendingOf(ts[j], rs[j])
    ensures Spawned(ts[..j + 1], rs[..j + 1], FarGrid) == Spawned(ts[..j], rs[..j], FarGrid) + SpawnedOf(ts[j], rs[j], FarGrid)
    ensures Spawned(ts[..j + 1], rs[..j + 1], NearGrid) == Spawned(ts[..j], rs[..j], NearGrid) + SpawnedOf(ts[j], rs[j], NearGrid)
  {
    assert ts[..j + 1][..j] == ts[..j];
    assert rs[..j + 1][..j] == rs[..j];
  }

  /** One more polled task: its id joins the far ids, and that task joins
      the pending list or its id the spawned list. */
  lemma PollLast(ts: seq<ChunkMeshTask>, rs: seq<Option<Handle>>)
    requires |ts| == |rs| > 0
    ensures var n := |ts| - 1;
      && FarIds(ts) == FarIds(ts[..n]) + FarOf(ts[n])
      && Pending(ts, rs) == Pending(ts[..n], rs[..n]) + (if rs[n].None? then [ts[n]] else [])
      && Spawned(ts, rs, FarGrid) == Spawned(ts[..n], rs[..n], FarGrid) + (if rs[n].Some? then FarOf(ts[n]) else [])
  {
  }

  lemma FarIdsLast(s: seq<ChunkMeshTask>, t: ChunkMeshTask)
    ensures FarIds(s + [t]) == FarIds(s) + FarOf(t)
  {
    assert (s + [t])[..|s|] == s;
  }

  lemma MultisetExtendFirst<T>(a: seq<T>, b: seq<T>, c: seq<T>, d: seq<T>)
    requires multiset(a) == multiset(b) + multiset(c)
    ensures multiset(a + d) == multiset(b + d) + multiset(c)
  {
    assert multiset(a + d) == multiset(a) + multiset(d);
    assert multiset(b + d) == multiset(b) + multiset(d);
  }

  lemma MultisetExtendSecond<T>(a: seq<T>, b: seq<T>, c: seq<T>, d: seq<T>)
    requires multiset(a) == multiset(b) + multiset(c)
    ensures multiset(a + d) == multiset(b) + multiset(c + d)
  {
    assert multiset(a + d) == multiset(a) + multiset(d);
    assert multiset(c + d) == multiset(c) + multiset(d);
  }

  /** Polling keeps the registry's ids and positions and the rule that no
      chunk is both flagged and generating. */
  lemma {:induction false} CompletionKeeps(m: map<nat, FarChunkData>, ts: seq<ChunkMeshTask>, rs: seq<Option<Handle>>)
    requires |ts| == |rs|
    ensures CompletedChunks(m, ts, rs).Keys == m.Keys
    ensures forall id | id in m :: CompletedChunks(m, ts, rs)[id].pos == m[id].pos
    ensures (forall id | id in m :: !(m[id].flagged && m[id].generatingNearChunks)) ==>
      forall id | id in m :: !(CompletedChunks(m, ts, rs)[id].flagged && CompletedChunks(m, ts, rs)[id].generatingNearChunks)
    decreases |ts|
  {
    if ts != [] {
      CompletionKeeps(m, ts[..|ts| - 1], rs[..|rs| - 1]);
    }
  }

  /** A far chunk gains one near mesh handle per finished near-grid task of its own. */
  lemma {:induction false} NearHandleCount(m: map<nat, FarChunkData>, ts: seq<ChunkMeshTask>, rs: seq<Option<Handle>>, id: nat)
    requires |ts| == |rs| && id in m
    ensures id in CompletedChunks(m, ts, rs)
    ensures |CompletedChunks(m, ts, rs)[id].nearMeshHandles| ==
      |m[id].nearMeshHandles| + multiset(Spawned(ts, rs, NearGrid))[id]
    decreases |ts|
  {
    CompletionKeeps(m, ts, rs);
    if ts != [] {
      var n := |ts| - 1;
      NearHandleCount(m, ts[..n], rs[..n], id);
      CompletionKeeps(m, ts[..n], rs[..n]);
    }
  }

  /** remove_unused_terrain's test: the chunk lies outside the closed window
      `[pc - R, pc + R]²` around the player's chunk. */
  predicate Despawns(p: ChunkPos, pc: ChunkPos) {
    || p.x < pc.x - FAR_GRID_RENDER_DISTANCE || p.x > pc.x + FAR_GRID_RENDER_DISTANCE
    || p.y < pc.y - FAR_GRID_RENDER_DISTANCE || p.y > pc.y + FAR_GRID_RENDER_DISTANCE
  }

  /** A chunk is despawned exactly when it is outside the closed window, so
      every chunk of the (half-open) generation window survives. */
  lemma DespawnsOutsideWindow(p: ChunkPos, pc: ChunkPos)
    ensures Despawns(p, pc) <==> !InClosedWindow(p, pc, FAR_GRID_RENDER_DISTANCE)
    ensures InGenerationWindow(p, pc, FAR_GRID_RENDER_DISTANCE) ==> !Despawns(p, pc)
  {
  }

  /** The spawned chunk ids among `s` whose chunks are removed. */
  ghost function Doomed(m: map<nat, FarChunkData>, s: seq<nat>, pc: ChunkPos): set<nat> {
    set x | x in s && x in m && Despawns(m[x].pos, pc)
  }

  /** The spawned chunk entities left after the removal pass over `s`. */
  function KeptChunks(m: map<nat, FarChunkData>, s: seq<nat>, pc: ChunkPos): seq<nat>
    decreases |s|
  {
    if s == [] then []
    else
      var x := s[|s| - 1];
      KeptChunks(m, s[..|s| - 1], pc) + (if x in m && Despawns(m[x].pos, pc) then [] else [x])
  }

  /** The mesh handles released by the removal pass over `s`, in order. */
  function RemovedMeshes(m: map<nat, FarChunkData>, s: seq<nat>, pc: ChunkPos): seq<Option<Handle>>
    decreases |s|
  {
    if s == [] then []
    else
      var x := s[|s| - 1];
      RemovedMeshes(m, s[..|s| - 1], pc) + (if x in m && Despawns(m[x].pos, pc) then [m[x].meshHandle] else [])
  }

  /** The kept entities are exactly the spawned ones whose chunks stay, each
      as often as before. */
  lemma {:induction false} KeptChunksExact(m: map<nat, FarChunkData>, s: seq<nat>, pc: ChunkPos)
    ensures forall x :: x in KeptChunks(m, s, pc) <==> x in s && x !in Doomed(m, s, pc)
    ensures multiset(KeptChunks(m, s, pc)) <= multiset(s)
    decreases |s|
  {
    if s != [] {
      var n := |s| - 1;
      KeptChunksExact(m, s[..n], pc);
      assert s == s[..n] + [s[n]];
    }
  }

  /** What generate_far_terrain adds to a registry that had counter `c0`,
      entries `m0` and tasks `t0`, giving counter `c`, entries `m` and tasks
      `t`: old entries are untouched, and each id `c0 <= id < c` is a fresh
      entry with default data at a position of the generation window, whose
      far task is the `(id - c0)`-th of the new tasks. */
  ghost predicate GrownFrom(c0: nat, m0: map<nat, FarChunkData>, t0: seq<ChunkMeshTask>, pc: ChunkPos,
                            c: nat, m: map<nat, FarChunkData>, t: seq<ChunkMeshTask>)
  {
    && c0 <= c
    && |t| == |t0| + (c - c0)
    && t[..|t0|] == t0
    && (forall id | id in m0 :: id in m && m[id] == m0[id])
    && (forall id | id in m :: id in m0 || c0 <= id < c)
    && (forall id | c0 <= id < c ::
          && id in m && id !in m0
          && m[id] == NewChunkData(m[id].pos)
          && InGenerationWindow(m[id].pos, pc, FAR_GRID_RENDER_DISTANCE)
          && t[|t0| + (id - c0)] == FarTask(id, m[id].pos))
  }

  /** Skipping a loaded position, or loading a window position under the
      next fresh id, keeps GrownFrom. */
  lemma GrownStep(c0: nat, m0: map<nat, FarChunkData>, t0: seq<ChunkMeshTask>, pc: ChunkPos,
                  c1: nat, m1: map<nat, FarChunkData>, t1: seq<ChunkMeshTask>, chunk: ChunkPos,
                  c2: nat, m2: map<nat, FarChunkData>, t2: seq<ChunkMeshTask>)
    requires GrownFrom(c0, m0, t0, pc, c1, m1, t1)
    requires InGenerationWindow(chunk, pc, FAR_GRID_RENDER_DISTANCE)
    requires || (c2 == c1 && m2 == m1 && t2 == t1)
             || (c2 == c1 + 1 && c1 !in m1 && m2 == m1[c1 := NewChunkData(chunk)] && t2 == t1 + [FarTask(c1, chunk)])
    ensures GrownFrom(c0, m0, t0, pc, c2, m2, t2)
  {
    if c2 != c1 {
      assert t2[..|t0|] == t1[..|t0|];
      forall id | c0 <= id < c2
        ensures t2[|t0| + (id - c0)] == FarTask(id, m2[id].pos)
      {
        if id < c1 {
          assert t2[|t0| + (id - c0)] == t1[|t0| + (id - c0)];
        }
      }
    }
  }

  /** Growing a registry keeps every loaded position loaded. */
  lemma HasChunkMono(m1: map<nat, FarChunkData>, m2: map<nat, FarChunkData>)
    requires forall id | id in m1 :: id in m2 && m2[id] == m1[id]
    ensures forall p :: HasChunkAt(m1, p) ==> HasChunkAt(m2, p)
  {
    forall p | HasChunkAt(m1, p) ensures HasChunkAt(m2, p) {
      var id :| id in m1 && m1[id].pos == p;
      assert id in m2 && m2[id].pos == p;
    }
  }

  /** The columns `pc.x - R .. x` of the generation window are loaded. */
  ghost predicate ColumnsLoaded(m: map<nat, FarChunkData>, pc: ChunkPos, x: int) {
    forall p :: InGenerationWindow(p, pc, FAR_GRID_RENDER_DISTANCE) && p.x < x ==> HasChunkAt(m, p)
  }

  /** Loading column `x` into a grown registry extends the loaded columns. */
  lemma ColumnsStep(m1: map<nat, FarChunkData>, m2: map<nat, FarChunkData>, pc: ChunkPos, x: int)
    requires ColumnsLoaded(m1, pc, x)
    requires forall id | id in m1 :: id in m2 && m2[id] == m1[id]
    requires forall y | pc.y - FAR_GRID_RENDER_DISTANCE <= y < pc.y + FAR_GRID_RENDER_DISTANCE ::
      HasChunkAt(m2, ChunkPos(x, y))
    ensures ColumnsLoaded(m2, pc, x + 1)
  {
    HasChunkMono(m1, m2);
    forall p | InGenerationWindow(p, pc, FAR_GRID_RENDER_DISTANCE) && p.x < x + 1
      ensures HasChunkAt(m2, p)
    {
      if p.x == x {
        assert p == ChunkPos(x, p.y);
      }
    }
  }

  /** The positions `(x, pc.y - R) .. (x, y)` of column `x` are loaded. */
  ghost predicate RowsLoaded(m: map<nat, FarChunkData>, pc: ChunkPos, x: int, y: int) {
    forall y' | pc.y - FAR_GRID_RENDER_DISTANCE <= y' < y :: HasChunkAt(m, ChunkPos(x, y'))
  }

  /** Loading position `(x, y)` into a grown registry extends the loaded rows. */
  lemma RowsStep(m1: map<nat, FarChunkData>, m2: map<nat, FarChunkData>, pc: ChunkPos, x: int, y: int)
    requires RowsLoaded(m1, pc, x, y)
    requires forall id | id in m1 :: id in m2 && m2[id] == m1[id]
    requires HasChunkAt(m2, ChunkPos(x, y))
    ensures RowsLoaded(m2, pc, x, y + 1)
  {
    HasChunkMono(m1, m2);
  }

  /** Once every column is loaded, so is the whole generation window. */
  lemma ColumnsWindow(m: map<nat, FarChunkData>, pc: ChunkPos)
    requires ColumnsLoaded(m, pc, pc.x + FAR_GRID_RENDER_DISTANCE)
    ensures forall p :: InGenerationWindow(p, pc, FAR_GRID_RENDER_DISTANCE) ==> HasChunkAt(m, p)
  {
  }

  /** Near-grid generation started on every flagged chunk: it stops being
      flagged and starts generating. */
  function StartNear(m: map<nat, FarChunkData>): (r: map<nat, FarChunkData>)
    ensures r.Keys == m.Keys
  {
    map id | id in m :: if m[id].flagged then m[id].(flagged := false, generatingNearChunks := true) else m[id]
  }

  /** The registry left by the removal pass over the spawned far chunks `s`. */
  ghost function RemainingChunks(m: map<nat, FarChunkData>, s: seq<nat>, pc: ChunkPos): map<nat, FarChunkData> {
    map id | id in m && id !in Doomed(m, s, pc) :: m[id]
  }

  /** The registry invariant over counter `idc`, entries `m`, running tasks
      `ts` and spawned far chunks `far`: ids are handed out below the
      counter; positions are loaded at most once; no chunk is both flagged
      and generating; every running far task and every spawned far chunk has
      its entry; and each far chunk id belongs to one running task or one
      entity, never more. */
  ghost predicate Registry(idc: nat, m: map<nat, FarChunkData>, ts: seq<ChunkMeshTask>, far: seq<nat>) {
    && (forall id | id in m :: id < idc)
    && PositionsDistinct(m)
    && (forall id | id in m :: !(m[id].flagged && m[id].generatingNearChunks))
    && (forall x | x in FarIds(ts) :: x in m)
    && (forall x | x in far :: x in m)
    && NoDup(FarIds(ts) + far)
  }

  /** Loading an unloaded position under the counter's id keeps the invariant. */
  lemma LoadKeepsRegistry(idc: nat, m: map<nat, FarChunkData>, ts: seq<ChunkMeshTask>, far: seq<nat>, chunk: ChunkPos)
    requires Registry(idc, m, ts, far) && !HasChunkAt(m, chunk)
    ensures Registry(idc + 1, m[idc := NewChunkData(chunk)], ts + [FarTask(idc, chunk)], far)
  {
    LoadKeepsIds(idc, m, ts, far, chunk);
    LoadKeepsPositions(idc, m, chunk);
  }

  lemma LoadKeepsIds(idc: nat, m: map<nat, FarChunkData>, ts: seq<ChunkMeshTask>, far: seq<nat>, chunk: ChunkPos)
    requires (forall x | x in FarIds(ts) :: x in m) && (forall x | x in far :: x in m)
    requires NoDup(FarIds(ts) + far) && (forall id | id in m :: id < idc)
    ensures FarIds(ts + [FarTask(idc, chunk)]) == FarIds(ts) + [idc]
    ensures NoDup(FarIds(ts + [FarTask(idc, chunk)]) + far)
  {
    var ts2 := ts + [FarTask(idc, chunk)];
    assert ts2[..|ts2| - 1] == ts;
    assert FarIds(ts2) == FarIds(ts) + [idc];
    var a := FarIds(ts) + far;
    assert idc !in a;
    assert FarIds(ts2) + far == FarIds(ts) + [idc] + far;
    assert multiset(FarIds(ts2) + far) == multiset(a) + multiset{idc};
  }

  lemma LoadKeepsPositions(idc: nat, m: map<nat, FarChunkData>, chunk: ChunkPos)
    requires PositionsDistinct(m) && !HasChunkAt(m, chunk)
    ensures PositionsDistinct(m[idc := NewChunkData(chunk)])
  {
    var m2 := m[idc := NewChunkData(chunk)];
    forall a, b | a in m2 && b in m2 && a != b ensures m2[a].pos != m2[b].pos {
      if a == idc {
        assert b in m;
      } else if b == idc {
        assert a in m;
      }
    }
  }

  /** Flagging the origin chunk keeps the invariant. */
  lemma FlagKeepsRegistry(idc: nat, m: map<nat, FarChunkData>, ts: seq<ChunkMeshTask>, far: seq<nat>)
    requires Registry(idc, m, ts, far)
    ensures Registry(idc, FlagOrigin(m), ts, far)
  {
    assert forall id | id in m :: FlagOrigin(m)[id].pos == m[id].pos;
  }

  /** Starting near-grid generation keeps the invariant. */
  lemma NearKeepsRegistry(idc: nat, m: map<nat, FarChunkData>, ts: seq<ChunkMeshTask>, far: seq<nat>, order: seq<nat>)
    requires Registry(idc, m, ts, far)
    requires forall id | id in order :: id in m
    ensures Registry(idc, StartNear(m), ts + NearTasksFor(order, m), far)
  {
    assert forall id | id in m :: StartNear(m)[id].pos == m[id].pos;
    NearTasksForAreNear(order, m);
    FarIdsOfNear(NearTasksFor(order, m));
    FarIdsAppend(ts, NearTasksFor(order, m));
    assert FarIds(ts + NearTasksFor(order, m)) == FarIds(ts);
  }

  /** Polling keeps the invariant: a spawned far chunk was a
      running far task of a loaded chunk, and stops being one. */
  lemma SpawnKeepsRegistry(idc: nat, m: map<nat, FarChunkData>, ts: seq<ChunkMeshTask>, far: seq<nat>, rs: seq<Option<Handle>>)
    requires Registry(idc, m, ts, far) && |rs| == |ts|
    ensures Registry(idc, CompletedChunks(m, ts, rs), Pending(ts, rs), far + Spawned(ts, rs, FarGrid))
  {
    var m2, ts2, far2 := CompletedChunks(m, ts, rs), Pending(ts, rs), far + Spawned(ts, rs, FarGrid);
    CompletionKeeps(m, ts, rs);
    FarTasksConserved(ts, rs);
    assert multiset(FarIds(ts2) + far2) == multiset(FarIds(ts2)) + multiset(far) + multiset(Spawned(ts, rs, FarGrid));
    assert multiset(FarIds(ts2) + far2) == multiset(FarIds(ts) + far);
    NoDupSub(FarIds(ts2) + far2, FarIds(ts) + far);
    forall x | x in FarIds(ts2) ensures x in m2 {
      assert x in multiset(FarIds(ts));
    }
    forall x | x in far2 ensures x in m2 {
      if x !in far {
        assert x in multiset(Spawned(ts, rs, FarGrid));
        assert x in multiset(FarIds(ts));
      }
    }
    assert PositionsDistinct(m2);
  }

  /** Removing the far chunks outside the window keeps the invariant: a
      running far task's chunk has no entity yet, so it is never removed. */
  lemma RemoveKeepsRegistry(idc: nat, m: map<nat, FarChunkData>, ts: seq<ChunkMeshTask>, far: seq<nat>, pc: ChunkPos)
    requires Registry(idc, m, ts, far)
    ensures Registry(idc, RemainingChunks(m, far, pc), ts, KeptChunks(m, far, pc))
  {
    var m2, far2 := RemainingChunks(m, far, pc), KeptChunks(m, far, pc);
    KeptChunksExact(m, far, pc);
    forall x | x in FarIds(ts) ensures x in m2 {
      NoDupDisjoint(FarIds(ts), far, x);
    }
    assert multiset(FarIds(ts) + far2) <= multiset(FarIds(ts) + far);
    NoDupSub(FarIds(ts) + far2, FarIds(ts) + far);
  }

  /** The removal pass keeps every entry whose chunk lies in the closed
      window: only despawning chunks are removed. */
  lemma WindowChunksRemain(m: map<nat, FarChunkData>, s: seq<nat>, pc: ChunkPos)
    ensures forall id | id in m && InClosedWindow(m[id].pos, pc, FAR_GRID_RENDER_DISTANCE) ::
      id in RemainingChunks(m, s, pc)
  {
    forall id | id in m && InClosedWindow(m[id].pos, pc, FAR_GRID_RENDER_DISTANCE)
      ensures id in RemainingChunks(m, s, pc)
    {
      DespawnsOutsideWindow(m[id].pos, pc);
      assert id !in Doomed(m, s, pc);
    }
  }

  /** The far-grid registry resource, together with the entities the
      terrain systems query: the running mesh tasks and the spawned far- and
      near-grid chunk entities (by chunk id, in query order). */
  class Terrain {
    var idCounter: nat
    var loadedChunks: map<nat, FarChunkData>
    var tasks: seq<ChunkMeshTask>
    var farChunks: seq<nat>
    var nearChunks: seq<nat>

    ghost predicate Valid()
      reads this
    {
      Registry(idCounter, loadedChunks, tasks, farChunks)
    }

    /** Terrain::default. */
    constructor ()
      ensures Valid()
      ensures idCounter == 0 && loadedChunks == map[] && tasks == [] && farChunks == [] && nearChunks == []
    {
      idCounter := 0;
      loadedChunks := map[];
      tasks := [];
      farChunks := [];
      nearChunks := [];
    }

    /** get_new_chunk_id: the counter's value, which is then advanced, so
        ids come out distinct and increasing. */
    method GetNewChunkId() returns (id: nat)
      modifies this
      ensures id == old(idCounter) && idCounter == old(idCounter) + 1
      ensures loadedChunks == old(loadedChunks) && tasks == old(tasks)
      ensures farChunks == old(farChunks) && nearChunks == old(nearChunks)
    {
      id := idCounter;
      idCounter := idCounter + 1;
    }

    /** One step of generate_far_terrain's window loop: unless a chunk is
        already loaded at `chunk`, take a fresh id, start its mesh task and
        register it with default data. */
    method LoadChunkAt(chunk: ChunkPos)
      requires Valid()
      modifies this
      ensures Valid()
      ensures HasChunkAt(loadedChunks, chunk)
      ensures farChunks == old(farChunks) && nearChunks == old(nearChunks)
      ensures old(HasChunkAt(loadedChunks, chunk)) ==>
        idCounter == old(idCounter) && loadedChunks == old(loadedChunks) && tasks == old(tasks)
      ensures !old(HasChunkAt(loadedChunks, chunk)) ==>
        && idCounter == old(idCounter) + 1
        && old(idCounter) !in old(loadedChunks)
        && loadedChunks == old(loadedChunks)[old(idCounter) := NewChunkData(chunk)]
        && tasks == old(tasks) + [FarTask(old(idCounter), chunk)]
    {
      if HasChunkAt(loadedChunks, chunk) {
        return;
      }
      LoadKeepsRegistry(idCounter, loadedChunks, tasks, farChunks, chunk);
      var currentId := GetNewChunkId();
      tasks := tasks + [FarTask(currentId, chunk)];
      loadedChunks := loadedChunks[currentId := NewChunkData(chunk)];
      assert loadedChunks[currentId].pos == chunk;
    }

    /** generate_far_terrain: afterwards every chunk position of the
        half-open window `[pc - R, pc + R)²` around the player's chunk `pc`
        is loaded, with fresh ids for the new ones and one far task each. */
    method GenerateFarTerrain(player: Vec2)
      requires Valid()
      modifies this
      ensures Valid()
      ensures GrownFrom(old(idCounter), old(loadedChunks), old(tasks), GetFarChunkPosition(player), idCounter, loadedChunks, tasks)
      ensures farChunks == old(farChunks) && nearChunks == old(nearChunks)
      ensures forall p :: InGenerationWindow(p, GetFarChunkPosition(player), FAR_GRID_RENDER_DISTANCE) ==>
        HasChunkAt(loadedChunks, p)
    {
      var pc := GetFarChunkPosition(player);
      ghost var c0, m0, t0 := idCounter, loadedChunks, tasks;
      var x := pc.x - FAR_GRID_RENDER_DISTANCE;
      while x < pc.x + FAR_GRID_RENDER_DISTANCE
        invariant pc.x - FAR_GRID_RENDER_DISTANCE <= x <= pc.x + FAR_GRID_RENDER_DISTANCE
        invariant Valid() && GrownFrom(c0, m0, t0, pc, idCounter, loadedChunks, tasks)
        invariant farChunks == old(farChunks) && nearChunks == old(nearChunks)
        invariant ColumnsLoaded(loadedChunks, pc, x)
      {
        ghost var m1 := loadedChunks;
        LoadColumn(pc, x, c0, m0, t0);
        ColumnsStep(m1, loadedChunks, pc, x);
        x := x + 1;
      }
      ColumnsWindow(loadedChunks, pc);
    }

    /** generate_far_terrain's inner loop over the column `x` of the window:
        afterwards each of its positions is loaded, and the registry has
        only grown. */
    method LoadColumn(pc: ChunkPos, x: int, ghost c0: nat, ghost m0: map<nat, FarChunkData>, ghost t0: seq<ChunkMeshTask>)
      requires Valid() && GrownFrom(c0, m0, t0, pc, idCounter, loadedChunks, tasks)
      requires pc.x - FAR_GRID_RENDER_DISTANCE <= x < pc.x + FAR_GRID_RENDER_DISTANCE
      modifies this
      ensures Valid() && GrownFrom(c0, m0, t0, pc, idCounter, loadedChunks, tasks)
      ensures farChunks == old(farChunks) && nearChunks == old(nearChunks)
      ensures forall id | id in old(loadedChunks) :: id in loadedChunks && loadedChunks[id] == old(loadedChunks)[id]
      ensures forall y | pc.y - FAR_GRID_RENDER_DISTANCE <= y < pc.y + FAR_GRID_RENDER_DISTANCE ::
        HasChunkAt(loadedChunks, ChunkPos(x, y))
    {
      var y := pc.y - FAR_GRID_RENDER_DISTANCE;
      while y < pc.y + FAR_GRID_RENDER_DISTANCE
        invariant pc.y - FAR_GRID_RENDER_DISTANCE <= y <= pc.y + FAR_GRID_RENDER_DISTANCE
        invariant Valid() && GrownFrom(c0, m0, t0, pc, idCounter, loadedChunks, tasks)
        invariant farChunks == old(farChunks) && nearChunks == old(nearChunks)
        invariant forall id | id in old(loadedChunks) :: id in loadedChunks && loadedChunks[id] == old(loadedChunks)[id]
        invariant RowsLoaded(loadedChunks, pc, x, y)
      {
        ghost var c1, m1, t1 := idCounter, loadedChunks, tasks;
        LoadChunkAt(ChunkPos(x, y));
        GrownStep(c0, m0, t0, pc, c1, m1, t1, ChunkPos(x, y), idCounter, loadedChunks, tasks);
        RowsStep(m1, loadedChunks, pc, x, y);
        y := y + 1;
      }
    }

    /** generate_near_terrain: every flagged chunk (visited in some map
        order, returned as `order`) stops being flagged, starts generating
        and gets its hundred near-grid tasks; nothing else changes. The
        player's chunk is computed but unused, its distance test being
        disabled. */
    method GenerateNearTerrain() returns (ghost order: seq<nat>)
      requires Valid()
      modifies this
      ensures Valid()
      ensures NoDup(order)
      ensures forall id :: id in order <==> id in old(loadedChunks) && old(loadedChunks)[id].flagged
      ensures loadedChunks == StartNear(old(loadedChunks))
      ensures tasks == old(tasks) + NearTasksFor(order, old(loadedChunks))
      ensures idCounter == old(idCounter) && farChunks == old(farChunks) && nearChunks == old(nearChunks)
    {
      var chunks, ts;
      chunks, ts, order := StartNearPass(loadedChunks, tasks);
      NearKeepsRegistry(idCounter, loadedChunks, tasks, farChunks, order);
      loadedChunks, tasks := chunks, ts;
    }

    /** generate_near_terrain's loop over the registry (in an arbitrary
        order): each flagged chunk is started and its near tasks queued. */
    static method StartNearPass(m0: map<nat, FarChunkData>, t0: seq<ChunkMeshTask>)
      returns (chunks: map<nat, FarChunkData>, ts: seq<ChunkMeshTask>, ghost order: seq<nat>)
      ensures NoDup(order)
      ensures forall id :: id in order <==> id in m0 && m0[id].flagged
      ensures chunks == StartNear(m0)
      ensures ts == t0 + NearTasksFor(order, m0)
    {
      chunks, ts := m0, t0;
      var remaining := m0.Keys;
      order := [];
      assert (m0.Keys - remaining) == {};
      while remaining != {}
        invariant NearPassState(m0, t0, remaining, chunks, ts, order)
        decreases |remaining|
      {
        var id :| id in remaining;
        var data := chunks[id];
        if data.flagged {
          NearPassStart(m0, t0, remaining, chunks, ts, order, id);
          chunks := chunks[id := data.(flagged := false, generatingNearChunks := true)];
          var corner := WorldCorner(data.pos);
          var near := NearChunkTasks(id, corner);
          ts := ts + near;
          order := order + [id];
        } else {
          NearPassSkip(m0, t0, remaining, chunks, ts, order, id);
        }
        remaining := remaining - {id};
      }
      assert chunks == StartNear(m0);
    }

    /** The origin step of spawn_generated_chunks: the chunk at (0, 0), if
        loaded, is flagged for near-grid generation when it has no near
        meshes and is neither flagged nor generating. */
    method FlagOriginChunk()
      requires Valid()
      modifies this
      ensures Valid()
      ensures loadedChunks == FlagOrigin(old(loadedChunks))
      ensures idCounter == old(idCounter) && tasks == old(tasks)
      ensures farChunks == old(farChunks) && nearChunks == old(nearChunks)
    {
      FlagKeepsRegistry(idCounter, loadedChunks, tasks, farChunks);
      if id :| id in loadedChunks && loadedChunks[id].pos == ChunkPos(0, 0) {
        var c := loadedChunks[id];
        if c.nearMeshHandles == [] && !c.flagged && !c.generatingNearChunks {
          loadedChunks := loadedChunks[id := c.(flagged := true)];
        }
        assert loadedChunks == FlagOrigin(old(loadedChunks));
      } else {
        assert loadedChunks == FlagOrigin(old(loadedChunks));
      }
    }

    /** spawn_generated_chunks: after the origin step, every task whose mesh
        is ready (`ready[i]` is the handle of task `i`'s mesh) is replaced
        by its chunk entity and its mesh recorded in the registry; the other
        tasks keep running. */
    method SpawnGeneratedChunks(ready: seq<Option<Handle>>)
      requires Valid() && |ready| == |tasks|
      modifies this
      ensures Valid()
      ensures loadedChunks == CompletedChunks(FlagOrigin(old(loadedChunks)), old(tasks), ready)
      ensures tasks == Pending(old(tasks), ready)
      ensures farChunks == old(farChunks) + Spawned(old(tasks), ready, FarGrid)
      ensures nearChunks == old(nearChunks) + Spawned(old(tasks), ready, NearGrid)
      ensures idCounter == old(idCounter)
    {
      FlagOriginChunk();
      var chunks, pending, far, near := PollPass(loadedChunks, tasks, ready);
      SpawnKeepsRegistry(idCounter, loadedChunks, tasks, farChunks, ready);
      loadedChunks, tasks, farChunks, nearChunks := chunks, pending, farChunks + far, nearChunks + near;
    }

    /** spawn_generated_chunks' loop over the running tasks: the finished
        ones are completed in order and the ids of the spawned far and near
        chunks collected; the rest stay pending. */
    static method PollPass(m0: map<nat, FarChunkData>, t0: seq<ChunkMeshTask>, ready: seq<Option<Handle>>)
      returns (chunks: map<nat, FarChunkData>, pending: seq<ChunkMeshTask>, far: seq<nat>, near: seq<nat>)
      requires |ready| == |t0|
      ensures chunks == CompletedChunks(m0, t0, ready)
      ensures pending == Pending(t0, ready)
      ensures far == Spawned(t0, ready, FarGrid)
      ensures near == Spawned(t0, ready, NearGrid)
    {
      chunks, pending, far, near := m0, [], [], [];
      for j := 0 to |t0|
        invariant chunks == CompletedChunks(m0, t0[..j], ready[..j])
        invariant pending == Pending(t0[..j], ready[..j])
        invariant far == Spawned(t0[..j], ready[..j], FarGrid)
        invariant near == Spawned(t0[..j], ready[..j], NearGrid)
      {
        PollPrefix(m0, t0, ready, j);
        chunks, pending, far, near := PollOne(chunks, pending, far, near, t0[j], ready[j]);
      }
      assert t0[..|t0|] == t0;
      assert ready[..|t0|] == ready;
    }

    /** One iteration of spawn_generated_chunks' loop, on task `task` whose
        poll result is `r`. */
    static method PollOne(m: map<nat, FarChunkData>, pending: seq<ChunkMeshTask>, far: seq<nat>, near: seq<nat>,
                          task: ChunkMeshTask, r: Option<Handle>)
      returns (m': map<nat, FarChunkData>, pending': seq<ChunkMeshTask>, far': seq<nat>, near': seq<nat>)
      ensures m' == (if r.Some? then Completion(m, task, r.value) else m)
      ensures pending' == pending + PendingOf(task, r)
      ensures far' == far + SpawnedOf(task, r, FarGrid)
      ensures near' == near + SpawnedOf(task, r, NearGrid)
    {
      m', pending', far', near' := m, pending, far, near;
      match r {
        case None =>
          pending' := pending + [task];
        case Some(h) =>
          match task.kind {
            case FarGrid =>
              far' := far + [task.id];
              if task.id in m {
                m' := m[task.id := m[task.id].(meshHandle := Some(h))];
              }
            case NearGrid =>
              near' := near + [task.id];
              if task.id in m {
                var data := m[task.id];
                m' := m[task.id := data.(generatingNearChunks := false,
                                         nearMeshHandles := data.nearMeshHandles + [h])];
              }
          }
      }
    }

    /** remove_unused_terrain: every spawned far chunk outside the closed
        window around the player's chunk is despawned, its mesh released
        and its registry entry removed; all other entries stay. The entry
        looked up for a spawned chunk is always present. */
    method RemoveUnusedTerrain(player: Vec2) returns (removedMeshes: seq<Option<Handle>>)
      requires Valid()
      modifies this
      ensures Valid()
      ensures loadedChunks == RemainingChunks(old(loadedChunks), old(farChunks), GetFarChunkPosition(player))
      ensures farChunks == KeptChunks(old(loadedChunks), old(farChunks), GetFarChunkPosition(player))
      ensures removedMeshes == RemovedMeshes(old(loadedChunks), old(farChunks), GetFarChunkPosition(player))
      ensures forall id | id in old(loadedChunks) && InClosedWindow(old(loadedChunks)[id].pos, GetFarChunkPosition(player), FAR_GRID_RENDER_DISTANCE) ::
        id in loadedChunks
      ensures idCounter == old(idCounter) && tasks == old(tasks) && nearChunks == old(nearChunks)
    {
      var pc := GetFarChunkPosition(player);
      NoDupSub(farChunks, FarIds(tasks) + farChunks);
      RemoveKeepsRegistry(idCounter, loadedChunks, tasks, farChunks, pc);
      WindowChunksRemain(loadedChunks, farChunks, pc);
      var chunks, kept;
      chunks, kept, removedMeshes := RemovalPass(loadedChunks, farChunks, pc);
      loadedChunks, farChunks := chunks, kept;
    }

    /** remove_unused_terrain's loop over the spawned far chunks `s`: each
        one's entry is looked up (and is present, `s` naming loaded chunks
        once each) and removed when it lies outside the window. */
    static method RemovalPass(m0: map<nat, FarChunkData>, s: seq<nat>, pc: ChunkPos)
      returns (chunks: map<nat, FarChunkData>, kept: seq<nat>, removedMeshes: seq<Option<Handle>>)
      requires forall x | x in s :: x in m0
      requires NoDup(s)
      ensures chunks == RemainingChunks(m0, s, pc)
      ensures kept == KeptChunks(m0, s, pc)
      ensures removedMeshes == RemovedMeshes(m0, s, pc)
    {
      chunks, kept, removedMeshes := m0, [], [];
      for j := 0 to |s|
        invariant chunks == RemainingChunks(m0, s[..j], pc)
        invariant kept == KeptChunks(m0, s[..j], pc)
        invariant removedMeshes == RemovedMeshes(m0, s[..j], pc)
      {
        assert s[..j + 1] == s[..j] + [s[j]];
        var id := s[j];
        NoDupNotBefore(s, j);
        assert id in chunks;
        var data := chunks[id];
        if Despawns(data.pos, pc) {
          removedMeshes := removedMeshes + [data.meshHandle];
          chunks := chunks - {id};
        } else {
          kept := kept + [id];
        }
        assert Doomed(m0, s[..j + 1], pc) == Doomed(m0, s[..j], pc) + (if Despawns(m0[id].pos, pc) then {id} else {});
      }
      assert s[..|s|] == s;
    }

    /** The inner 10 x 10 loop of generate_near_terrain: one near-grid task
        per near chunk, at the far chunk's corner plus whole near-chunk sizes. */
    static method NearChunkTasks(id: nat, corner: Vec2) returns (r: seq<ChunkMeshTask>)
      ensures r == NearTasks(id, corner)
    {
      var nearChunkSize := FAR_GRID_CHUNK_SIZE / NUM_NEAR_CHUNKS;
      r := [];
      for x := 0 to NUM_NEAR_CHUNKS
        invariant |r| == 10 * x
        invariant forall i :: 0 <= i < |r| ==> r[i] == NearTask(id, corner, i)
      {
        for y := 0 to NUM_NEAR_CHUNKS
          invariant |r| == 10 * x + y
          invariant forall i :: 0 <= i < |r| ==> r[i] == NearTask(id, corner, i)
        {
          var position := corner.Plus(Vec2((x * nearChunkSize) as real, (y * nearChunkSize) as real));
          assert (10 * x + y) / 10 == x && (10 * x + y) % 10 == y;
          r := r + [ChunkMeshTask(id, NearGrid, position)];
        }
      }
    }
  }

  /** mesh_data_from_noise: a grid of `w / sub + 2` by `h / sub + 2`
      vertices spaced `sub` apart (the divisions panic for `sub == 0`),
      vertex (x, z) lifted to `height` at its offset position, with six
      indices per quad, all naming vertices, both lists reversed. */
  method MeshDataFromNoise(height: (real, real) -> real, meshWidth: nat, meshHeight: nat, sub: nat, offset: Vec2)
    returns (vertices: seq<Vec3>, indices: seq<nat>)
    requires sub > 0
    ensures vertices == Reversed(GridRows(height, sub, offset, meshWidth / sub + 2, meshHeight / sub + 2))
    ensures indices == Reversed(IndexRows(meshWidth / sub + 2, meshHeight / sub + 2, meshHeight / sub + 2))
    ensures IsGridMesh(vertices, indices, height, sub, meshWidth / sub + 2, meshHeight / sub + 2, offset)
  {
    var vx := meshWidth / sub + 2;
    var vz := meshHeight / sub + 2;
    vertices, indices := BuildGrid(height, sub, vx, vz, offset);
    BuiltGridShape(height, sub, vx, vz, offset);
  }
}
